/** User address spaces of kernel/vm.c: page tables, the pages they map, and the operations that grow,
    shrink, copy and free them. A physical page is held by exactly one owner, so its contents are kept
    with the owner: table pages in `tables`, user pages in `mem`. */
module UserMemory {
  import opened Basics
  import opened Kalloc
  import opened PageTable

  type Page = s: seq<Byte> | |s| == PGSIZE witness seq(PGSIZE, _ => 0)

  const TRAMPOLINE: nat := MAXVA - PGSIZE
  const TRAPFRAME: nat := TRAMPOLINE - PGSIZE
  const USER: nat := TRAPFRAME / PGSIZE     // page numbers below this one are user pages

  const PTE_R: nat := 2
  const PTE_W: nat := 4
  const PTE_X: nat := 8
  const PTE_U: nat := 16

  predicate UserBit(e: nat) { e / PTE_U % 2 == 1 }

  function PgRoundUp(a: nat): nat { (a + PGSIZE - 1) / PGSIZE * PGSIZE }

  function Pages(sz: nat): nat { (sz + PGSIZE - 1) / PGSIZE }

  // ---- Address spaces as values ----

  /** `home` is the inverse of the user part of the page table. */
  datatype Space = Space(t: Tree, mem: map<nat, Page>, home: map<nat, nat>, trapframe: nat, trampoline: nat)

  /** A valid entry below USER maps a page of `mem` that no other entry maps; the two above map the
      trapframe and the trampoline; nothing else is mapped, and unused entries are zero. */
  ghost predicate LeafOk(s: Space, v: nat) {
    var e := Leaf(s.t, v);
    if !V(e) then e == 0
    else
      && IsLeaf(e)
      && (v < USER ==> Ppn(e) in s.mem && Ppn(e) in s.home && s.home[Ppn(e)] == v)
      && (v == USER ==> Ppn(e) == s.trapframe)
      && (v == USER + 1 ==> Ppn(e) == s.trampoline)
      && v <= USER + 1 && (v >= USER ==> !UserBit(e))
  }

  ghost predicate HomeOk(s: Space, x: nat) {
    x in s.mem && x in s.home && s.home[x] < USER && V(Leaf(s.t, s.home[x])) && Ppn(Leaf(s.t, s.home[x])) == x
  }

  ghost predicate Owned(s: Space) {
    && (forall v: nat {:trigger LeafOk(s, v)} :: LeafOk(s, v))
    && (forall x {:trigger HomeOk(s, x)} :: x in s.mem ==> HomeOk(s, x))
    && s.home.Keys == s.mem.Keys
  }

  /** No user page at or above page number n. */
  ghost predicate Below(t: Tree, n: nat) {
    forall v: nat :: n <= v < USER ==> !V(Leaf(t, v))
  }

  ghost predicate LeafSet(t: Tree, t': Tree, v: nat, pte: nat) {
    forall w: nat :: Leaf(t', w) == if w == v then pte else Leaf(t, w)
  }

  /** The entries of n pages from page number v are gone, the others as they were. */
  ghost predicate LeavesCut(t: Tree, t': Tree, v: nat, n: nat) {
    forall w: nat :: Leaf(t', w) == if v <= w < v + n && V(Leaf(t, w)) then 0 else Leaf(t, w)
  }

  lemma MapOwned(s: Space, t': Tree, v: nat, x: nat, page: Page, perm: nat)
    requires Owned(s) && v < USER && !V(Leaf(s.t, v)) && x !in s.mem && perm < 1024 && perm / 2 % 8 != 0
    requires LeafSet(s.t, t', v, Entry(x, perm))
    ensures Owned(Space(t', s.mem[x := page], s.home[x := v], s.trapframe, s.trampoline))
  {
    var s' := Space(t', s.mem[x := page], s.home[x := v], s.trapframe, s.trampoline);
    EntryRoundTrip(x, perm);
    forall w: nat ensures LeafOk(s', w) { assert LeafOk(s, w); }
    forall y | y in s'.mem ensures HomeOk(s', y) { assert y != x ==> HomeOk(s, y); }
  }

  /** The part of a map from pages kept when the pages whose home lies in [v, v + n) go. */
  function Kept<T>(m: map<nat, T>, home: map<nat, nat>, v: nat, n: nat): map<nat, T> {
    map x | x in m && x in home && !(v <= home[x] < v + n) :: m[x]
  }

  /** The n pages from page number v on are unmapped, and the user pages among them given up. */
  ghost predicate Dropped(s: Space, s': Space, v: nat, n: nat) {
    && LeavesCut(s.t, s'.t, v, n)
    && s'.mem == Kept(s.mem, s.home, v, n) && s'.home == Kept(s.home, s.home, v, n)
    && s'.trapframe == s.trapframe && s'.trampoline == s.trampoline
  }

  lemma DropOwned(s: Space, s': Space, v: nat, n: nat)
    requires Owned(s) && Dropped(s, s', v, n)
    ensures Owned(s')
  {
    forall w: nat ensures LeafOk(s', w) { assert LeafOk(s, w); }
    forall y | y in s'.mem ensures HomeOk(s', y) { assert HomeOk(s, y); }
    assert s'.home.Keys == s'.mem.Keys;
  }

  lemma DropNone(s: Space, v: nat)
    requires Owned(s)
    ensures Dropped(s, s, v, 0)
  {
  }

  lemma DropNext(s: Space, s1: Space, s2: Space, v: nat, n: nat)
    requires Dropped(s, s1, v, n) && Dropped(s1, s2, v + n, 1)
    ensures Dropped(s, s2, v, n + 1)
  {
    hide Leaf;
    assert s2.mem == Kept(s.mem, s.home, v, n + 1);
    assert s2.home == Kept(s.home, s.home, v, n + 1);
  }

  /** The byte at address a: lazily allocated pages that no access has reached read as zero. */
  function ByteAt(s: Space, a: nat): Byte {
    var e := Leaf(s.t, Vpn(a));
    if Vpn(a) < USER && V(e) && Ppn(e) in s.mem then s.mem[Ppn(e)][a % PGSIZE] else 0
  }

  // ---- Who holds a physical page ----

  /** Free pages, table pages and user pages are managed pages, and no page is two of them. */
  ghost predicate Apart(f: set<nat>, t: set<nat>, m: set<nat>, first: nat, limit: nat) {
    f !! t && f !! m && t !! m && forall x :: x in f + t + m ==> first <= x < limit
  }

  ghost function Union(f: set<nat>, t: set<nat>, m: set<nat>): set<nat> { f + t + m }

  lemma TakeFree(f: set<nat>, t: set<nat>, m: set<nat>, x: nat, first: nat, limit: nat)
    requires Apart(f, t, m, first, limit) && x in f
    ensures Apart(f - {x}, t, m, first, limit) && Union(f - {x}, t, m) == Union(f, t, m) - {x}
    ensures x !in t && x !in m && x in Union(f, t, m)
  {
    assert f - {x} + t + m <= f + t + m;
  }

  lemma GiveFree(f: set<nat>, t: set<nat>, m: set<nat>, x: nat, first: nat, limit: nat)
    requires Apart(f, t, m, first, limit) && x !in Union(f, t, m) && first <= x < limit
    ensures Apart(f + {x}, t, m, first, limit) && Union(f + {x}, t, m) == Union(f, t, m) + {x} && x !in f
  {
  }

  lemma GiveTable(f: set<nat>, t: set<nat>, m: set<nat>, x: nat, first: nat, limit: nat)
    requires Apart(f, t, m, first, limit) && x !in Union(f, t, m) && first <= x < limit
    ensures Apart(f, t + {x}, m, first, limit) && Union(f, t + {x}, m) == Union(f, t, m) + {x} && x !in t
  {
  }

  lemma GiveUser(f: set<nat>, t: set<nat>, m: set<nat>, x: nat, first: nat, limit: nat)
    requires Apart(f, t, m, first, limit) && x !in Union(f, t, m) && first <= x < limit
    ensures Apart(f, t, m + {x}, first, limit) && Union(f, t, m + {x}) == Union(f, t, m) + {x} && x !in m
  {
  }

  lemma TakeUser(f: set<nat>, t: set<nat>, m: set<nat>, x: nat, first: nat, limit: nat)
    requires Apart(f, t, m, first, limit) && x in m
    ensures Apart(f + {x}, t, m - {x}, first, limit) && Union(f + {x}, t, m - {x}) == Union(f, t, m)
    ensures x !in f && first <= x < limit
  {
    assert x in f + t + m;
    assert f + {x} + t + (m - {x}) == f + t + m;
  }

  /** Unless they are freed, pages given up are held no longer. */
  ghost function Left(held: set<nat>, freed: bool, m: set<nat>, m': set<nat>): set<nat> {
    if freed then held else held - (m - m')
  }

  lemma LeftAll(held: set<nat>, freed: bool, m: set<nat>)
    ensures Left(held, freed, m, m) == held
  {
  }

  lemma LeftFreed(held: set<nat>, m: set<nat>, m': set<nat>)
    ensures Left(held, true, m, m') == held
  {
  }

  lemma LeftMore(held: set<nat>, freed: bool, m: set<nat>, m1: set<nat>, m2: set<nat>)
    requires m2 <= m1 <= m
    ensures Left(Left(held, freed, m, m1), freed, m1, m2) == Left(held, freed, m, m2)
  {
    assert m - m2 == (m - m1) + (m1 - m2);
  }

  lemma LeaveUser(f: set<nat>, t: set<nat>, m: set<nat>, x: nat, first: nat, limit: nat, freed: bool)
    requires Apart(f, t, m, first, limit) && x in m
    ensures Apart(f, t, m - {x}, first, limit) && Union(f, t, m - {x}) == Left(Union(f, t, m), false, m, m - {x})
    ensures Left(Union(f, t, m), true, m, m - {x}) == Union(f, t, m)
  {
    assert m - (m - {x}) == {x};
    assert x !in f && x !in t;
    assert f + t + (m - {x}) == f + t + m - {x};
    assert forall y :: y in f + t + (m - {x}) ==> y in f + t + m;
  }

  lemma FixedOnly(s: Space, s': Space, v: nat, n: nat)
    requires Owned(s) && USER <= v && Dropped(s, s', v, n)
    ensures s'.mem.Keys == s.mem.Keys
  {
    hide Leaf;
    forall x | x in s.mem ensures x in s'.mem { assert HomeOk(s, x); }
  }

  datatype MapResult = Mapped | NoMemory | Remap

  class Proc {
    const trampoline: nat
    var root: nat
    var tables: map<nat, Table>
    ghost var at: map<Pos, nat>
    ghost var place: map<nat, Pos>
    var mem: map<nat, Page>
    ghost var home: map<nat, nat>
    var trapframe: nat
    var sz: nat

    /** An unused process slot. */
    constructor (trampoline: nat)
      ensures tables == map[] && at == map[] && place == map[] && mem == map[] && home == map[]
      ensures trapframe == 0 && sz == 0 && this.trampoline == trampoline
    {
      this.trampoline, root, tables, at, place := trampoline, 0, map[], map[], map[];
      mem, home, trapframe, sz := map[], map[], 0, 0;
    }

    ghost function T(): Tree
      reads `root, `tables, `at, `place
    {
      Tree(root, tables, at, place)
    }

    ghost function S(): Space
      reads `root, `tables, `at, `place, `mem, `home, `trapframe
    {
      Space(T(), mem, home, trapframe, trampoline)
    }

    /** The page table is well formed and its pages are neither free nor user pages. */
    ghost predicate Ready(k: Kmem)
      reads `root, `tables, `at, `place, `mem, k
    {
      k.Valid() && Formed(T()) && Apart(k.Free(), tables.Keys, mem.Keys, k.first, k.limit)
    }

    ghost function Held(k: Kmem): set<nat>
      reads `tables, `mem, k
    {
      Union(k.Free(), tables.Keys, mem.Keys)
    }

    /** A zeroed table page from the allocator, entered at index i of the table at position q. */
    method NewTable(k: Kmem, ghost q: Pos, pt: nat, i: nat) returns (ok: bool, x: nat)
      requires Ready(k) && q in at && at[q] == pt && q.level > 0 && i < 512 && Child(q, i) !in at
      modifies `tables, `at, `place, k`freelist
      ensures Ready(k) && Held(k) == old(Held(k)) && SameLeaves(old(T()), T())
      ensures ok ==> Child(q, i) in at && at[Child(q, i)] == x
      ensures ok ==> |k.freelist| == |old(k.freelist)| - 1
      ensures !ok ==> T() == old(T()) && k.freelist == old(k.freelist) == []
    {
      hide Formed, SameLeaves, Entry, Child, Kmem.Free, Kmem.Valid, Apart, Union, Blank;
      SameLeavesRefl(T());
      Present(T(), q);
      ok, x := k.Kalloc();
      if ok {
        TakeFree(old(k.Free()), tables.Keys, mem.Keys, x, k.first, k.limit);
        GiveTable(k.Free(), tables.Keys, mem.Keys, x, k.first, k.limit);
        GrownFormed(T(), q, i, x);
        GrownLeaf(T(), q, i, x);
        tables := tables[pt := tables[pt][i := Entry(x, 0)]][x := Blank()];
        at, place := at[Child(q, i) := x], place[x := Child(q, i)];
        assert tables.Keys == old(tables.Keys) + {x};
      }
    }

    /** Page-table page holding the bottom-level entry of va, created on the way if alloc. */
    method Walk(k: Kmem, va: nat, alloc: bool) returns (ok: bool, page: nat)
      requires Ready(k) && va < MAXVA
      modifies `tables, `at, `place, k`freelist
      ensures Ready(k) && Held(k) == old(Held(k)) && SameLeaves(old(T()), T())
      ensures ok ==> var q := Pos(0, Vpn(va) / 512); q in at && at[q] == page && page in tables
      ensures !ok ==> !V(Leaf(T(), Vpn(va))) && (alloc ==> k.freelist == [] && |old(k.freelist)| <= 1)
      ensures |k.freelist| <= |old(k.freelist)| <= |k.freelist| + 2
      ensures !alloc ==> T() == old(T()) && k.freelist == old(k.freelist)
    {
      hide Formed, Leaf, LinkOk, PosOk;
      var pt, level := root, 2;
      ghost var v := Vpn(va);
      Rooted(T());
      while level > 0
        invariant 0 <= level <= 2 && Ready(k) && Held(k) == old(Held(k)) && SameLeaves(old(T()), T())
        invariant !alloc ==> T() == old(T()) && k.freelist == old(k.freelist)
        invariant On(level, v) in at && at[On(level, v)] == pt && pt in tables
        invariant |k.freelist| <= |old(k.freelist)| <= |k.freelist| + 2 - level
      {
        var i := PX(level, va);
        Linked(T(), va, level);
        if V(tables[pt][i]) {
          pt := Ppn(tables[pt][i]);
        } else {
          NoLeaf(T(), v, level);
          if !alloc { return false, 0; }
          var got, x := NewTable(k, On(level, v), pt, i);
          if !got { return false, 0; }
          pt := x;
        }
        level := level - 1;
        Present(T(), On(level, v));
      }
      return true, pt;
    }

    /** `*pte = e`, at the table page that Walk found. */
    method SetPte(k: Kmem, va: nat, page: nat, e: nat)
      requires Ready(k) && va < MAXVA && var q := Pos(0, Vpn(va) / 512); q in at && at[q] == page && page in tables
      modifies `tables
      ensures Ready(k) && tables.Keys == old(tables.Keys) && LeafSet(old(T()), T(), Vpn(va), e)
    {
      hide Formed, Leaf;
      PXDigits(va);
      PutFormed(T(), Vpn(va), e);
      PutLeaf(T(), Vpn(va), e);
      tables := tables[page := tables[page][PX(0, va) := e]];
      assert tables.Keys == old(tables.Keys);
    }

    /** The loop body of mappages: one page. */
    method MapPage(k: Kmem, va: nat, pa: nat, perm: nat) returns (r: MapResult)
      requires Ready(k) && perm < 1024 && va < MAXVA
      modifies `tables, `at, `place, k`freelist
      ensures Ready(k) && Held(k) == old(Held(k))
      ensures r == Remap <==> V(old(Leaf(T(), Vpn(va))))
      ensures r == NoMemory ==> k.freelist == [] && |old(k.freelist)| <= 1
      ensures |k.freelist| <= |old(k.freelist)| <= |k.freelist| + 2
      ensures r == Mapped ==> LeafSet(old(T()), T(), Vpn(va), Entry(pa, perm))
      ensures r != Mapped ==> SameLeaves(old(T()), T())
    {
      hide Formed, Leaf, Entry;
      var ok, page := Walk(k, va, true);
      if !ok { return NoMemory; }
      PXDigits(va);
      LeafThere(T(), Vpn(va));
      if V(tables[page][PX(0, va)]) { return Remap; }
      SetPte(k, va, page, Entry(pa, perm));
      return Mapped;
    }

    /** Map size bytes from va to the pages from ppn on. The first `done` of them are mapped on return,
        all if the result is Mapped; on a failure the source leaves them in place. */
    method Mappages(k: Kmem, va: nat, size: nat, ppn: nat, perm: nat) returns (r: MapResult, ghost done: nat)
      requires Ready(k) && perm < 1024
      requires OnPage(va) && OnPage(size) && size > 0 && va + size <= MAXVA
      modifies `tables, `at, `place, k`freelist
      ensures Ready(k) && Held(k) == old(Held(k))
      ensures RangeMapped(old(T()), T(), Vpn(va), done, ppn, perm) && done <= Vpn(size)
      ensures r == Mapped <==> done == Vpn(size)
      ensures r != Mapped ==> (r == Remap <==> V(old(Leaf(T(), Vpn(va) + done))))
      ensures r == NoMemory ==> k.freelist == [] && |old(k.freelist)| <= 2 * done + 1
      ensures |k.freelist| <= |old(k.freelist)| <= |k.freelist| + 2 * Vpn(size)
    {
      hide Formed, Leaf, Entry, SameLeaves, RangeMapped, LeafSet, Ready, Held, Vpn, OnPage, V;
      ghost var v, n := Vpn(va), Vpn(size);
      NothingMapped(T(), v, ppn, perm);
      Aligned(va);
      Aligned(size);
      var a, pa, last := va, ppn, va + size - PGSIZE;
      done := 0;
      r := Mapped;
      while true
        invariant Ready(k) && Held(k) == old(Held(k)) && r == Mapped
        invariant a == (v + done) * PGSIZE && pa == ppn + done && done < n
        invariant RangeMapped(old(T()), T(), v, done, ppn, perm)
        invariant |k.freelist| <= |old(k.freelist)| <= |k.freelist| + 2 * done
        decreases n - done
      {
        ghost var before := T();
        VpnOf(v + done);
        r := MapPage(k, a, pa, perm);
        if r != Mapped {
          SameRange(old(T()), before, T(), v, done, ppn, perm);
          break;
        }
        NextMapped(old(T()), before, T(), v, done, ppn, perm);
        done := done + 1;
        if a == last { break; }
        a := a + PGSIZE;
        pa := pa + 1;
      }
    }

    /** The loop body of uvmunmap: one page. Pages below USER are user memory: the process gives them up, and
        they are freed if doFree says so. The two above are only unmapped. */
    method UnmapPage(k: Kmem, va: nat, doFree: bool)
      requires Ready(k) && Owned(S()) && va < MAXVA && (doFree ==> Vpn(va) < USER)
      modifies `tables, `at, `place, `mem, `home, k`freelist
      ensures Ready(k) && Held(k) == Left(old(Held(k)), doFree, old(mem.Keys), mem.Keys)
      ensures tables.Keys == old(tables.Keys)
      ensures Owned(S()) && Dropped(old(S()), S(), Vpn(va), 1) && mem.Keys <= old(mem.Keys)
    {
      hide Formed, Leaf, PX, Owned, LeafSet, LeavesCut, SameLeaves, Kept, Kmem.Free, Kmem.Valid, Apart, Union, Left;
      ghost var v := Vpn(va);
      var ok, page := Walk(k, va, false);
      LeftAll(Held(k), doFree, mem.Keys);
      if ok {
        PXDigits(va);
        LeafThere(T(), v);
        var pte := tables[page][PX(0, va)];
        if V(pte) {
          Unmapping(S(), v);
          if va / PGSIZE < USER {
            var pa := Ppn(pte);
            TakeUser(k.Free(), tables.Keys, mem.Keys, pa, k.first, k.limit);
            LeaveUser(k.Free(), tables.Keys, mem.Keys, pa, k.first, k.limit, doFree);
            if doFree { k.Kfree(pa); }
            mem, home := mem - {pa}, home - {pa};
            assert mem.Keys == old(mem.Keys) - {pa};
          }
          SetPte(k, va, page, 0);
          CutOne(old(T()), T(), v);
          DropOwned(old(S()), S(), v, 1);
          return;
        }
      }
      NotMapped(old(S()), v);
      DropOwned(old(S()), S(), v, 1);
    }

    /** Remove npages mappings from va on; absent ones are skipped. Without doFree the process's pages among
        them end up with nobody; no caller does that. */
    method Uvmunmap(k: Kmem, va: nat, npages: nat, doFree: bool)
      requires Ready(k) && Owned(S()) && OnPage(va) && va + npages * PGSIZE <= MAXVA
      requires doFree ==> Vpn(va) + npages <= USER
      modifies `tables, `at, `place, `mem, `home, k`freelist
      ensures Ready(k) && Held(k) == Left(old(Held(k)), doFree, old(mem.Keys), mem.Keys)
      ensures tables.Keys == old(tables.Keys)
      ensures doFree || USER <= Vpn(va) ==> Held(k) == old(Held(k))
      ensures Owned(S()) && Dropped(old(S()), S(), Vpn(va), npages)
    {
      hide Formed, Leaf, Owned, Dropped, Ready, Held, Vpn, OnPage, Kept, Left;
      var a := va;
      ghost var v, n := Vpn(va), 0;
      Aligned(va);
      DropNone(S(), v);
      LeftAll(Held(k), doFree, mem.Keys);
      while a < va + npages * PGSIZE
        invariant a == (v + n) * PGSIZE && 0 <= n <= npages
        invariant Ready(k) && Held(k) == Left(old(Held(k)), doFree, old(mem.Keys), mem.Keys)
        invariant tables.Keys == old(tables.Keys)
        invariant Owned(S()) && Dropped(old(S()), S(), v, n) && mem.Keys <= old(mem.Keys)
        decreases npages - n
      {
        VpnOf(v + n);
        ghost var before := S();
        UnmapPage(k, a, doFree);
        DropNext(old(S()), before, S(), v, n);
        LeftMore(old(Held(k)), doFree, old(mem.Keys), before.mem.Keys, mem.Keys);
        a, n := a + PGSIZE, n + 1;
      }
      if doFree { LeftFreed(old(Held(k)), old(mem.Keys), mem.Keys); }
      if USER <= v { FixedOnly(old(S()), S(), v, n); LeftAll(old(Held(k)), doFree, mem.Keys); }
    }
  }

  /** The position at a level on the way to page number v. */
  ghost function On(level: nat, v: nat): Pos
    requires level <= 2
  {
    if level == 2 then Pos(2, 0) else if level == 1 then Pos(1, v / 512 / 512) else Pos(0, v / 512)
  }

  lemma NoLeaf(t: Tree, v: nat, level: nat)
    requires Formed(t) && 0 < level <= 2 && On(level - 1, v) !in t.at
    ensures !V(Leaf(t, v)) && Pos(0, v / 512) !in t.at
  {
    var q := Pos(0, v / 512);
    assert q in t.at ==> PosOk(t, q);
    assert Parent(q) == On(1, v);
  }

  /** One level of the walk: the entry leads to the next position exactly when that table exists. */
  lemma Linked(t: Tree, va: nat, level: nat)
    requires Formed(t) && va < MAXVA && 0 < level <= 2 && On(level, Vpn(va)) in t.at
    ensures var q, i := On(level, Vpn(va)), PX(level, va);
            && t.at[q] in t.tables && Child(q, i) == On(level - 1, Vpn(va))
            && (V(t.tables[t.at[q]][i]) <==> Child(q, i) in t.at)
            && (V(t.tables[t.at[q]][i]) ==> Ppn(t.tables[t.at[q]][i]) == t.at[Child(q, i)])
  {
    PXDigits(va);
    var q, i := On(level, Vpn(va)), PX(level, va);
    assert PosOk(t, q) && LinkOk(t, q, i);
  }

  /** Entries v .. v + n - 1 were free and now map ppn, ppn + 1, ...; no other entry changed. */
  ghost predicate RangeMapped(t: Tree, t': Tree, v: nat, n: nat, ppn: nat, perm: nat)
    requires perm < 1024
  {
    && (forall w: nat :: Leaf(t', w) == if v <= w < v + n then Entry(ppn + (w - v), perm) else Leaf(t, w))
    && (forall w: nat :: v <= w < v + n ==> !V(Leaf(t, w)))
  }

  lemma LeafThere(t: Tree, v: nat)
    requires Pos(0, v / 512) in t.at && t.at[Pos(0, v / 512)] in t.tables
    ensures Leaf(t, v) == t.tables[t.at[Pos(0, v / 512)]][v % 512]
  {
  }

  lemma NothingMapped(t: Tree, v: nat, ppn: nat, perm: nat)
    requires perm < 1024
    ensures RangeMapped(t, t, v, 0, ppn, perm)
  {
  }

  /** A mapped user page is a page of `mem`, and its home is that entry. */
  lemma Unmapping(s: Space, v: nat)
    requires Owned(s) && V(Leaf(s.t, v))
    ensures v < USER ==> Ppn(Leaf(s.t, v)) in s.mem && Kept(s.mem, s.home, v, 1) == s.mem - {Ppn(Leaf(s.t, v))}
    ensures v < USER ==> Kept(s.home, s.home, v, 1) == s.home - {Ppn(Leaf(s.t, v))}
    ensures v >= USER ==> Kept(s.mem, s.home, v, 1) == s.mem && Kept(s.home, s.home, v, 1) == s.home
  {
    hide Leaf;
    assert LeafOk(s, v);
    assert forall x :: x in s.mem ==> HomeOk(s, x);
  }

  lemma NotMapped(s: Space, v: nat)
    requires Owned(s) && !V(Leaf(s.t, v))
    ensures Dropped(s, s, v, 1)
  {
    hide Leaf;
    assert forall x :: x in s.mem ==> HomeOk(s, x);
  }

  lemma CutOne(t: Tree, t': Tree, v: nat)
    requires V(Leaf(t, v)) && LeafSet(t, t', v, 0)
    ensures LeavesCut(t, t', v, 1)
  {
    hide Leaf;
  }

  lemma SameRange(t: Tree, t1: Tree, t2: Tree, v: nat, n: nat, ppn: nat, perm: nat)
    requires perm < 1024 && RangeMapped(t, t1, v, n, ppn, perm) && SameLeaves(t1, t2)
    ensures RangeMapped(t, t2, v, n, ppn, perm) && Leaf(t1, v + n) == Leaf(t, v + n)
  {
    hide Leaf, Entry;
  }

  lemma OneMapped(t: Tree, t': Tree, v: nat, done: nat, x: nat, perm: nat)
    requires perm < 1024 && done <= 1 && RangeMapped(t, t', v, done, x, perm)
    ensures done == 1 ==> LeafSet(t, t', v, Entry(x, perm))
    ensures done == 0 ==> SameLeaves(t, t')
  {
    hide Leaf, Entry;
  }

  lemma NextMapped(t: Tree, t1: Tree, t2: Tree, v: nat, n: nat, ppn: nat, perm: nat)
    requires perm < 1024 && RangeMapped(t, t1, v, n, ppn, perm) && !V(Leaf(t1, v + n))
    requires LeafSet(t1, t2, v + n, Entry(ppn + n, perm))
    ensures RangeMapped(t, t2, v, n + 1, ppn, perm)
  {
    hide Leaf, Entry;
  }
}
