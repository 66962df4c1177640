/** Freeing address spaces: kernel/vm.c's freewalk and uvmfree, with kernel/proc.c's proc_pagetable and
    proc_freepagetable. */
module Teardown {
  import opened Kalloc
  import opened PageTable
  import opened UserMemory

  /** Position p lies in the subtree of q. */
  predicate Under(p: Pos, q: Pos) {
    || p == q
    || (q.level == 1 && p.level == 0 && p.prefix / 512 == q.prefix)
    || (q.level == 2 && p.level < 2)
  }

  /** Position p lies below q, through one of the first i entries. */
  predicate Cut(p: Pos, q: Pos, i: nat) {
    || (q.level == 1 && p.level == 0 && p.prefix / 512 == q.prefix && p.prefix % 512 < i)
    || (q.level == 2 && p.level == 1 && p.prefix < i)
    || (q.level == 2 && p.level == 0 && p.prefix / 512 < i)
  }

  /** The tree without the subtree of q. */
  ghost function Pruned(t: Tree, q: Pos): Tree {
    Tree(t.root,
         map y | y in t.tables && y in t.place && !Under(t.place[y], q) :: t.tables[y],
         map p | p in t.at && !Under(p, q) :: t.at[p],
         map y | y in t.place && !Under(t.place[y], q) :: t.place[y])
  }

  function Zeroed(s: Table, i: nat): Table {
    seq(512, j requires 0 <= j < 512 => if j < i && V(s[j]) then 0 else s[j])
  }

  /** The tree after freewalk at q has dealt with its first i entries. */
  ghost function Trimmed(t: Tree, q: Pos, i: nat): Tree
    requires q in t.at
  {
    Tree(t.root,
         map y | y in t.tables && y in t.place && !Cut(t.place[y], q, i) ::
           if y == t.at[q] then Zeroed(t.tables[y], i) else t.tables[y],
         map p | p in t.at && !Cut(p, q, i) :: t.at[p],
         map y | y in t.place && !Cut(t.place[y], q, i) :: t.place[y])
  }

  ghost predicate NoEntry(t: Tree, p: Pos, j: nat) {
    p in t.at && t.at[p] in t.tables && j < 512 ==> !V(t.tables[t.at[p]][j])
  }

  /** No page is mapped below q. */
  ghost predicate NoLeaves(t: Tree, q: Pos) {
    forall p, j: nat {:trigger NoEntry(t, p, j)} :: Under(p, q) && p.level == 0 ==> NoEntry(t, p, j)
  }

  lemma TrimmedLink(t: Tree, q: Pos, i: nat, p: Pos, j: nat)
    requires Formed(t) && q in t.at && i <= 512
    requires var w := Trimmed(t, q, i); p in w.at && w.at[p] in w.tables && p.level > 0 && j < 512
    ensures LinkOk(Trimmed(t, q, i), p, j)
  {
    var w, c := Trimmed(t, q, i), Child(p, j);
    assert PosOk(t, q) && PosOk(t, p) && LinkOk(t, p, j);
    if p == q { CutChild(q, i, j); } else { assert t.at[p] != t.at[q]; CutOther(p, q, i, j); }
  }

  lemma CutChild(q: Pos, i: nat, j: nat)
    requires IsPos(q) && q.level > 0 && j < 512
    ensures Cut(Child(q, j), q, i) <==> j < i
  {
  }

  lemma CutOther(p: Pos, q: Pos, i: nat, j: nat)
    requires IsPos(p) && IsPos(q) && p != q && p.level > 0 && j < 512 && i <= 512
    ensures Cut(Child(p, j), q, i) <==> Cut(p, q, i)
  {
  }

  lemma TrimmedFormed(t: Tree, q: Pos, i: nat)
    requires Formed(t) && q in t.at && i <= 512
    ensures Formed(Trimmed(t, q, i))
  {
    hide LinkOk, Zeroed;
    var w := Trimmed(t, q, i);
    assert PosOk(t, q);
    forall p | p in w.at ensures PosOk(w, p) {
      assert PosOk(t, p);
      if p.level < 2 { CutParent(p, q, i); }
    }
    forall y | y in w.tables ensures PageOk(w, y) { assert PageOk(t, y); }
    forall p, j | p in w.at && PosOk(w, p) && p.level > 0 && 0 <= j < 512 ensures LinkOk(w, p, j) {
      TrimmedLink(t, q, i, p, j);
    }
    assert PosOk(t, Pos(2, 0));
  }

  lemma CutParent(p: Pos, q: Pos, i: nat)
    requires IsPos(p) && IsPos(q) && p.level < 2
    ensures Cut(Parent(p), q, i) ==> Cut(p, q, i)
  {
  }

  /** Removing entry i's subtree and zeroing the entry is one step of the trimming. */
  lemma TrimStep(t: Tree, q: Pos, i: nat)
    requires Formed(t) && q in t.at && t.at[q] in t.tables && q.level > 0 && i < 512 && V(t.tables[t.at[q]][i])
    ensures var w, x := Trimmed(t, q, i), t.at[q];
            && Child(q, i) in w.at && x in Pruned(w, Child(q, i)).tables && x in w.tables
            && w.tables[x][i] == t.tables[x][i] && Ppn(t.tables[x][i]) == w.at[Child(q, i)] && !IsLeaf(t.tables[x][i])
            && var u := Pruned(w, Child(q, i)); u.(tables := u.tables[x := u.tables[x][i := 0]]) == Trimmed(t, q, i + 1)
  {
    hide LinkOk, Formed, Cut, Under, IsLeaf, V;
    LinkFacts(t, q, i);
    var w, x, c := Trimmed(t, q, i), t.at[q], Child(q, i);
    CutChild(q, i, i);
    Selves(q, i);
    forall p | p in t.at ensures Cut(p, q, i + 1) <==> Cut(p, q, i) || Under(p, c) { PosFacts(t, p); CutNext(p, q, i); }
    PageFacts(t);
    var u := Pruned(w, c);
    var z := Trimmed(t, q, i + 1);
    assert u.at == z.at;
    assert u.place == z.place;
    ZeroNext(t.tables[x], i);
    assert u.tables[x := u.tables[x][i := 0]] == z.tables;
  }

  lemma Selves(q: Pos, i: nat)
    requires IsPos(q) && q.level > 0 && i < 512
    ensures !Cut(q, q, i) && !Cut(q, q, i + 1) && !Under(q, Child(q, i)) && Under(Child(q, i), Child(q, i))
  {
  }

  lemma ZeroNext(s: Table, i: nat)
    requires i < 512 && V(s[i])
    ensures Zeroed(s, i)[i := 0] == Zeroed(s, i + 1) && Zeroed(s, i)[i] == s[i]
  {
  }

  lemma LinkFacts(t: Tree, q: Pos, i: nat)
    requires Formed(t) && q in t.at && t.at[q] in t.tables && q.level > 0 && i < 512
    ensures IsPos(q) && q in t.at && t.at[q] in t.place && t.place[t.at[q]] == q
    ensures var e := t.tables[t.at[q]][i];
            && (V(e) <==> Child(q, i) in t.at)
            && (V(e) ==> !IsLeaf(e) && Ppn(e) == t.at[Child(q, i)] && IsPos(Child(q, i)))
  {
    assert PosOk(t, q) && LinkOk(t, q, i);
    if Child(q, i) in t.at { assert PosOk(t, Child(q, i)); }
  }

  lemma PosFacts(t: Tree, p: Pos)
    requires Formed(t) && p in t.at
    ensures IsPos(p) && t.at[p] in t.place && t.place[t.at[p]] == p
    ensures p.level < 2 ==> Parent(p) in t.at
  {
    assert PosOk(t, p);
  }

  lemma PageFacts(t: Tree)
    requires Formed(t)
    ensures forall y :: y in t.tables ==> y in t.place && t.place[y] in t.at && t.at[t.place[y]] == y
    ensures forall y :: y in t.place ==> y in t.tables
  {
    forall y | y in t.tables ensures y in t.place && t.place[y] in t.at && t.at[t.place[y]] == y {
      assert PageOk(t, y);
    }
  }

  lemma CutNext(p: Pos, q: Pos, i: nat)
    requires IsPos(p) && IsPos(q) && q.level > 0 && i < 512
    ensures Cut(p, q, i + 1) <==> Cut(p, q, i) || Under(p, Child(q, i))
  {
  }

  /** An entry that leads nowhere changes nothing. */
  lemma TrimSkip(t: Tree, q: Pos, i: nat)
    requires Formed(t) && q in t.at && t.at[q] in t.tables && i < 512 && !V(t.tables[t.at[q]][i])
    ensures Trimmed(t, q, i + 1) == Trimmed(t, q, i)
  {
    hide LinkOk, Formed;
    PosFacts(t, q);
    PageFacts(t);
    forall p | p in t.at ensures Cut(p, q, i + 1) <==> Cut(p, q, i) { NotBelow(t, q, i, p); }
    var x := t.at[q];
    assert Zeroed(t.tables[x], i + 1) == Zeroed(t.tables[x], i);
    assert Trimmed(t, q, i + 1).at == Trimmed(t, q, i).at;
    assert Trimmed(t, q, i + 1).place == Trimmed(t, q, i).place;
    assert Trimmed(t, q, i + 1).tables == Trimmed(t, q, i).tables;
  }

  lemma NotBelow(t: Tree, q: Pos, i: nat, p: Pos)
    requires Formed(t) && q in t.at && t.at[q] in t.tables && i < 512 && !V(t.tables[t.at[q]][i]) && p in t.at
    ensures Cut(p, q, i + 1) <==> Cut(p, q, i)
  {
    hide LinkOk, Formed;
    PosFacts(t, p);
    PosFacts(t, q);
    if q.level > 0 {
      LinkFacts(t, q, i);
      CutNext(p, q, i);
      if p.level < 2 { PosFacts(t, Parent(p)); }
    }
  }

  /** Once all 512 entries are dealt with, the page itself is all that is left of the subtree. */
  lemma TrimDone(t: Tree, q: Pos)
    requires Formed(t) && q in t.at
    ensures var w, x := Trimmed(t, q, 512), t.at[q];
            x in w.tables && Tree(t.root, w.tables - {x}, w.at - {q}, w.place - {x}) == Pruned(t, q)
  {
    hide LinkOk, Formed, Zeroed, Cut, Under;
    PosFacts(t, q);
    PageFacts(t);
    Present(t, q);
    CutAll(q, q);
    forall p | p in t.at ensures Under(p, q) <==> p == q || Cut(p, q, 512) { PosFacts(t, p); CutAll(p, q); }
    var w, x, z := Trimmed(t, q, 512), t.at[q], Pruned(t, q);
    assert w.at - {q} == z.at;
    assert w.place - {x} == z.place;
    assert w.tables - {x} == z.tables;
  }

  lemma CutAll(p: Pos, q: Pos)
    requires IsPos(p) && IsPos(q)
    ensures Under(p, q) <==> p == q || Cut(p, q, 512)
    ensures !Cut(q, q, 512)
  {
  }

  lemma TrimNone(t: Tree, q: Pos)
    requires Formed(t) && q in t.at
    ensures Trimmed(t, q, 0) == t
  {
    hide LinkOk, Formed;
    PageFacts(t);
    Present(t, q);
    var x := t.at[q];
    assert Zeroed(t.tables[x], 0) == t.tables[x];
    assert Trimmed(t, q, 0).at == t.at;
    assert Trimmed(t, q, 0).place == t.place;
    assert Trimmed(t, q, 0).tables == t.tables;
  }

  lemma TakeTable(f: set<nat>, t: set<nat>, m: set<nat>, x: nat, first: nat, limit: nat)
    requires Apart(f, t, m, first, limit) && x in t
    ensures Apart(f + {x}, t - {x}, m, first, limit) && Union(f + {x}, t - {x}, m) == Union(f, t, m)
    ensures x !in f && first <= x < limit
  {
    assert x in f + t + m;
    assert f + {x} + (t - {x}) + m == f + t + m;
  }

  /** The last act of freewalk: the page itself. */
  method FreeTable(p: Proc, k: Kmem, x: nat, ghost q: Pos)
    requires k.Valid() && Apart(k.Free(), p.tables.Keys, p.mem.Keys, k.first, k.limit) && x in p.tables
    modifies p`tables, p`at, p`place, k`freelist
    ensures k.Valid() && Apart(k.Free(), p.tables.Keys, p.mem.Keys, k.first, k.limit) && p.Held(k) == old(p.Held(k))
    ensures p.T() == old(Tree(p.root, p.tables - {x}, p.at - {q}, p.place - {x}))
  {
    hide Kmem.Valid, Kmem.Free, Apart, Union;
    TakeTable(k.Free(), p.tables.Keys, p.mem.Keys, x, k.first, k.limit);
    k.Kfree(x);
    p.tables, p.at, p.place := p.tables - {x}, p.at - {q}, p.place - {x};
    assert p.tables.Keys == old(p.tables.Keys) - {x};
  }

  /** Free the tables of the subtree at q, whose page is x. The "leaf" panic does not arise. */
  method Freewalk(p: Proc, k: Kmem, x: nat, ghost q: Pos)
    requires p.Ready(k) && q in p.at && p.at[q] == x && NoLeaves(p.T(), q)
    modifies p`tables, p`at, p`place, k`freelist
    ensures k.Valid() && Apart(k.Free(), p.tables.Keys, p.mem.Keys, k.first, k.limit) && p.Held(k) == old(p.Held(k))
    ensures p.T() == Pruned(old(p.T()), q)
    decreases q.level
  {
    hide Kmem.Valid, Kmem.Free, Apart, Union, Formed, Pruned, Trimmed, NoLeaves;
    ghost var t := p.T();
    TrimNone(t, q);
    Present(t, q);
    for i := 0 to 512
      invariant p.T() == Trimmed(t, q, i) && p.Ready(k) && p.Held(k) == old(p.Held(k)) && x in p.tables
      invariant forall j :: i <= j < 512 ==> p.tables[x][j] == t.tables[x][j]
    {
      var pte := p.tables[x][i];
      FreeEntry(t, q, i);
      if V(pte) && !IsLeaf(pte) {
        var child := Ppn(pte);
        Freewalk(p, k, child, Child(q, i));
        p.tables := p.tables[x := p.tables[x][i := 0]];
        assert p.tables.Keys == Pruned(Trimmed(t, q, i), Child(q, i)).tables.Keys;
      } else if V(pte) {
        assert false;
      }
      TrimmedFormed(t, q, i + 1);
    }
    TrimDone(t, q);
    FreeTable(p, k, x, q);
  }

  /** What freewalk meets at entry i. */
  lemma FreeEntry(t: Tree, q: Pos, i: nat)
    requires Formed(t) && q in t.at && t.at[q] in t.tables && NoLeaves(t, q) && i < 512
    ensures var x, w := t.at[q], Trimmed(t, q, i); var e := t.tables[x][i];
            && x in Trimmed(t, q, i + 1).tables
            && (forall j :: i + 1 <= j < 512 ==> Trimmed(t, q, i + 1).tables[x][j] == t.tables[x][j])
            && (!V(e) ==> Trimmed(t, q, i + 1) == w)
            && (V(e) ==> q.level > 0 && !IsLeaf(e) && Child(q, i) in w.at && Ppn(e) == w.at[Child(q, i)]
                         && NoLeaves(w, Child(q, i)) && x in Pruned(w, Child(q, i)).tables
                         && var u := Pruned(w, Child(q, i));
                            u.(tables := u.tables[x := u.tables[x][i := 0]]) == Trimmed(t, q, i + 1))
  {
    hide LinkOk, Formed, Cut, Under, IsLeaf;
    PosFacts(t, q);
    PageFacts(t);
    CutSelf(q, i + 1);
    var x, w := t.at[q], Trimmed(t, q, i);
    if V(t.tables[x][i]) {
      UnderSelf(q);
      assert q.level == 0 ==> NoEntry(t, q, i);
      TrimStep(t, q, i);
      forall p, j: nat | Under(p, Child(q, i)) && p.level == 0 ensures NoEntry(w, p, j) {
        if p in t.at { PosFacts(t, p); LinkFacts(t, q, i); UnderChild(p, q, i); assert NoEntry(t, p, j); }
      }
    } else {
      TrimSkip(t, q, i);
    }
  }

  lemma CutSelf(q: Pos, i: nat)
    requires IsPos(q)
    ensures !Cut(q, q, i)
  {
  }

  lemma UnderSelf(q: Pos)
    ensures Under(q, q)
  {
  }

  lemma UnderChild(p: Pos, q: Pos, i: nat)
    requires IsPos(p) && IsPos(q) && q.level > 0 && i < 512 && Under(p, Child(q, i))
    ensures Under(p, q) && p != q
  {
  }

  /** No page table at all. */
  ghost predicate Bare(p: Proc)
    reads p
  {
    p.tables == map[] && p.at == map[] && p.place == map[] && p.mem == map[] && p.home == map[]
  }

  lemma NothingMapped(s: Space)
    requires Formed(s.t) && Owned(s) && Below(s.t, 0) && !V(Leaf(s.t, USER)) && !V(Leaf(s.t, USER + 1))
    ensures NoLeaves(s.t, Pos(2, 0)) && s.mem == map[] && s.home == map[]
    ensures Pruned(s.t, Pos(2, 0)) == Tree(s.t.root, map[], map[], map[])
  {
    hide LinkOk, Formed;
    forall p: Pos, j: nat | p.level == 0 ensures NoEntry(s.t, p, j) {
      if p in s.t.at && s.t.at[p] in s.t.tables && j < 512 {
        var v := p.prefix * 512 + j;
        assert v / 512 == p.prefix && v % 512 == j && Pos(0, v / 512) == p;
        assert LeafOk(s, v);
      }
    }
    assert forall x :: x in s.mem ==> HomeOk(s, x);
    PageFacts(s.t);
    forall p | p in s.t.at ensures Under(p, Pos(2, 0)) { PosFacts(s.t, p); }
  }

  lemma DropAll(s: Space, s': Space, n: nat)
    requires Owned(s) && Below(s.t, n) && n <= USER && Dropped(s, s', 0, n)
    ensures Below(s'.t, 0) && Leaf(s'.t, USER) == Leaf(s.t, USER) && Leaf(s'.t, USER + 1) == Leaf(s.t, USER + 1)
  {
    hide Leaf;
  }

  lemma FreeOnly(f: set<nat>)
    ensures Union(f, {}, {}) == f
  {
  }

  /** Free the user pages and then the tables: every page the address space held is free again. */
  method Uvmfree(p: Proc, k: Kmem, sz: nat)
    requires p.Ready(k) && Owned(p.S()) && sz <= TRAPFRAME && Below(p.T(), Pages(sz))
    requires !V(Leaf(p.T(), USER)) && !V(Leaf(p.T(), USER + 1))
    modifies p`tables, p`at, p`place, p`mem, p`home, k`freelist
    ensures Bare(p) && k.Valid() && k.Free() == old(p.Held(k))
  {
    hide Kmem.Valid, Kmem.Free, Apart, Union, Formed, Pruned, NoLeaves, Leaf, Owned, Dropped, Below, OnPage, Vpn;
    RoundedUp(sz);
    if sz > 0 {
      ghost var s := p.S();
      p.Uvmunmap(k, 0, (sz + PGSIZE - 1) / PGSIZE, true);
      DropAll(s, p.S(), Pages(sz));
    }
    NothingMapped(p.S());
    Rooted(p.T());
    Freewalk(p, k, p.root, Pos(2, 0));
    assert p.tables.Keys == {} && p.mem.Keys == {};
    FreeOnly(k.Free());
  }

  lemma RoundedUp(sz: nat)
    ensures sz <= TRAPFRAME ==> Pages(sz) <= USER && Pages(sz) * PGSIZE <= MAXVA
    ensures OnPage(0) && Vpn(0) == 0 && Pages(0) == 0
  {
  }

  /** The table tree of uvmcreate: one blank root. */
  ghost function Root(x: nat): Tree {
    Tree(x, map[x := Blank()], map[Pos(2, 0) := x], map[x := Pos(2, 0)])
  }

  lemma RootFormed(x: nat, trapframe: nat, trampoline: nat)
    ensures Formed(Root(x)) && (forall v: nat :: Leaf(Root(x), v) == 0)
    ensures Owned(Space(Root(x), map[], map[], trapframe, trampoline))
  {
    var t, s := Root(x), Space(Root(x), map[], map[], trapframe, trampoline);
    assert PosOk(t, Pos(2, 0));
    forall v: nat ensures LeafOk(s, v) {}
    forall i | 0 <= i < 512 ensures LinkOk(t, Pos(2, 0), i) {}
  }

  /** uvmcreate: a page for the root. */
  method Uvmcreate(p: Proc, k: Kmem) returns (ok: bool)
    requires Bare(p) && k.Valid()
    modifies p`root, p`tables, p`at, p`place, k`freelist
    ensures ok ==> p.Ready(k) && Owned(p.S()) && p.Held(k) == old(k.Free())
    ensures ok ==> p.T() == Root(p.root) && p.mem == map[]
    ensures !ok ==> Bare(p) && k.Valid() && k.Free() == old(k.Free()) && old(k.freelist) == []
    ensures |old(k.freelist)| <= |k.freelist| + 1
  {
    hide Kmem.Free, Kmem.Valid, Formed, Leaf, Owned, Blank, Apart, Union;
    var x;
    FreeApart(k);
    FreeOnly(k.Free());
    ok, x := k.Kalloc();
    if ok {
      TakeFree(old(k.Free()), {}, {}, x, k.first, k.limit);
      GiveTable(k.Free(), {}, {}, x, k.first, k.limit);
      RootFormed(x, p.trapframe, p.trampoline);
      p.root, p.tables, p.at, p.place := x, map[x := Blank()], map[Pos(2, 0) := x], map[x := Pos(2, 0)];
      assert p.tables.Keys == {} + {x} && p.mem.Keys == {};
    }
  }

  lemma FreeApart(k: Kmem)
    requires k.Valid()
    ensures Apart(k.Free(), {}, {}, k.first, k.limit)
  {
  }

  lemma FixedOwned(s: Space, t': Tree, v: nat, ppn: nat, perm: nat)
    requires Owned(s) && perm < 1024 && perm / 2 % 8 != 0 && !UserBit(perm) && LeafSet(s.t, t', v, Entry(ppn, perm))
    requires (v == USER && ppn == s.trapframe) || (v == USER + 1 && ppn == s.trampoline)
    ensures Owned(s.(t := t'))
  {
    hide Leaf, Entry;
    EntryRoundTrip(ppn, perm);
    EntryBits(ppn, perm);
    forall w: nat ensures LeafOk(s.(t := t'), w) { assert LeafOk(s, w); }
    forall y | y in s.mem ensures HomeOk(s.(t := t'), y) { assert HomeOk(s, y); }
  }

  lemma SameOwned(s: Space, t': Tree)
    requires Owned(s) && SameLeaves(s.t, t')
    ensures Owned(s.(t := t'))
  {
    hide Leaf;
    forall w: nat ensures LeafOk(s.(t := t'), w) { assert LeafOk(s, w); }
    forall y | y in s.mem ensures HomeOk(s.(t := t'), y) { assert HomeOk(s, y); }
  }

  /** Map the trampoline or the trapframe; the entry was empty, so "remap" does not arise. */
  method MapFixed(p: Proc, k: Kmem, va: nat, ppn: nat, perm: nat) returns (ok: bool)
    requires p.Ready(k) && Owned(p.S()) && perm < 1024 && perm / 2 % 8 != 0 && !UserBit(perm)
    requires !V(Leaf(p.T(), Vpn(va)))
    requires (va == TRAPFRAME && ppn == p.trapframe) || (va == TRAMPOLINE && ppn == p.trampoline)
    modifies p`tables, p`at, p`place, k`freelist
    ensures p.Ready(k) && p.Held(k) == old(p.Held(k)) && Owned(p.S())
    ensures ok ==> LeafSet(old(p.T()), p.T(), Vpn(va), Entry(ppn, perm))
    ensures !ok ==> SameLeaves(old(p.T()), p.T()) && |old(k.freelist)| <= 1
    ensures |old(k.freelist)| <= |k.freelist| + 2
  {
    hide Kmem.Free, Kmem.Valid, Formed, Leaf, Owned, Apart, Union, LeafSet, SameLeaves, Entry, RangeMapped;
    ghost var s := p.S();
    var r, done := p.Mappages(k, va, PGSIZE, ppn, perm);
    OneMapped(s.t, p.T(), Vpn(va), done, ppn, perm);
    if r != Mapped { SameOwned(s, p.T()); return false; }
    FixedOwned(s, p.T(), Vpn(va), ppn, perm);
    return true;
  }

  /** A page table with nothing but the trampoline and the trapframe. */
  ghost predicate OnlyFixed(s: Space) {
    && Below(s.t, 0) && s.mem == map[]
    && Leaf(s.t, USER) == Entry(s.trapframe, PTE_R + PTE_W) && Leaf(s.t, USER + 1) == Entry(s.trampoline, PTE_R + PTE_X)
  }

  /** proc_pagetable: success maps the two fixed pages and nothing else; failure gives every page back. */
  method ProcPagetable(p: Proc, k: Kmem) returns (ok: bool)
    requires Bare(p) && k.Valid()
    modifies p`root, p`tables, p`at, p`place, p`mem, p`home, k`freelist
    ensures ok ==> p.Ready(k) && Owned(p.S()) && p.Held(k) == old(k.Free()) && OnlyFixed(p.S())
    ensures !ok ==> Bare(p) && k.Valid() && k.Free() == old(k.Free()) && |old(k.freelist)| <= 4
    ensures ok ==> |old(k.freelist)| <= |k.freelist| + 5
  {
    hide Kmem.Free, Kmem.Valid, Formed, Leaf, Owned, Apart, Union, Entry, Root, Proc.Held;
    ok := Uvmcreate(p, k);
    if !ok { return; }
    RootFormed(p.root, p.trapframe, p.trampoline);
    RoundedUp(0);
    ok := MapFixed(p, k, TRAMPOLINE, p.trampoline, PTE_R + PTE_X);
    if !ok {
      Uvmfree(p, k, 0);
      return;
    }
    ok := MapFixed(p, k, TRAPFRAME, p.trapframe, PTE_R + PTE_W);
    if !ok {
      p.Uvmunmap(k, TRAMPOLINE, 1, false);
      Uvmfree(p, k, 0);
    }
  }

  /** proc_freepagetable: every page the address space held is free again. */
  method ProcFreepagetable(p: Proc, k: Kmem, sz: nat)
    requires p.Ready(k) && Owned(p.S()) && sz <= TRAPFRAME && Below(p.T(), Pages(sz))
    modifies p`tables, p`at, p`place, p`mem, p`home, k`freelist
    ensures Bare(p) && k.Valid() && k.Free() == old(p.Held(k))
  {
    hide Kmem.Free, Kmem.Valid, Formed, Leaf, Owned, Apart, Union, Kept, Proc.Held;
    p.Uvmunmap(k, TRAMPOLINE, 1, false);
    p.Uvmunmap(k, TRAPFRAME, 1, false);
    Uvmfree(p, k, sz);
  }
}
