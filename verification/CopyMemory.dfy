/** Moving bytes: kernel/vm.c's uvmcopy between address spaces, copyout and copyin across the kernel
    boundary. */
module CopyMemory {
  import opened Basics
  import opened Kalloc
  import opened PageTable
  import opened UserMemory
  import opened UserPages

  // ---- uvmcopy ----

  /** Page number w is mapped in both or in neither, and then with equal flags and equal contents. */
  ghost predicate SamePage(s: Space, s': Space, w: nat) {
    var e, e' := Leaf(s.t, w), Leaf(s'.t, w);
    && (V(e) <==> V(e'))
    && (V(e) ==> Flags(e') == Flags(e) && Ppn(e) in s.mem && Ppn(e') in s'.mem && s'.mem[Ppn(e')] == s.mem[Ppn(e)])
  }

  /** The first n pages are copied, and there are no user pages above them. */
  ghost predicate Copied(s: Space, s': Space, n: nat) {
    (forall w: nat {:trigger SamePage(s, s', w)} :: w < n ==> SamePage(s, s', w)) && Below(s'.t, n)
  }

  /** The entries of the trapframe and the trampoline are as they were. */
  ghost predicate FixedKept(t: Tree, t': Tree) {
    Leaf(t', USER) == Leaf(t, USER) && Leaf(t', USER + 1) == Leaf(t, USER + 1)
  }

  lemma CopySkip(s: Space, s': Space, n: nat)
    requires Copied(s, s', n) && !V(Leaf(s.t, n)) && n < USER
    ensures Copied(s, s', n + 1)
  {
    hide Leaf;
    forall w: nat | w < n + 1 ensures SamePage(s, s', w) { assert w < n ==> SamePage(s, s', w); }
  }

  lemma CopyNext(s: Space, s1: Space, s2: Space, n: nat, x: nat)
    requires Owned(s) && Owned(s1) && Copied(s, s1, n) && V(Leaf(s.t, n)) && n < USER
    requires Ppn(Leaf(s.t, n)) in s.mem && Flags(Leaf(s.t, n)) < 1024
    requires Added(s1, s2, n, x, s.mem[Ppn(Leaf(s.t, n))], Flags(Leaf(s.t, n)))
    ensures Copied(s, s2, n + 1) && FixedKept(s1.t, s2.t)
  {
    hide Leaf, Entry;
    var e := Leaf(s.t, n);
    EntryRoundTrip(x, Flags(e));
    FlagsValid(e);
    forall w: nat | w < n + 1 ensures SamePage(s, s2, w) {
      assert LeafOk(s1, w);
      assert w < n ==> SamePage(s, s1, w);
    }
  }

  lemma FlagsValid(e: nat)
    ensures V(e) ==> Flags(e) % 2 == 1
    ensures IsLeaf(e) ==> UserPerm(Flags(e))
  {
    assert e == 1024 * (e / 1024) + e % 1024;
    assert e / 2 == 512 * (e / 1024) + e % 1024 / 2;
  }

  lemma CopySame(s: Space, s1: Space, s2: Space, n: nat)
    requires Copied(s, s1, n) && SameUse(s1, s2)
    ensures Copied(s, s2, n) && FixedKept(s1.t, s2.t)
  {
    hide Leaf;
    forall w: nat | w < n ensures SamePage(s, s2, w) { assert SamePage(s, s1, w); }
  }

  /** The pages of one address space are outside those of another and of the allocator. */
  ghost predicate Outside(p: Proc, held: set<nat>, k: Kmem)
    reads p
  {
    p.tables.Keys !! held && p.mem.Keys !! held && p.tables.Keys !! p.mem.Keys
    && forall x :: x in p.tables.Keys + p.mem.Keys ==> k.first <= x < k.limit
  }

  lemma OutsideReady(p: Proc, np: Proc, k: Kmem)
    requires k.Valid() && Formed(p.T()) && Outside(p, np.Held(k), k)
    ensures p.Ready(k)
  {
    hide Formed, Kmem.Free, Kmem.Valid;
    FreeManaged(k);
    assert k.Free() <= np.Held(k);
    forall x | x in k.Free() + p.tables.Keys + p.mem.Keys ensures k.first <= x < k.limit {
      assert x in k.Free() || x in p.tables.Keys + p.mem.Keys;
    }
  }

  lemma FreeManaged(k: Kmem)
    requires k.Valid()
    ensures forall x :: x in k.Free() ==> k.first <= x < k.limit
  {
  }

  /** The loop body of uvmcopy. */
  method CopyPage(p: Proc, np: Proc, k: Kmem, va: nat) returns (ok: bool)
    requires p != np && p.Ready(k) && Owned(p.S()) && np.Ready(k) && Owned(np.S())
    requires OnPage(va) && va < TRAPFRAME && Vpn(va) < USER && Copied(p.S(), np.S(), Vpn(va))
    modifies p`tables, p`at, p`place, np`tables, np`at, np`place, np`mem, np`home, k`freelist
    ensures p.S() == old(p.S()) && np.Ready(k) && Owned(np.S()) && np.Held(k) == old(np.Held(k))
    ensures FixedKept(old(np.T()), np.T()) && Copied(p.S(), np.S(), if ok then Vpn(va) + 1 else Vpn(va))
    ensures (!ok ==> |old(k.freelist)| <= 2) && |old(k.freelist)| <= |k.freelist| + 3
  {
    hide Formed, Leaf, Owned, Apart, Union, OnPage, PX, Entry, Copied, Added, SameUse, Kmem.Free, Kmem.Valid, Vpn;
    ghost var v, s, s1 := Vpn(va), p.S(), np.S();
    var found, page := p.Walk(k, va, false);
    if found {
      PXDigits(va);
      LeafThere(p.T(), v);
      var pte := p.tables[page][PX(0, va)];
      if V(pte) {
        UserLeaf(s, v);
        NotCopied(s, s1, v);
        var x;
        ok, x := AddPage(np, k, va, p.mem[Ppn(pte)], Flags(pte));
        if ok { CopyNext(s, s1, np.S(), v, x); } else { CopySame(s, s1, np.S(), v); }
        return;
      }
    }
    CopySkip(s, s1, v);
    return true;
  }

  lemma NotCopied(s: Space, s': Space, n: nat)
    requires Copied(s, s', n) && n < USER
    ensures !V(Leaf(s'.t, n))
  {
    hide Leaf;
  }

  lemma UserLeaf(s: Space, v: nat)
    requires Owned(s) && V(Leaf(s.t, v)) && v < USER
    ensures Ppn(Leaf(s.t, v)) in s.mem && UserPerm(Flags(Leaf(s.t, v)))
  {
    assert LeafOk(s, v);
    FlagsValid(Leaf(s.t, v));
  }

  lemma CopyNone(s: Space, s': Space)
    requires Below(s'.t, 0)
    ensures Copied(s, s', 0) && FixedKept(s'.t, s'.t)
  {
  }

  lemma Uncopied(s: Space, s1: Space, s2: Space, n: nat)
    requires Owned(s1) && Owned(s2) && Copied(s, s1, n) && n <= USER && Dropped(s1, s2, 0, n)
    ensures Below(s2.t, 0) && s2.mem == map[] && FixedKept(s1.t, s2.t)
  {
    hide Leaf;
    assert forall x :: x in s2.mem ==> HomeOk(s2, x);
  }

  /** Copy the first sz bytes' pages of p into np: all of them, or none. */
  method Uvmcopy(p: Proc, np: Proc, k: Kmem, sz: nat) returns (ok: bool)
    requires p != np && Formed(p.T()) && Owned(p.S()) && np.Ready(k) && Owned(np.S()) && Outside(p, np.Held(k), k)
    requires sz <= TRAPFRAME && Below(np.T(), 0)
    modifies p`tables, p`at, p`place, np`tables, np`at, np`place, np`mem, np`home, k`freelist
    ensures p.S() == old(p.S()) && np.Ready(k) && Owned(np.S()) && np.Held(k) == old(np.Held(k))
    ensures FixedKept(old(np.T()), np.T())
    ensures ok ==> Copied(p.S(), np.S(), Pages(sz))
    ensures !ok ==> Below(np.T(), 0) && np.mem == map[] && |old(k.freelist)| < 3 * Pages(sz)
  {
    hide Formed, Leaf, Owned, OnPage, Vpn, Copied, Dropped, Below, Proc.Held, FixedKept;
    ghost var s, t := p.S(), np.T();
    CopyNone(s, np.S());
    RoundUp(sz);
    RoundUp(0);
    var i := 0;
    ghost var n := 0;
    while i < sz
      invariant i == n * PGSIZE && n <= Pages(sz) && p.S() == s
      invariant np.Ready(k) && Owned(np.S()) && np.Held(k) == old(np.Held(k))
      invariant Copied(s, np.S(), n) && FixedKept(t, np.T())
      invariant |old(k.freelist)| <= |k.freelist| + 3 * n
      decreases Pages(sz) - n
    {
      VpnOf(n);
      RoundUp(i);
      OutsideReady(p, np, k);
      ghost var before := np.T();
      ok := CopyPage(p, np, k, i);
      FixedTrans(t, before, np.T());
      if !ok {
        ghost var failed := np.S();
        np.Uvmunmap(k, 0, i / PGSIZE, true);
        Uncopied(s, failed, np.S(), n);
        FixedTrans(t, failed.t, np.T());
        return;
      }
      i, n := i + PGSIZE, n + 1;
    }
    return true;
  }

  lemma FixedTrans(t: Tree, t1: Tree, t2: Tree)
    requires FixedKept(t, t1) && FixedKept(t1, t2)
    ensures FixedKept(t, t2)
  {
  }

  // ---- copyout and copyin ----

  predicate WriteBit(e: nat) { e / PTE_W % 2 == 1 }

  /** Bytes a .. a + |b| - 1 now read as b, all others as before. */
  ghost predicate Wrote(s: Space, s': Space, a: nat, b: seq<Byte>) {
    forall c: nat :: ByteAt(s', c) == if a <= c < a + |b| then b[c - a] else ByteAt(s, c)
  }

  /** Entries only gain lazily allocated pages, below size sz. */
  ghost predicate OnlyFaulted(s: Space, s': Space, sz: nat) {
    && (forall v: nat :: V(Leaf(s.t, v)) || v >= Pages(sz) ==> Leaf(s'.t, v) == Leaf(s.t, v))
    && s'.trapframe == s.trapframe && s'.trampoline == s.trampoline
  }

  lemma FaultedTrans(s: Space, s1: Space, s2: Space, sz: nat)
    requires OnlyFaulted(s, s1, sz) && OnlyFaulted(s1, s2, sz)
    ensures OnlyFaulted(s, s2, sz)
  {
    hide Leaf;
  }

  lemma FaultedRefl(s: Space, sz: nat)
    ensures OnlyFaulted(s, s, sz) && Wrote(s, s, 0, []) && SameBytes(s, s)
  {
  }

  lemma FaultedBelow(s: Space, s': Space, sz: nat)
    requires OnlyFaulted(s, s', sz) && Below(s.t, Pages(sz))
    ensures Below(s'.t, Pages(sz))
  {
    hide Leaf;
  }

  /** Why a copy stops at address a: the page is out of range, not the user's, not writable (for a
      write), or could not be allocated. */
  ghost predicate Stuck(s: Space, a: nat, sz: nat, write: bool, free: nat) {
    var e := Leaf(s.t, Vpn(a));
    a >= MAXVA || (V(e) && (!UserBit(e) || (write && !WriteBit(e))))
    || (!V(e) && (a / PGSIZE * PGSIZE >= sz || free <= 1))
  }

  /** walkaddr: the page of a mapped user address. */
  method Walkaddr(p: Proc, k: Kmem, va: nat) returns (ok: bool, pa: nat)
    requires p.Ready(k)
    modifies p`tables, p`at, p`place, k`freelist
    ensures p.T() == old(p.T()) && k.freelist == old(k.freelist)
    ensures ok <==> va < MAXVA && var e := Leaf(p.T(), Vpn(va)); V(e) && UserBit(e)
    ensures ok ==> pa == Ppn(Leaf(p.T(), Vpn(va)))
  {
    hide Formed, Leaf, PX, UserBit;
    if va >= MAXVA { return false, 0; }
    var found, page := p.Walk(k, va, false);
    if !found { return false, 0; }
    PXDigits(va);
    LeafThere(p.T(), Vpn(va));
    var pte := p.tables[page][PX(0, va)];
    if !V(pte) || !UserBit(pte) { return false, 0; }
    return true, Ppn(pte);
  }

  /** The page of va for a copy: mapped already, or allocated on the spot. */
  method Resolve(p: Proc, k: Kmem, va: nat) returns (ok: bool, pa: nat)
    requires p.Ready(k) && Owned(p.S()) && p.sz <= TRAPFRAME && OnPage(va)
    modifies p`tables, p`at, p`place, p`mem, p`home, k`freelist
    ensures p.Ready(k) && Owned(p.S()) && p.Held(k) == old(p.Held(k)) && SameBytes(old(p.S()), p.S())
    ensures OnlyFaulted(old(p.S()), p.S(), p.sz)
    ensures ok ==> var e := Leaf(p.T(), Vpn(va)); va < MAXVA && V(e) && UserBit(e) && pa == Ppn(e)
    ensures !ok ==> Stuck(p.S(), va, p.sz, false, |k.freelist|)
  {
    hide Formed, Leaf, Owned, Proc.Held, Apart, Kmem.Valid, Kmem.Free, UserBit, SameBytes, OnlyFaulted, SameUse, Entry,
         LeafSet;
    ghost var s := p.S();
    FaultedRefl(s, p.sz);
    ok, pa := Walkaddr(p, k, va);
    if !ok {
      ok, pa := Vmfault(p, k, va);
      if ok { FaultedPage(s, p.S(), Vpn(va), pa, p.sz); } else { FaultedNot(s, p.S(), Vpn(va), p.sz); }
    }
  }

  lemma FaultedPage(s: Space, s': Space, v: nat, x: nat, sz: nat)
    requires v < Pages(sz) && Added(s, s', v, x, ZeroPage(), PTE_W + PTE_U + PTE_R)
    ensures OnlyFaulted(s, s', sz)
    ensures var e := Leaf(s'.t, v); V(e) && UserBit(e) && WriteBit(e) && Ppn(e) == x
  {
    hide Leaf, Entry, UserBit, WriteBit, ZeroPage;
    EntryRoundTrip(x, PTE_W + PTE_U + PTE_R);
    FaultBits(x);
  }

  lemma FaultBits(x: nat)
    ensures UserBit(Entry(x, PTE_W + PTE_U + PTE_R)) && WriteBit(Entry(x, PTE_W + PTE_U + PTE_R))
  {
    EntryBits(x, PTE_W + PTE_U + PTE_R);
  }

  lemma FaultedNot(s: Space, s': Space, v: nat, sz: nat)
    requires SameUse(s, s')
    ensures OnlyFaulted(s, s', sz) && Leaf(s'.t, v) == Leaf(s.t, v)
  {
    hide Leaf;
  }

  function Overwrite(page: Page, off: nat, b: seq<Byte>): Page
    requires off + |b| <= PGSIZE
  {
    page[..off] + b + page[off + |b|..]
  }

  /** memmove into a mapped page is a byte-range update, because no other entry maps that page. */
  lemma StoreWrote(s: Space, a: nat, b: seq<Byte>)
    requires Owned(s) && Vpn(a) < USER && V(Leaf(s.t, Vpn(a))) && a % PGSIZE + |b| <= PGSIZE
    ensures var x := Ppn(Leaf(s.t, Vpn(a)));
            && x in s.mem
            && (var s' := s.(mem := s.mem[x := Overwrite(s.mem[x], a % PGSIZE, b)]); Owned(s') && Wrote(s, s', a, b))
  {
    hide Leaf;
    assert LeafOk(s, Vpn(a));
    var x := Ppn(Leaf(s.t, Vpn(a)));
    var s' := s.(mem := s.mem[x := Overwrite(s.mem[x], a % PGSIZE, b)]);
    StoreOwned(s, s');
    forall c: nat ensures ByteAt(s', c) == if a <= c < a + |b| then b[c - a] else ByteAt(s, c) {
      assert LeafOk(s, Vpn(c));
      SamePageBytes(a, c, |b|);
    }
  }

  lemma StoreOwned(s: Space, s': Space)
    requires Owned(s) && s'.t == s.t && s'.home == s.home && s'.mem.Keys == s.mem.Keys
    requires s'.trapframe == s.trapframe && s'.trampoline == s.trampoline
    ensures Owned(s')
  {
    hide Leaf;
    forall w: nat ensures LeafOk(s', w) { assert LeafOk(s, w); }
    forall y | y in s'.mem ensures HomeOk(s', y) { assert HomeOk(s, y); }
  }

  lemma SamePageBytes(a: nat, c: nat, n: nat)
    requires a % PGSIZE + n <= PGSIZE
    ensures a <= c < a + n ==> Vpn(c) == Vpn(a) && c % PGSIZE == a % PGSIZE + (c - a)
    ensures Vpn(c) == Vpn(a) && !(a <= c < a + n) ==> c % PGSIZE < a % PGSIZE || c % PGSIZE >= a % PGSIZE + n
  {
  }

  lemma WroteTwice(s: Space, s1: Space, s2: Space, a: nat, b: seq<Byte>, b': seq<Byte>)
    requires Wrote(s, s1, a, b) && Wrote(s1, s2, a + |b|, b')
    ensures Wrote(s, s2, a, b + b')
  {
    hide ByteAt;
  }

  lemma SameThenWrote(s: Space, s1: Space, s2: Space, a: nat, b: seq<Byte>)
    requires SameBytes(s, s1) && Wrote(s1, s2, a, b)
    ensures Wrote(s, s2, a, b)
  {
    hide ByteAt;
  }

  lemma SameWrote(s: Space, s': Space, a: nat)
    requires SameBytes(s, s')
    ensures Wrote(s, s', a, [])
  {
    hide ByteAt;
  }

  lemma UserOnly(s: Space, va: nat)
    requires Owned(s) && var e := Leaf(s.t, Vpn(va)); V(e) && UserBit(e)
    ensures Vpn(va) < USER
  {
    hide Leaf;
    assert LeafOk(s, Vpn(va));
  }

  lemma StoredFaulted(s: Space, s1: Space, s2: Space, sz: nat)
    requires OnlyFaulted(s, s1, sz) && s2.t == s1.t && s2.trapframe == s1.trapframe && s2.trampoline == s1.trampoline
    ensures OnlyFaulted(s, s2, sz)
  {
  }

  lemma PageEnd(a: nat)
    ensures OnPage(a / PGSIZE * PGSIZE + PGSIZE) && a - a / PGSIZE * PGSIZE == a % PGSIZE
  {
  }

  /** The loop body of copyout: up to the end of the page of dst, or nothing. */
  method CopyoutPage(p: Proc, k: Kmem, dst: nat, src: seq<Byte>) returns (ok: bool, n: nat)
    requires p.Ready(k) && Owned(p.S()) && p.sz <= TRAPFRAME && src != []
    modifies p`tables, p`at, p`place, p`mem, p`home, k`freelist
    ensures p.Ready(k) && Owned(p.S()) && p.Held(k) == old(p.Held(k)) && OnlyFaulted(old(p.S()), p.S(), p.sz)
    ensures n <= |src| && Wrote(old(p.S()), p.S(), dst, src[..n])
    ensures ok ==> n > 0 && (n < |src| ==> OnPage(dst + n))
    ensures !ok ==> n == 0 && Stuck(p.S(), dst / PGSIZE * PGSIZE, p.sz, true, |k.freelist|)
  {
    hide Formed, Leaf, Owned, Apart, Union, Kmem.Valid, Kmem.Free, UserBit, WriteBit, SameBytes, OnlyFaulted, Wrote,
         Overwrite, PX, OnPage;
    ghost var s := p.S();
    FaultedRefl(s, p.sz);
    RoundDown(dst);
    var va0 := dst / PGSIZE * PGSIZE;
    SameWrote(s, s, dst);
    assert src[..0] == [];
    if va0 >= MAXVA { return false, 0; }
    var pa0;
    ok, pa0 := Resolve(p, k, va0);
    SameWrote(s, p.S(), dst);
    if !ok { return false, 0; }
    ghost var s1 := p.S();
    var found, page := p.Walk(k, va0, false);
    PXDigits(va0);
    LeafThere(p.T(), Vpn(va0));
    if !WriteBit(p.tables[page][PX(0, va0)]) { return false, 0; }
    n := PGSIZE - (dst - va0);
    if n > |src| { n := |src|; }
    UserOnly(s1, va0);
    StoreWrote(s1, dst, src[..n]);
    p.mem := p.mem[pa0 := Overwrite(p.mem[pa0], dst - va0, src[..n])];
    assert p.mem.Keys == s1.mem.Keys;
    SameThenWrote(s, s1, p.S(), dst, src[..n]);
    StoredFaulted(s, s1, p.S(), p.sz);
    PageEnd(dst);
  }

  /** Copy src to user address dst. The first `done` bytes are written, all of them on success; a
      failure names the page that stopped it. */
  method Copyout(p: Proc, k: Kmem, dst: nat, src: seq<Byte>) returns (ok: bool, ghost done: nat)
    requires p.Ready(k) && Owned(p.S()) && p.sz <= TRAPFRAME && Below(p.T(), Pages(p.sz))
    modifies p`tables, p`at, p`place, p`mem, p`home, k`freelist
    ensures p.Ready(k) && Owned(p.S()) && p.Held(k) == old(p.Held(k)) && Below(p.T(), Pages(p.sz))
    ensures OnlyFaulted(old(p.S()), p.S(), p.sz)
    ensures done <= |src| && Wrote(old(p.S()), p.S(), dst, src[..done]) && (ok <==> done == |src|)
    ensures !ok ==> Stuck(p.S(), (dst + done) / PGSIZE * PGSIZE, p.sz, true, |k.freelist|)
  {
    hide Proc.Ready, Owned, Proc.Held, Below, OnlyFaulted, Wrote, Stuck, SameBytes, OnPage;
    ghost var s := p.S();
    FaultedRefl(s, p.sz);
    SameWrote(s, s, dst);
    var a, rest := dst, src;
    done := 0;
    assert src[..0] == [];
    while rest != []
      invariant done <= |src| && a == dst + done && rest == src[done..]
      invariant p.Ready(k) && Owned(p.S()) && p.Held(k) == old(p.Held(k))
      invariant OnlyFaulted(s, p.S(), p.sz) && Wrote(s, p.S(), dst, src[..done])
      decreases |rest|
    {
      ghost var before := p.S();
      var n;
      ok, n := CopyoutPage(p, k, a, rest);
      FaultedTrans(s, before, p.S(), p.sz);
      WroteTwice(s, before, p.S(), dst, src[..done], rest[..n]);
      assert src[..done] + rest[..n] == src[..done + n];
      done := done + n;
      if !ok {
        FaultedBelow(s, p.S(), p.sz);
        return;
      }
      a, rest := a + n, rest[n..];
    }
    FaultedBelow(s, p.S(), p.sz);
    assert src[..done] == src;
    return true, done;
  }

  /** The bytes from address a on. */
  ghost predicate Reads(s: Space, a: nat, b: seq<Byte>) {
    forall i :: 0 <= i < |b| ==> b[i] == ByteAt(s, a + i)
  }

  lemma PageReads(s: Space, a: nat, n: nat)
    requires Owned(s) && Vpn(a) < USER && V(Leaf(s.t, Vpn(a))) && a % PGSIZE + n <= PGSIZE
    ensures var x := Ppn(Leaf(s.t, Vpn(a)));
            x in s.mem && Reads(s, a, s.mem[x][a % PGSIZE..a % PGSIZE + n])
  {
    hide Leaf;
    assert LeafOk(s, Vpn(a));
    var b := s.mem[Ppn(Leaf(s.t, Vpn(a)))][a % PGSIZE..a % PGSIZE + n];
    forall i | 0 <= i < |b| ensures b[i] == ByteAt(s, a + i) { SamePageBytes(a, a + i, n); }
  }

  lemma ReadsMore(s: Space, s1: Space, s2: Space, a: nat, b: seq<Byte>, b': seq<Byte>)
    requires Reads(s, a, b) && SameBytes(s, s1) && SameBytes(s1, s2) && Reads(s2, a + |b|, b')
    ensures Reads(s, a, b + b') && SameBytes(s, s2)
  {
    hide ByteAt;
    forall i | 0 <= i < |b + b'| ensures (b + b')[i] == ByteAt(s, a + i) {
      var c := a + i;
      if i >= |b| { assert c == (a + |b|) + (i - |b|); }
      assert ByteAt(s2, c) == ByteAt(s1, c) == ByteAt(s, c);
    }
  }

  /** The loop body of copyin. */
  method CopyinPage(p: Proc, k: Kmem, src: nat, len: nat) returns (ok: bool, b: seq<Byte>)
    requires p.Ready(k) && Owned(p.S()) && p.sz <= TRAPFRAME && len > 0
    modifies p`tables, p`at, p`place, p`mem, p`home, k`freelist
    ensures p.Ready(k) && Owned(p.S()) && p.Held(k) == old(p.Held(k)) && OnlyFaulted(old(p.S()), p.S(), p.sz)
    ensures SameBytes(old(p.S()), p.S()) && |b| <= len && Reads(p.S(), src, b)
    ensures ok ==> |b| > 0
    ensures !ok ==> b == [] && Stuck(p.S(), src / PGSIZE * PGSIZE, p.sz, false, |k.freelist|)
  {
    hide Formed, Leaf, Owned, Proc.Ready, Proc.Held, UserBit, SameBytes, OnlyFaulted, OnPage, ByteAt;
    RoundDown(src);
    PageEnd(src);
    var va0 := src / PGSIZE * PGSIZE;
    var pa0;
    ok, pa0 := Resolve(p, k, va0);
    if !ok { return false, []; }
    var n := PGSIZE - (src - va0);
    if n > len { n := len; }
    UserOnly(p.S(), va0);
    PageReads(p.S(), src, n);
    b := p.mem[pa0][src - va0..src - va0 + n];
  }

  /** Copy len bytes from user address src: exactly the bytes that are there, and memory is unchanged. */
  method Copyin(p: Proc, k: Kmem, src: nat, len: nat) returns (ok: bool, b: seq<Byte>)
    requires p.Ready(k) && Owned(p.S()) && p.sz <= TRAPFRAME && Below(p.T(), Pages(p.sz))
    modifies p`tables, p`at, p`place, p`mem, p`home, k`freelist
    ensures p.Ready(k) && Owned(p.S()) && p.Held(k) == old(p.Held(k)) && Below(p.T(), Pages(p.sz))
    ensures OnlyFaulted(old(p.S()), p.S(), p.sz) && SameBytes(old(p.S()), p.S())
    ensures |b| <= len && Reads(old(p.S()), src, b) && (ok <==> |b| == len)
    ensures !ok ==> Stuck(p.S(), (src + |b|) / PGSIZE * PGSIZE, p.sz, false, |k.freelist|)
  {
    hide Proc.Ready, Owned, Proc.Held, Below, OnlyFaulted, Stuck, SameBytes, OnPage, ByteAt;
    ghost var s := p.S();
    FaultedRefl(s, p.sz);
    b := [];
    while |b| < len
      invariant |b| <= len && Reads(s, src, b) && SameBytes(s, p.S()) && OnlyFaulted(s, p.S(), p.sz)
      invariant p.Ready(k) && Owned(p.S()) && p.Held(k) == old(p.Held(k))
      decreases len - |b|
    {
      ghost var before := p.S();
      var more;
      ok, more := CopyinPage(p, k, src + |b|, len - |b|);
      FaultedTrans(s, before, p.S(), p.sz);
      ReadsMore(s, before, p.S(), src, b, more);
      b := b + more;
      if !ok {
        FaultedBelow(s, p.S(), p.sz);
        return;
      }
    }
    FaultedBelow(s, p.S(), p.sz);
    return true, b;
  }

  /** A copyin after a copyout of the same range brings back what was written. */
  lemma ReadBack(s: Space, s': Space, a: nat, b: seq<Byte>)
    requires Wrote(s, s', a, b)
    ensures Reads(s', a, b) && forall c: seq<Byte> :: |c| == |b| && Reads(s', a, c) ==> c == b
  {
    hide ByteAt;
    forall i | 0 <= i < |b| ensures b[i] == ByteAt(s', a + i) { var c := a + i; }
  }
}
