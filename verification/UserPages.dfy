/** Growing and shrinking user memory: kernel/vm.c's uvmalloc, uvmdealloc and vmfault. */
module UserPages {
  import opened Kalloc
  import opened PageTable
  import opened UserMemory

  function ZeroPage(): Page { seq(PGSIZE, _ => 0) }

  /** Entry permission bits as the callers form them: some of R, W, X, the U bit, and perhaps V. */
  predicate UserPerm(perm: nat) { perm < 1024 && perm / 2 % 8 != 0 }

  /** Page x, with the given contents, now backs page number v, which had none. */
  ghost predicate Added(s: Space, s': Space, v: nat, x: nat, page: Page, perm: nat)
    requires perm < 1024
  {
    && !V(Leaf(s.t, v)) && x !in s.mem && LeafSet(s.t, s'.t, v, Entry(x, perm))
    && s'.mem == s.mem[x := page] && s'.home == s.home[x := v]
    && s'.trapframe == s.trapframe && s'.trampoline == s.trampoline
  }

  /** Same translations and same pages; the tree may have gained empty tables. */
  ghost predicate SameUse(s: Space, s': Space) {
    && SameLeaves(s.t, s'.t) && s'.mem == s.mem && s'.home == s.home
    && s'.trapframe == s.trapframe && s'.trampoline == s.trampoline
  }

  lemma SameUseOwned(s: Space, s': Space)
    requires Owned(s) && SameUse(s, s')
    ensures Owned(s')
  {
    hide Leaf;
    forall w: nat ensures LeafOk(s', w) { assert LeafOk(s, w); }
    forall y | y in s'.mem ensures HomeOk(s', y) { assert HomeOk(s, y); }
  }

  /** kalloc, fill the page, mappages; on failure kfree. The "remap" outcome does not arise. */
  method AddPage(p: Proc, k: Kmem, va: nat, page: Page, perm: nat) returns (ok: bool, x: nat)
    requires p.Ready(k) && Owned(p.S()) && OnPage(va) && va < TRAPFRAME && Vpn(va) < USER && UserPerm(perm)
    requires !V(Leaf(p.T(), Vpn(va)))
    modifies p`tables, p`at, p`place, p`mem, p`home, k`freelist
    ensures p.Ready(k) && p.Held(k) == old(p.Held(k)) && Owned(p.S())
    ensures ok ==> Added(old(p.S()), p.S(), Vpn(va), x, page, perm)
    ensures !ok ==> SameUse(old(p.S()), p.S()) && |k.freelist| <= 1 && |old(k.freelist)| <= 2
    ensures |old(k.freelist)| <= |k.freelist| + 3
  {
    hide Formed, Leaf, Owned, Kmem.Valid, Kmem.Free, Entry, LeafSet, SameLeaves, OnPage, Apart, Union, RangeMapped;
    ghost var s := p.S();
    ok, x := k.Kalloc();
    if !ok { SameUseRefl(s); return; }
    ghost var done;
    var r;
    TakeFree(old(k.Free()), p.tables.Keys, p.mem.Keys, x, k.first, k.limit);
    OnePage();
    r, done := p.Mappages(k, va, PGSIZE, x, perm);
    OneMapped(s.t, p.T(), Vpn(va), done, x, perm);
    if r != Mapped {
      GiveFree(k.Free(), p.tables.Keys, p.mem.Keys, x, k.first, k.limit);
      k.Kfree(x);
      SameUseOwned(s, p.S());
      return false, 0;
    }
    GiveUser(k.Free(), p.tables.Keys, p.mem.Keys, x, k.first, k.limit);
    p.mem, p.home := p.mem[x := page], p.home[x := Vpn(va)];
    assert p.mem.Keys == s.mem.Keys + {x};
    MapOwned(s, p.T(), Vpn(va), x, page, perm);
  }

  lemma OnePage()
    ensures OnPage(PGSIZE) && Vpn(PGSIZE) == 1
  {
  }

  lemma SameUseRefl(s: Space)
    ensures SameUse(s, s)
  {
  }

  /** Pages v .. v + n - 1 are new and zero, with the given permissions; nothing else changed. */
  ghost predicate Extended(s: Space, s': Space, v: nat, n: nat, perm: nat)
    requires perm < 1024
  {
    && (forall w: nat :: !(v <= w < v + n) ==> Leaf(s'.t, w) == Leaf(s.t, w))
    && (forall w: nat :: v <= w < v + n ==> NewPage(s, s', w, perm))
    && (forall x :: x in s.mem ==>
          x in s'.mem && s'.mem[x] == s.mem[x] && x in s.home && x in s'.home && s'.home[x] == s.home[x])
    && s'.trapframe == s.trapframe && s'.trampoline == s.trampoline
  }

  ghost predicate NewPage(s: Space, s': Space, w: nat, perm: nat)
    requires perm < 1024
  {
    var e := Leaf(s'.t, w);
    !V(Leaf(s.t, w)) && Ppn(e) in s'.mem && e == Entry(Ppn(e), perm) && s'.mem[Ppn(e)] == ZeroPage()
  }

  lemma ExtendNone(s: Space, v: nat, perm: nat)
    requires perm < 1024 && Owned(s)
    ensures Extended(s, s, v, 0, perm)
  {
    hide Leaf;
  }

  lemma ExtendNext(s: Space, s1: Space, s2: Space, v: nat, n: nat, x: nat, perm: nat)
    requires perm < 1024 && Extended(s, s1, v, n, perm) && Added(s1, s2, v + n, x, ZeroPage(), perm)
    ensures Extended(s, s2, v, n + 1, perm)
  {
    hide Leaf, Entry, ZeroPage;
    EntryRoundTrip(x, perm);
    forall w: nat | v <= w < v + n + 1 ensures NewPage(s, s2, w, perm) {
      if w < v + n { assert NewPage(s, s1, w, perm); }
    }
  }

  lemma ExtendSame(s: Space, s1: Space, s2: Space, v: nat, n: nat, perm: nat)
    requires perm < 1024 && Extended(s, s1, v, n, perm) && SameUse(s1, s2)
    ensures Extended(s, s2, v, n, perm)
  {
    hide Leaf, Entry, ZeroPage;
    forall w: nat | v <= w < v + n ensures NewPage(s, s2, w, perm) { assert NewPage(s, s1, w, perm); }
  }

  /** Unmapping what was added gives back the address space that was there before. */
  lemma RolledBack(s: Space, s1: Space, s2: Space, v: nat, n: nat, perm: nat)
    requires perm < 1024 && Owned(s) && Owned(s1) && v + n <= USER
    requires Extended(s, s1, v, n, perm) && Dropped(s1, s2, v, n)
    ensures SameUse(s, s2)
  {
    hide Leaf, Entry, ZeroPage;
    forall w: nat ensures Leaf(s2.t, w) == Leaf(s.t, w) {
      assert LeafOk(s, w) && LeafOk(s1, w);
      if v <= w < v + n { assert NewPage(s, s1, w, perm); }
    }
    forall x ensures x in s.mem <==> x in s2.mem {
      if x in s.mem {
        assert HomeOk(s, x);
        assert v <= s.home[x] < v + n ==> NewPage(s, s1, s.home[x], perm);
      }
      if x in s2.mem { assert HomeOk(s1, x) && LeafOk(s, s1.home[x]); }
    }
    assert s2.mem == s.mem;
    assert s2.home.Keys == s2.mem.Keys;
    assert s2.home == s.home;
  }

  /** Bring the size from oldsz down to newsz. */
  method Uvmdealloc(p: Proc, k: Kmem, oldsz: nat, newsz: nat) returns (r: nat)
    requires p.Ready(k) && Owned(p.S()) && oldsz <= TRAPFRAME
    modifies p`tables, p`at, p`place, p`mem, p`home, k`freelist
    ensures p.Ready(k) && p.Held(k) == old(p.Held(k)) && Owned(p.S())
    ensures r == if newsz < oldsz then newsz else oldsz
    ensures Pages(r) <= Pages(oldsz) && Dropped(old(p.S()), p.S(), Pages(r), Pages(oldsz) - Pages(r))
  {
    hide Formed, Leaf, Owned, Dropped, Proc.Ready, Proc.Held, OnPage;
    DropNone(p.S(), Pages(oldsz));
    if newsz >= oldsz { return oldsz; }
    RoundUp(newsz);
    RoundUp(oldsz);
    if PgRoundUp(newsz) < PgRoundUp(oldsz) {
      var npages := (PgRoundUp(oldsz) - PgRoundUp(newsz)) / PGSIZE;
      p.Uvmunmap(k, PgRoundUp(newsz), npages, true);
    }
    return newsz;
  }

  lemma RoundUp(a: nat)
    ensures OnPage(PgRoundUp(a)) && PgRoundUp(a) == Pages(a) * PGSIZE && Vpn(PgRoundUp(a)) == Pages(a)
    ensures a <= TRAPFRAME ==> Pages(a) <= USER
    ensures a <= PgRoundUp(a) < a + PGSIZE
  {
  }

  /** Grow from oldsz to newsz with zeroed pages, or undo everything and return 0. */
  method Uvmalloc(p: Proc, k: Kmem, oldsz: nat, newsz: nat, xperm: nat) returns (r: nat)
    requires p.Ready(k) && Owned(p.S()) && newsz <= TRAPFRAME
    requires xperm in {0, PTE_W, PTE_X, PTE_W + PTE_X}
    requires Below(p.T(), Pages(oldsz))
    modifies p`tables, p`at, p`place, p`mem, p`home, k`freelist
    ensures p.Ready(k) && p.Held(k) == old(p.Held(k)) && Owned(p.S())
    ensures newsz < oldsz ==> r == oldsz && p.S() == old(p.S())
    ensures newsz >= oldsz && r != 0 ==> r == newsz && Pages(oldsz) <= Pages(newsz)
    ensures newsz >= oldsz && r != 0 ==>
              Extended(old(p.S()), p.S(), Pages(oldsz), Pages(newsz) - Pages(oldsz), PTE_R + PTE_U + xperm)
    ensures newsz >= oldsz && r == 0 ==> SameUse(old(p.S()), p.S())
    ensures newsz > 0 && r == 0 ==> |old(k.freelist)| < 3 * (Pages(newsz) - Pages(oldsz))
  {
    hide Formed, Leaf, Owned, Dropped, Proc.Ready, Proc.Held, OnPage, Extended, Added, SameUse, Below;
    if newsz < oldsz { return oldsz; }
    var perm := PTE_R + PTE_U + xperm;
    RoundUp(oldsz);
    RoundUp(newsz);
    ghost var v, n := Pages(oldsz), 0;
    ghost var s := p.S();
    var a := PgRoundUp(oldsz);
    ExtendNone(s, v, perm);
    while a < newsz
      invariant p.Ready(k) && p.Held(k) == old(p.Held(k)) && Owned(p.S())
      invariant a == (v + n) * PGSIZE && v + n <= Pages(newsz) && Extended(s, p.S(), v, n, perm)
      invariant n == 0 ==> p.S() == s
      invariant |old(k.freelist)| <= |k.freelist| + 3 * n
      decreases Pages(newsz) - n
    {
      VpnOf(v + n);
      RoundUp(a);
      NotYet(s, p.S(), v, n, perm);
      ghost var before := p.S();
      var ok, x := AddPage(p, k, a, ZeroPage(), perm);
      if !ok {
        ExtendSame(s, before, p.S(), v, n, perm);
        ghost var failed := p.S();
        var undone := Uvmdealloc(p, k, a, PgRoundUp(oldsz));
        RolledBack(s, failed, p.S(), v, n, perm);
        return 0;
      }
      ExtendNext(s, before, p.S(), v, n, x, perm);
      a, n := a + PGSIZE, n + 1;
    }
    SameUseRefl(s);
    return newsz;
  }

  lemma NotYet(s: Space, s': Space, v: nat, n: nat, perm: nat)
    requires perm < 1024 && Below(s.t, v) && Extended(s, s', v, n, perm) && v + n < USER
    ensures !V(Leaf(s'.t, v + n))
  {
    hide Leaf;
  }

  /** Every byte reads the same in both. */
  ghost predicate SameBytes(s: Space, s': Space) {
    forall a: nat :: ByteAt(s', a) == ByteAt(s, a)
  }

  /** Backing an untouched page with a zeroed one is invisible. */
  lemma ZeroPageUnseen(s: Space, s': Space, v: nat, x: nat, perm: nat)
    requires perm < 1024 && Owned(s) && Added(s, s', v, x, ZeroPage(), perm) && v < USER
    ensures SameBytes(s, s')
  {
    hide Leaf;
    EntryRoundTrip(x, perm);
    forall a: nat ensures ByteAt(s', a) == ByteAt(s, a) {
      assert LeafOk(s, a / PGSIZE);
    }
  }

  /** Allocate the page of va on a fault: nothing if va is out of range or already mapped. The page is
      the process's own page table's, as both callers pass it. */
  method Vmfault(p: Proc, k: Kmem, va: nat) returns (ok: bool, pa: nat)
    requires p.Ready(k) && Owned(p.S()) && p.sz <= TRAPFRAME
    modifies p`tables, p`at, p`place, p`mem, p`home, k`freelist
    ensures p.Ready(k) && p.Held(k) == old(p.Held(k)) && Owned(p.S()) && SameBytes(old(p.S()), p.S())
    ensures ok ==> va < p.sz && Added(old(p.S()), p.S(), Vpn(va), pa, ZeroPage(), PTE_W + PTE_U + PTE_R)
    ensures !ok ==> SameUse(old(p.S()), p.S()) && (va >= p.sz || V(old(Leaf(p.T(), Vpn(va)))) || |k.freelist| <= 1)
  {
    hide Formed, Leaf, Owned, Proc.Ready, Proc.Held, OnPage, SameUse, Added, SameBytes, Vpn;
    SameUseRefl(p.S());
    SameUseBytes(p.S(), p.S());
    if va >= p.sz { return false, 0; }
    RoundDown(va);
    var a := va / PGSIZE * PGSIZE;
    var there := IsMapped(p, k, a);
    if there { return false, 0; }
    ghost var s := p.S();
    ok, pa := AddPage(p, k, a, ZeroPage(), PTE_W + PTE_U + PTE_R);
    if ok { ZeroPageUnseen(s, p.S(), Vpn(va), pa, PTE_W + PTE_U + PTE_R); } else { SameUseBytes(s, p.S()); }
  }

  lemma RoundDown(va: nat)
    ensures var a := va / PGSIZE * PGSIZE; OnPage(a) && Vpn(a) == Vpn(va) && a <= va < a + PGSIZE
    ensures va < TRAPFRAME ==> Vpn(va) < USER
  {
  }

  lemma SameUseBytes(s: Space, s': Space)
    requires SameUse(s, s')
    ensures SameBytes(s, s')
  {
    hide Leaf;
  }

  method IsMapped(p: Proc, k: Kmem, va: nat) returns (there: bool)
    requires p.Ready(k) && va < MAXVA
    modifies p`tables, p`at, p`place, k`freelist
    ensures p.T() == old(p.T()) && k.freelist == old(k.freelist)
    ensures there == V(Leaf(p.T(), Vpn(va)))
  {
    hide Formed, Leaf, PX;
    var ok, page := p.Walk(k, va, false);
    if !ok { return false; }
    PXDigits(va);
    LeafThere(p.T(), Vpn(va));
    return V(p.tables[page][PX(0, va)]);
  }
}
