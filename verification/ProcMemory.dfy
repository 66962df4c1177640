/** Process memory over whole runs: kernel/proc.c's growproc, freeproc and the memory side of kfork,
    kernel/sysproc.c's sys_sbrk, and every sequence of them over one page allocator. */
module ProcMemory {
  import opened Kalloc
  import opened PageTable
  import opened UserMemory
  import opened UserPages
  import opened CopyMemory
  import opened Teardown

  /** A process in use: its page table is well formed, maps its own pages, and no user page lies at or
      above its size. */
  ghost predicate Sized(p: Proc)
    reads p
  {
    && Formed(p.T()) && Owned(p.S()) && p.sz <= TRAPFRAME && Below(p.T(), Pages(p.sz))
    && p.tables.Keys !! p.mem.Keys && p.trapframe !in p.tables && p.trapframe !in p.mem && p.trapframe != 0
  }

  lemma ExtendedBelow(s: Space, s': Space, v: nat, n: nat, perm: nat)
    requires perm < 1024 && Below(s.t, v) && Extended(s, s', v, n, perm)
    ensures Below(s'.t, v + n)
  {
    hide Leaf;
  }

  /** Growing is invisible: the new pages read as the zeros that unallocated ones read as. */
  lemma ExtendedUnseen(s: Space, s': Space, v: nat, n: nat, perm: nat)
    requires perm < 1024 && Owned(s) && Extended(s, s', v, n, perm)
    ensures SameBytes(s, s')
  {
    hide Leaf, Entry;
    forall a: nat ensures ByteAt(s', a) == ByteAt(s, a) {
      assert LeafOk(s, Vpn(a));
      if v <= Vpn(a) < v + n { assert NewPage(s, s', Vpn(a), perm); }
    }
  }

  lemma DroppedBelow(s: Space, s': Space, v: nat, n: nat)
    requires Below(s.t, v + n) && Dropped(s, s', v, n)
    ensures Below(s'.t, v)
  {
    hide Leaf;
  }

  /** Shrinking keeps every byte below the pages given up; those read as zero from then on. */
  lemma DroppedBytes(s: Space, s': Space, v: nat, n: nat, a: nat)
    requires Owned(s) && Below(s.t, v + n) && Dropped(s, s', v, n)
    ensures ByteAt(s', a) == if Vpn(a) < v then ByteAt(s, a) else 0
  {
    hide Leaf;
    assert LeafOk(s, Vpn(a));
  }

  ghost predicate SameSpace(p: Proc, s: Space, sz: nat)
    reads p
  {
    SameUse(s, p.S()) && p.sz == sz
  }

  /** sz + n in uint64 arithmetic. */
  function Plus64(sz: nat, n: int): nat
    requires -0x8000_0000 <= n < 0x8000_0000 && sz <= TRAPFRAME
  {
    if sz + n < 0 then sz + n + 0x1_0000_0000_0000_0000 else sz + n
  }

  /** Why growing by n bytes fails: the address space ends, or the free pages may not suffice for the new pages
      and their tables. */
  predicate NoRoom(sz: nat, n: int, free: nat) {
    sz + n > TRAPFRAME || (n > 0 && free < 3 * (Pages(sz + n) - Pages(sz)))
  }

  /** Grow or shrink by n bytes. A shrink below zero wraps and changes nothing. */
  method Growproc(p: Proc, k: Kmem, n: int) returns (ok: bool)
    requires p.Ready(k) && Sized(p) && -0x8000_0000 <= n < 0x8000_0000
    modifies p`tables, p`at, p`place, p`mem, p`home, p`sz, k`freelist
    ensures p.Ready(k) && p.Held(k) == old(p.Held(k)) && Owned(p.S()) && p.sz <= TRAPFRAME && Below(p.T(), Pages(p.sz))
    ensures !ok ==> n > 0 && SameSpace(p, old(p.S()), old(p.sz)) && NoRoom(old(p.sz), n, |old(k.freelist)|)
    ensures ok && n >= 0 ==> p.sz == old(p.sz) + n && SameBytes(old(p.S()), p.S())
    ensures ok && n > 0 ==>
              && Pages(old(p.sz)) <= Pages(p.sz)
              && Extended(old(p.S()), p.S(), Pages(old(p.sz)), Pages(p.sz) - Pages(old(p.sz)), PTE_R + PTE_U + PTE_W)
    ensures n < 0 ==> p.sz == if old(p.sz) + n < 0 then old(p.sz) else old(p.sz) + n
    ensures n < 0 ==>
              Pages(p.sz) <= old(Pages(p.sz)) && Dropped(old(p.S()), p.S(), Pages(p.sz), old(Pages(p.sz)) - Pages(p.sz))
  {
    hide Formed, Leaf, Owned, Proc.Ready, Proc.Held, Below, Extended, Dropped, SameUse, SameBytes;
    ghost var s := p.S();
    SameUseRefl(s);
    SameUseBytes(s, s);
    if n > 0 {
      if p.sz + n > TRAPFRAME { return false; }
      var r := Uvmalloc(p, k, p.sz, p.sz + n, PTE_W);
      if r == 0 { SameUseBelow(s, p.S(), Pages(p.sz)); return false; }
      ExtendedBelow(s, p.S(), Pages(p.sz), Pages(p.sz + n) - Pages(p.sz), PTE_R + PTE_U + PTE_W);
      ExtendedUnseen(s, p.S(), Pages(p.sz), Pages(p.sz + n) - Pages(p.sz), PTE_R + PTE_U + PTE_W);
      p.sz := r;
    } else if n < 0 {
      var r := Uvmdealloc(p, k, p.sz, Plus64(p.sz, n));
      DroppedBelow(s, p.S(), Pages(r), Pages(p.sz) - Pages(r));
      p.sz := r;
    }
    return true;
  }

  lemma SameUseBelow(s: Space, s': Space, n: nat)
    requires SameUse(s, s') && Below(s.t, n)
    ensures Below(s'.t, n)
  {
    hide Leaf;
  }

  lemma BelowMore(t: Tree, n: nat, m: nat)
    requires Below(t, n) && n <= m
    ensures Below(t, m)
  {
    hide Leaf;
  }

  /** sys_sbrk: the old size, or nothing changed. Growing eagerly and growing lazily leave the same
      bytes behind. */
  method Sbrk(p: Proc, k: Kmem, n: int, eager: bool) returns (ok: bool, addr: nat)
    requires p.Ready(k) && Sized(p) && -0x8000_0000 <= n < 0x8000_0000
    modifies p`tables, p`at, p`place, p`mem, p`home, p`sz, k`freelist
    ensures p.Ready(k) && p.Held(k) == old(p.Held(k)) && Owned(p.S()) && p.sz <= TRAPFRAME && Below(p.T(), Pages(p.sz))
    ensures addr == old(p.sz)
    ensures !ok ==> n > 0 && SameSpace(p, old(p.S()), addr) && NoRoom(addr, n, |old(k.freelist)|)
    ensures !eager && n >= 0 ==> (ok <==> addr + n <= TRAPFRAME)
    ensures ok && n >= 0 ==> p.sz == addr + n && SameBytes(old(p.S()), p.S())
    ensures ok && n > 0 && eager ==>
              && Pages(addr) <= Pages(p.sz)
              && Extended(old(p.S()), p.S(), Pages(addr), Pages(p.sz) - Pages(addr), PTE_R + PTE_U + PTE_W)
    ensures ok && n >= 0 && !eager ==> p.S() == old(p.S())
    ensures n < 0 ==> p.sz == if addr + n < 0 then addr else addr + n
    ensures n < 0 ==> Pages(p.sz) <= Pages(addr) && Dropped(old(p.S()), p.S(), Pages(p.sz), Pages(addr) - Pages(p.sz))
  {
    hide Formed, Leaf, Owned, Proc.Ready, Proc.Held, Below, Extended, Dropped, SameUse, SameBytes;
    addr := p.sz;
    if eager || n < 0 {
      ok := Growproc(p, k, n);
      return;
    }
    SameUseRefl(p.S());
    SameUseBytes(p.S(), p.S());
    if addr + n > TRAPFRAME { return false, addr; }
    BelowMore(p.T(), Pages(p.sz), Pages(p.sz + n));
    p.sz := p.sz + n;
    return true, addr;
  }

  // ---- fork and teardown ----

  /** An unused process slot. */
  ghost predicate Unused(p: Proc)
    reads p
  {
    Bare(p) && p.trapframe == 0 && p.sz == 0
  }

  /** freeproc: every page the process held is free again. */
  method Freeproc(p: Proc, k: Kmem)
    requires p.Ready(k) && Owned(p.S()) && p.sz <= TRAPFRAME && Below(p.T(), Pages(p.sz))
    requires p.trapframe !in p.Held(k) && k.first <= p.trapframe < k.limit
    modifies p`tables, p`at, p`place, p`mem, p`home, p`sz, p`trapframe, k`freelist
    ensures Unused(p) && k.Valid() && k.Free() == old(p.Held(k)) + {old(p.trapframe)}
  {
    hide Formed, Leaf, Owned, Below, Kmem.Free, Kmem.Valid, Apart, Union;
    GiveFree(k.Free(), p.tables.Keys, p.mem.Keys, p.trapframe, k.first, k.limit);
    k.Kfree(p.trapframe);
    ProcFreepagetable(p, k, p.sz);
    p.trapframe, p.sz := 0, 0;
  }

  /** Equal pages below size sz and none above: the same bytes everywhere. */
  lemma CopiedBytes(s: Space, s': Space, n: nat)
    requires Below(s.t, n) && Copied(s, s', n)
    ensures SameBytes(s, s')
  {
    hide Leaf;
    forall a: nat ensures ByteAt(s', a) == ByteAt(s, a) {
      assert Vpn(a) < n ==> SamePage(s, s', Vpn(a));
    }
  }

  /** The memory side of allocproc: a trapframe page and a page table with the two fixed mappings, or
      every page back. */
  method Allocproc(np: Proc, k: Kmem) returns (ok: bool)
    requires k.Valid() && k.first > 0 && Unused(np)
    modifies k`freelist, np`root, np`tables, np`at, np`place, np`mem, np`home, np`trapframe
    ensures ok ==> np.Ready(k) && Sized(np) && OnlyFixed(np.S())
    ensures ok ==>
      np.trapframe !in np.Held(k) && np.Held(k) + {np.trapframe} == old(k.Free()) && k.first <= np.trapframe < k.limit
    ensures !ok ==> Unused(np) && k.Valid() && k.Free() == old(k.Free()) && |old(k.freelist)| <= 5
    ensures ok ==> |old(k.freelist)| <= |k.freelist| + 6
  {
    hide Formed, Leaf, Owned, Below, Kmem.Free, Kmem.Valid, Entry;
    var tf;
    ok, tf := k.Kalloc();
    if !ok { return; }
    np.trapframe := tf;
    ok := ProcPagetable(np, k);
    if !ok {
      k.Kfree(tf);
      np.trapframe := 0;
      return;
    }
    OnlyFixedBelow(np.S());
    HeldManaged(np, k);
  }

  /** The memory side of kfork: the child gets the parent's pages, flags and bytes, on pages that were
      free; or the child slot is unused again and every page is back. The parent is not touched. */
  method Fork(p: Proc, np: Proc, k: Kmem) returns (ok: bool)
    requires p != np && k.Valid() && k.first > 0 && Sized(p) && Outside(p, k.Free(), k) && Unused(np)
    modifies p`tables, p`at, p`place, k`freelist
    modifies np`root, np`tables, np`at, np`place, np`mem, np`home, np`trapframe, np`sz
    ensures p.S() == old(p.S())
    ensures ok ==> np.Ready(k) && Sized(np) && np.sz == p.sz
    ensures ok ==> np.trapframe !in np.Held(k) && np.Held(k) + {np.trapframe} == old(k.Free())
    ensures ok ==> Copied(p.S(), np.S(), Pages(p.sz)) && SameBytes(p.S(), np.S())
    ensures ok ==> np.tables.Keys + np.mem.Keys + {np.trapframe} !! p.tables.Keys + p.mem.Keys
    ensures ok ==> Leaf(np.T(), USER) == Entry(np.trapframe, PTE_R + PTE_W)
    ensures !ok ==> Unused(np) && k.Valid() && k.Free() == old(k.Free()) && |old(k.freelist)| < 3 * Pages(p.sz) + 6
  {
    hide Formed, Leaf, Owned, Below, Kmem.Free, Kmem.Valid, Copied, SameBytes, Entry;
    ok := Allocproc(np, k);
    if !ok { return; }
    HeldManaged(np, k);
    ok := Uvmcopy(p, np, k, p.sz);
    if !ok {
      OnlyFixedBelow(np.S());
      Freeproc(np, k);
      return;
    }
    np.sz := p.sz;
    CopiedBytes(p.S(), np.S(), Pages(p.sz));
    CopiedBelow(p.S(), np.S(), Pages(p.sz));
    HeldManaged(np, k);
  }

  lemma OnlyFixedBelow(s: Space)
    requires Below(s.t, 0)
    ensures Below(s.t, Pages(0))
  {
  }

  lemma CopiedBelow(s: Space, s': Space, n: nat)
    requires Copied(s, s', n)
    ensures Below(s'.t, n)
  {
  }

  lemma HeldManaged(p: Proc, k: Kmem)
    requires p.Ready(k)
    ensures p.tables.Keys <= p.Held(k) && p.mem.Keys <= p.Held(k) && k.Free() <= p.Held(k)
    ensures p.tables.Keys !! p.mem.Keys && Formed(p.T()) && k.Valid()
  {
  }
}
