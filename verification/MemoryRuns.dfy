/** Page conservation over runs: processes that grow, shrink, fault, copy, fork and exit over one
    allocator, in any order, with every out-of-memory path. */
module MemoryRuns {
  import opened Basics
  import opened Kalloc
  import opened PageTable
  import opened UserMemory
  import opened UserPages
  import opened CopyMemory
  import opened Teardown
  import opened ProcMemory

  /** `s` is exactly what `who` gives to holder j. */
  ghost predicate Exact(s: set<nat>, who: map<nat, int>, j: int) {
    forall x :: x in s <==> x in who && who[x] == j
  }

  /** Pages that were free or process i's are free or process i's. */
  ghost function Settled(who: map<nat, int>, free: set<nat>, i: int): map<nat, int> {
    map x | x in who :: if who[x] == -1 || who[x] == i then (if x in free then -1 else i) else who[x]
  }

  lemma SettledExact(who: map<nat, int>, free: set<nat>, pages: set<nat>, free': set<nat>, pages': set<nat>, i: nat)
    requires Exact(free, who, -1) && Exact(pages, who, i) && free + pages == free' + pages' && free' !! pages'
    ensures Exact(free', Settled(who, free', i), -1) && Exact(pages', Settled(who, free', i), i)
  {
    var w := Settled(who, free', i);
    forall x ensures x in free' <==> x in w && w[x] == -1 { assert x in free + pages <==> x in free' + pages'; }
    forall x ensures x in pages' <==> x in w && w[x] == i { assert x in free + pages <==> x in free' + pages'; }
  }

  lemma SettledOther(who: map<nat, int>, free': set<nat>, i: nat, s: set<nat>, j: nat)
    requires Exact(s, who, j) && j != i
    ensures Exact(s, Settled(who, free', i), j)
  {
  }

  ghost function Upto(who: map<nat, int>, n: int): set<nat> {
    set x | x in who && who[x] < n
  }

  /** The pages a process holds: tables, user memory and trapframe. */
  ghost function PagesOf(p: Proc): set<nat>
    reads p
  {
    if p.trapframe == 0 then {} else p.tables.Keys + p.mem.Keys + {p.trapframe}
  }

  /** Bounds of the C int arguments. */
  type Int32 = x: int | -0x8000_0000 <= x < 0x8000_0000

  datatype Op =
    | OpSbrk(i: nat, n: Int32, eager: bool)
    | OpFault(i: nat, va: nat)
    | OpCopyout(i: nat, dst: nat, src: seq<Byte>)
    | OpCopyin(i: nat, from: nat, len: nat)
    | OpSpawn(i: nat)
    | OpFork(i: nat, child: nat)
    | OpExit(i: nat)

  class Machine {
    const k: Kmem
    const procs: seq<Proc>
    /** Holder of each managed page: -1 for the allocator, else the index of a process. */
    ghost var who: map<nat, int>

    /** After kinit and procinit: every page is free and every slot unused. */
    constructor (first: nat, limit: nat, n: nat, trampoline: nat)
      requires 0 < first <= limit
      ensures Valid() && |procs| == n && k.first == first && k.limit == limit
      ensures fresh(k) && forall p :: p in procs ==> fresh(p)
    {
      var ps: seq<Proc> := [];
      while |ps| < n
        invariant |ps| <= n && (forall i, j :: 0 <= i < j < |ps| ==> ps[i] != ps[j])
        invariant forall i :: 0 <= i < |ps| ==> fresh(ps[i]) && Unused(ps[i])
      {
        var p := new Proc(trampoline);
        ps := ps + [p];
      }
      var km := new Kmem(first, limit);
      k, procs := km, ps;
      who := map x | x in km.Free() :: -1;
    }

    ghost predicate Holds(i: int)
      requires 0 <= i < |procs|
      reads this, procs
    {
      Exact(PagesOf(procs[i]), who, i) && (Unused(procs[i]) || Sized(procs[i]))
    }

    ghost predicate Valid()
      reads this, k, procs
    {
      && k.Valid() && k.first > 0
      && (forall i, j :: 0 <= i < j < |procs| ==> procs[i] != procs[j])
      && (forall x :: x in who <==> k.first <= x < k.limit)
      && (forall x :: x in who ==> -1 <= who[x] < |procs|)
      && Exact(k.Free(), who, -1)
      && (forall i {:trigger Holds(i)} :: 0 <= i < |procs| ==> Holds(i))
    }

    /** In every such state process i can be operated on. */
    lemma ReadyAt(i: nat)
      requires Valid() && i < |procs| && Sized(procs[i])
      ensures procs[i].Ready(k) && procs[i].trapframe !in procs[i].Held(k) && k.first <= procs[i].trapframe < k.limit
      ensures Outside(procs[i], k.Free(), k)
      ensures procs[i].Held(k) + {procs[i].trapframe} == k.Free() + PagesOf(procs[i])
    {
      hide Formed, Leaf, Owned, Below, Kmem.Free, Kmem.Valid;
      assert Holds(i);
      var p := procs[i];
      assert p.tables.Keys <= PagesOf(p) && p.mem.Keys <= PagesOf(p) && p.trapframe in PagesOf(p);
      assert k.Free() !! PagesOf(p);
    }

    /** After an operation on process i that kept the pages of i and the allocator together. */
    ghost method Settle(i: nat, free: set<nat>, pages: set<nat>)
      requires i < |procs| && k.Valid() && k.first > 0
      requires forall i, j :: 0 <= i < j < |procs| ==> procs[i] != procs[j]
      requires forall x :: x in who <==> k.first <= x < k.limit
      requires forall x :: x in who ==> -1 <= who[x] < |procs|
      requires forall j {:trigger Holds(j)} :: 0 <= j < |procs| && j != i ==> Holds(j)
      requires Exact(free, who, -1) && Exact(pages, who, i)
      requires free + pages == k.Free() + PagesOf(procs[i]) && k.Free() !! PagesOf(procs[i])
      requires Unused(procs[i]) || Sized(procs[i])
      modifies this
      ensures Valid()
    {
      hide Formed, Leaf, Owned, Below, Kmem.Free, Kmem.Valid, Exact, Sized, Unused, PagesOf, Settled;
      ghost var w := Settled(who, k.Free(), i);
      SettledExact(who, free, pages, k.Free(), PagesOf(procs[i]), i);
      SettledKeys(who, k.Free(), i);
      forall j | 0 <= j < |procs| && j != i
        ensures Exact(PagesOf(procs[j]), w, j) && (Unused(procs[j]) || Sized(procs[j]))
      {
        assert Holds(j);
        SettledOther(who, k.Free(), i, PagesOf(procs[j]), j);
      }
      who := w;
      forall j | 0 <= j < |procs| ensures Holds(j) {}
    }

    /** No other process's memory changed. */
    twostate predicate Isolated(i: nat)
      reads this, procs
    {
      forall j :: 0 <= j < |procs| && j != i ==> procs[j].S() == old(procs[j].S()) && procs[j].sz == old(procs[j].sz)
    }

    /** The other processes hold what they held. */
    twostate lemma Others(i: nat)
      requires old(Valid()) && i < |procs| && who == old(who)
      requires forall j :: 0 <= j < |procs| && j != i ==> unchanged(procs[j])
      ensures forall j {:trigger Holds(j)} :: 0 <= j < |procs| && j != i ==> Holds(j)
    {
      hide Formed, Leaf, Owned, Below, Kmem.Free, Kmem.Valid, Exact, Sized, Unused, PagesOf;
      forall j | 0 <= j < |procs| && j != i ensures Holds(j) { assert old(Holds(j)); }
    }

    method DoSbrk(i: nat, n: Int32, eager: bool)
      requires Valid() && i < |procs| && Sized(procs[i])
      modifies this, k, procs
      ensures Valid() && Isolated(i)
    {
      hide Formed, Leaf, Owned, Below, Kmem.Free, Kmem.Valid, Apart, Dropped, SameBytes, SameUse, Exact;
      var p := procs[i];
      ReadyAt(i);
      assert Holds(i);
      ghost var free, pages := k.Free(), PagesOf(p);
      var ok, addr := Sbrk(p, k, n, eager);
      Regroup(p, k);
      Others(i);
      Settle(i, free, pages);
    }

    method DoFault(i: nat, va: nat)
      requires Valid() && i < |procs| && Sized(procs[i])
      modifies this, k, procs
      ensures Valid() && Isolated(i)
    {
      hide Formed, Leaf, Owned, Below, Kmem.Free, Kmem.Valid, Apart, Dropped, SameBytes, SameUse, Exact, Added,
           OnlyFaulted;
      var p := procs[i];
      ReadyAt(i);
      assert Holds(i);
      ghost var free, pages := k.Free(), PagesOf(p);
      ghost var s := p.S();
      var ok, pa := Vmfault(p, k, va);
      AfterFault(s, p.S(), va, pa, p.sz, ok);
      Regroup(p, k);
      Others(i);
      Settle(i, free, pages);
    }

    method DoCopyout(i: nat, dst: nat, src: seq<Byte>)
      requires Valid() && i < |procs| && Sized(procs[i])
      modifies this, k, procs
      ensures Valid() && Isolated(i)
    {
      hide Formed, Leaf, Owned, Below, Kmem.Free, Kmem.Valid, Apart, Dropped, SameBytes, SameUse, Exact, Wrote,
           OnlyFaulted, Stuck;
      var p := procs[i];
      ReadyAt(i);
      assert Holds(i);
      ghost var free, pages := k.Free(), PagesOf(p);
      var ok, done := Copyout(p, k, dst, src);
      Regroup(p, k);
      Others(i);
      Settle(i, free, pages);
    }

    method DoCopyin(i: nat, from: nat, len: nat)
      requires Valid() && i < |procs| && Sized(procs[i])
      modifies this, k, procs
      ensures Valid() && Isolated(i)
    {
      hide Formed, Leaf, Owned, Below, Kmem.Free, Kmem.Valid, Apart, Dropped, SameBytes, SameUse, Exact, Reads,
           OnlyFaulted, Stuck;
      var p := procs[i];
      ReadyAt(i);
      assert Holds(i);
      ghost var free, pages := k.Free(), PagesOf(p);
      var ok, b := Copyin(p, k, from, len);
      Regroup(p, k);
      Others(i);
      Settle(i, free, pages);
    }

    method DoSpawn(i: nat)
      requires Valid() && i < |procs| && Unused(procs[i])
      modifies this, k, procs
      ensures Valid() && Isolated(i)
    {
      hide Formed, Leaf, Owned, Below, Kmem.Free, Kmem.Valid, Apart, Exact, OnlyFixed;
      assert Holds(i);
      ghost var free := k.Free();
      var ok := Allocproc(procs[i], k);
      if ok { Regroup(procs[i], k); }
      Others(i);
      Settle(i, free, {});
    }

    method DoFork(i: nat, child: nat)
      requires Valid() && i < |procs| && child < |procs| && Sized(procs[i]) && Unused(procs[child])
      modifies this, k, procs
      ensures Valid() && Isolated(child)
    {
      hide Formed, Leaf, Owned, Below, Kmem.Free, Kmem.Valid, Apart, Exact, Copied, SameBytes, Entry;
      assert Holds(i) && Holds(child);
      ReadyAt(i);
      ghost var free := k.Free();
      var ok := Fork(procs[i], procs[child], k);
      if ok { Regroup(procs[child], k); }
      Others(child);
      Settle(child, free, {});
    }

    method DoExit(i: nat)
      requires Valid() && i < |procs| && Sized(procs[i])
      modifies this, k, procs
      ensures Valid() && Isolated(i) && Unused(procs[i])
    {
      hide Formed, Leaf, Owned, Below, Kmem.Free, Kmem.Valid, Apart, Exact;
      ReadyAt(i);
      assert Holds(i);
      ghost var free, pages := k.Free(), PagesOf(procs[i]);
      Freeproc(procs[i], k);
      Others(i);
      Settle(i, free, pages);
    }

    /** One request of a run; one that names no suitable process does nothing. Only the process it is
        for (for a fork, the child) is changed. */
    method Step(op: Op)
      requires Valid()
      modifies this, k, procs
      ensures Valid() && Isolated(if op.OpFork? then op.child else op.i)
    {
      hide Valid, Holds;
      if op.i < |procs| {
        var used := procs[op.i].trapframe != 0;
        UsedOrNot(op.i);
        match op
        case OpSbrk(i, n, eager) => if used { DoSbrk(i, n, eager); }
        case OpFault(i, va) => if used { DoFault(i, va); }
        case OpCopyout(i, dst, src) => if used { DoCopyout(i, dst, src); }
        case OpCopyin(i, from, len) => if used { DoCopyin(i, from, len); }
        case OpSpawn(i) => if !used { DoSpawn(i); }
        case OpFork(i, child) =>
          if used && child < |procs| {
            UsedOrNot(child);
            if procs[child].trapframe == 0 { DoFork(i, child); }
          }
        case OpExit(i) => if used { DoExit(i); }
      }
    }

    lemma UsedOrNot(i: nat)
      requires Valid() && i < |procs|
      ensures if procs[i].trapframe != 0 then Sized(procs[i]) else Unused(procs[i])
    {
      assert Holds(i);
    }

    /** Pages held by the first n processes. */
    ghost function Held(n: nat): nat
      requires n <= |procs|
      reads this, procs
    {
      if n == 0 then 0 else Held(n - 1) + |PagesOf(procs[n - 1])|
    }

    lemma {:induction false} HeldBy(n: nat)
      requires Valid() && n <= |procs|
      ensures |k.Free()| + Held(n) == |Upto(who, n)|
    {
      hide Formed, Leaf, Owned, Below, Kmem.Free, Kmem.Valid, Sized, Unused, PagesOf;
      if n == 0 {
        assert Upto(who, 0) == k.Free();
      } else {
        HeldBy(n - 1);
        assert Holds(n - 1);
        assert Upto(who, n) == Upto(who, n - 1) + PagesOf(procs[n - 1]);
        assert Upto(who, n - 1) !! PagesOf(procs[n - 1]);
      }
    }

    /** Conservation: free pages, tables, user pages and trapframes always add up to all the pages. */
    lemma PagesConserved()
      requires Valid() && k.first <= k.limit
      ensures |k.Free()| + Held(|procs|) == k.limit - k.first
    {
      hide Formed, Leaf, Owned, Below, Kmem.Free, Kmem.Valid, Sized, Unused, PagesOf, Holds;
      HeldBy(|procs|);
      assert Upto(who, |procs|) == who.Keys;
      IntervalSize(k.first, k.limit);
      forall x: nat ensures x in who.Keys <==> x in Interval(k.first, k.limit) { IntervalHas(k.first, k.limit, x); }
      assert who.Keys == Interval(k.first, k.limit);
    }

    /** Every run: each managed page always has exactly one holder, the allocator or one process, and
        every process in use is well formed with no user page above its size. */
    method Run(ops: seq<Op>)
      requires Valid()
      modifies this, k, procs
      ensures Valid()
    {
      for i := 0 to |ops|
        invariant Valid()
      {
        Step(ops[i]);
      }
    }
  }

  lemma SettledKeys(who: map<nat, int>, free: set<nat>, i: int)
    ensures var w := Settled(who, free, i);
            w.Keys == who.Keys && forall x :: x in w ==> w[x] == -1 || w[x] == i || w[x] == who[x]
  {
  }

  lemma Regroup(p: Proc, k: Kmem)
    requires p.Ready(k) && p.trapframe != 0 && p.trapframe !in p.Held(k)
    ensures p.Held(k) + {p.trapframe} == k.Free() + PagesOf(p) && k.Free() !! PagesOf(p) && k.Valid() && Formed(p.T())
    ensures p.tables.Keys !! p.mem.Keys && p.trapframe !in p.tables && p.trapframe !in p.mem
  {
  }

  lemma AfterFault(s: Space, s': Space, va: nat, x: nat, sz: nat, ok: bool)
    requires Below(s.t, Pages(sz))
    requires if ok then va < sz && Added(s, s', Vpn(va), x, ZeroPage(), PTE_W + PTE_U + PTE_R) else SameUse(s, s')
    ensures Below(s'.t, Pages(sz))
  {
    hide Leaf, Entry;
    assert va < sz ==> Vpn(va) < Pages(sz);
  }
}
