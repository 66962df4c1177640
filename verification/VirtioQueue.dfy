/** Descriptor management of kernel/virtio_disk.c: alloc_desc, free_desc, free_chain and alloc3_desc over
    the descriptor table and its free flags. */
module VirtioQueue {
  import opened Basics

  const NUM: nat := 8
  const F_NEXT: nat := 1
  const F_WRITE: nat := 2

  /** What a descriptor may point to: a command header, a buffer's data, or a status byte. */
  datatype Addr = Null | Header(i: nat) | Data(buf: nat) | Status(i: nat)

  datatype Desc = Desc(addr: Addr, len: nat, flags: nat, next: nat)

  const CLEAR: Desc := Desc(Null, 0, 0, 0)

  predicate HasNext(d: Desc) { d.flags % 2 == 1 }

  /** Free flags without the descriptors of s. */
  ghost predicate Taken(free: seq<bool>, free': seq<bool>, s: seq<nat>) {
    |free| == |free'| && forall i :: 0 <= i < |free| ==> free'[i] == (free[i] && i !in s)
  }

  class Queue {
    var free: seq<bool>
    var desc: seq<Desc>

    ghost predicate Valid()
      reads this
    {
      |free| == NUM && |desc| == NUM
    }

    constructor ()
      ensures Valid() && free == seq(NUM, _ => true) && desc == seq(NUM, _ => CLEAR)
    {
      free, desc := seq(NUM, _ => true), seq(NUM, _ => CLEAR);
    }

    /** The lowest free descriptor, no longer free; failure means there is none. */
    method AllocDesc() returns (ok: bool, i: nat)
      requires Valid()
      modifies `free
      ensures Valid() && (forall j :: 0 <= j < i && j < NUM ==> !old(free)[j])
      ensures ok ==> i < NUM && old(free)[i] && free == old(free)[i := false]
      ensures !ok ==> i == NUM && free == old(free)
    {
      i := 0;
      while i < NUM
        invariant i <= NUM && free == old(free) && forall j :: 0 <= j < i ==> !free[j]
      {
        if free[i] {
          free := free[i := false];
          return true, i;
        }
        i := i + 1;
      }
      return false, NUM;
    }

    /** `ok` is false exactly where the kernel panics: no such descriptor, or one that is free already. */
    method FreeDesc(i: nat) returns (ok: bool)
      requires Valid()
      modifies this
      ensures Valid() && (ok <==> i < NUM && !old(free)[i])
      ensures ok ==> free == old(free)[i := true] && desc == old(desc)[i := CLEAR]
      ensures !ok ==> free == old(free) && desc == old(desc)
    {
      if i >= NUM || free[i] { return false; }
      ok := true;
      desc := desc[i := CLEAR];
      free := free[i := true];
    }

    /** Three distinct free descriptors; or the free flags exactly as they were, and fewer than three
        were free. */
    method Alloc3Desc() returns (ok: bool, idx: seq<nat>)
      requires Valid()
      modifies this
      ensures Valid() && |idx| <= 3 && Distinct(idx)
      ensures forall x :: x in idx ==> x < NUM && old(free)[x]
      ensures ok ==> |idx| == 3 && Taken(old(free), free, idx) && desc == old(desc)
      ensures !ok ==> |idx| < 3 && free == old(free)
      ensures !ok ==> forall i :: 0 <= i < NUM ==> (free[i] ==> i in idx) && (!free[i] ==> desc[i] == old(desc[i]))
    {
      idx := [];
      for i := 0 to 3
        invariant Valid() && |idx| == i && Distinct(idx) && Taken(old(free), free, idx) && desc == old(desc)
        invariant forall x :: x in idx ==> x < NUM && old(free)[x]
      {
        var got, x := AllocDesc();
        if !got {
          Undo(idx, old(free));
          return false, idx;
        }
        idx := idx + [x];
      }
      return true, idx;
    }

    /** The inner loop of alloc3_desc: give back what was taken so far. */
    method Undo(idx: seq<nat>, ghost was: seq<bool>)
      requires Valid() && |was| == NUM && Distinct(idx) && Taken(was, free, idx) && forall x :: x in idx ==>
                x < NUM && was[x]
      modifies this
      ensures Valid() && free == was && forall i :: 0 <= i < NUM && !was[i] ==> desc[i] == old(desc[i])
    {
      for j := 0 to |idx|
        invariant Valid() && Taken(was, free, idx[j..]) && forall i :: 0 <= i < NUM && !was[i] ==>
                  desc[i] == old(desc[i])
      {
        assert idx[j] in idx && idx[j] in idx[j..] && idx[j] !in idx[j + 1..];
        var ok := FreeDesc(idx[j]);
        assert ok;
        assert forall i :: i in idx[j..] <==> i == idx[j] || i in idx[j + 1..];
      }
      assert idx[|idx|..] == [];
    }

    /** Follow the chain h -> d -> t and give back exactly those three, without a panic. */
    method FreeChain(h: nat, ghost d: nat, ghost t: nat) returns (ok: bool)
      requires Valid() && h < NUM && d < NUM && t < NUM && h != d && h != t && d != t
      requires !free[h] && !free[d] && !free[t]
      requires HasNext(desc[h]) && desc[h].next == d && HasNext(desc[d]) && desc[d].next == t && !HasNext(desc[t])
      modifies this
      ensures ok && Valid() && free == old(free)[h := true][d := true][t := true]
      ensures desc == old(desc)[h := CLEAR][d := CLEAR][t := CLEAR]
    {
      var i := h;
      ghost var n := 0;
      while true
        invariant Valid() && n <= 2 && i == (if n == 0 then h else if n == 1 then d else t)
        invariant n == 0 ==> free == old(free) && desc == old(desc)
        invariant n == 1 ==> free == old(free)[h := true] && desc == old(desc)[h := CLEAR]
        invariant n == 2 ==> free == old(free)[h := true][d := true] && desc == old(desc)[h := CLEAR][d := CLEAR]
        decreases 2 - n
      {
        var more, nxt := HasNext(desc[i]), desc[i].next;
        ok := FreeDesc(i);
        if !ok { return; }
        if !more { break; }
        i, n := nxt, n + 1;
      }
    }
  }
}
