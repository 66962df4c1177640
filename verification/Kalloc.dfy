/** The physical page allocator of kernel/kalloc.c: a LIFO free list of page numbers. */
module Kalloc {
  import opened Basics

  class Kmem {
    /** The managed pages: from the first one at or above `end` up to PHYSTOP. */
    const first: nat
    const limit: nat
    var freelist: seq<nat>

    ghost predicate Valid()
      reads this
    {
      Distinct(freelist) && forall i :: 0 <= i < |freelist| ==> first <= freelist[i] < limit
    }

    ghost function Free(): set<nat>
      reads this
    {
      set x | x in freelist
    }

    /** kinit: freerange gives every page between `end` and PHYSTOP to kfree once. */
    constructor (first: nat, limit: nat)
      requires first <= limit
      ensures Valid() && this.first == first && this.limit == limit
      ensures forall x: nat :: x in Free() <==> first <= x < limit
    {
      this.first, this.limit, this.freelist := first, limit, [];
      new;
      var p := first;
      while p < limit
        invariant first <= p <= limit && Valid()
        invariant forall x: nat :: x in Free() <==> first <= x < p
      {
        Kfree(p);
        p := p + 1;
      }
    }

    /** The source fills the page with junk; the model's owner of a page holds its bytes. Handing back a
        page that is already free, or one outside the managed range, is excluded by the contract. */
    method Kfree(x: nat)
      requires Valid() && first <= x < limit && x !in Free()
      modifies `freelist
      ensures Valid() && freelist == [x] + old(freelist) && Free() == old(Free()) + {x}
    {
      freelist := [x] + freelist;
    }

    method Kalloc() returns (ok: bool, x: nat)
      requires Valid()
      modifies `freelist
      ensures Valid() && ok == (old(freelist) != [])
      ensures ok ==> first <= x < limit && x in old(Free()) && Free() == old(Free()) - {x}
      ensures ok ==> freelist == old(freelist)[1..]
      ensures !ok ==> freelist == old(freelist) && Free() == {}
    {
      ok, x := freelist != [], 0;
      if ok {
        x := freelist[0];
        assert freelist == [x] + freelist[1..];
        freelist := freelist[1..];
      }
    }
  }
}
