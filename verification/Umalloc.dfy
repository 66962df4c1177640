/** The user-level allocator of user/umalloc.c: a circular, address-ordered free list with coalescing.
    Addresses count header-sized units; `base` is the static list head, below the heap. */
module Umalloc {
  import opened Basics

  const HEADER: nat := 16

  /** Headers in memory (ptr and size fields), with what they mean: the free blocks in address order, the
      blocks in use, and for every unit of the heap the block it belongs to. */
  datatype Heap = Heap(
    base: nat, ptr: map<nat, nat>, size: map<nat, nat>, blocks: seq<nat>, live: map<nat, nat>, own: map<nat, nat>)

  /** The ring: base, the free blocks in address order, base again. */
  function Node(h: Heap, i: nat): nat {
    if 1 <= i <= |h.blocks| then h.blocks[i - 1] else h.base
  }

  ghost predicate LinkOk(h: Heap, i: nat) {
    i <= |h.blocks| ==> Node(h, i) in h.ptr && h.ptr[Node(h, i)] == Node(h, i + 1)
  }

  ghost predicate FreeOk(h: Heap, i: nat) {
    i < |h.blocks| ==> h.blocks[i] in h.size && h.size[h.blocks[i]] > 0 && h.base < h.blocks[i]
  }

  /** Address order with no two free blocks touching. */
  ghost predicate Gap(h: Heap, i: nat, j: nat) {
    i < j < |h.blocks| && h.blocks[i] in h.size ==> h.blocks[i] + h.size[h.blocks[i]] < h.blocks[j]
  }

  ghost predicate LiveOk(h: Heap, a: nat) {
    a in h.live ==> a in h.size && h.size[a] == h.live[a] && h.live[a] > 0 && h.base < a && a !in h.blocks
  }

  predicate IsBlock(h: Heap, a: nat) { a in h.size && (a in h.blocks || a in h.live) }

  ghost predicate UnitOk(h: Heap, u: nat) {
    u in h.own ==> IsBlock(h, h.own[u]) && h.own[u] <= u < h.own[u] + h.size[h.own[u]]
  }

  ghost predicate CoverOk(h: Heap, a: nat, u: nat) {
    IsBlock(h, a) && a <= u < a + h.size[a] ==> u in h.own && h.own[u] == a
  }

  ghost predicate Inv(h: Heap) {
    && h.base in h.size && h.size[h.base] == 0
    && (forall i: nat {:trigger LinkOk(h, i)} :: LinkOk(h, i))
    && (forall i: nat {:trigger FreeOk(h, i)} :: FreeOk(h, i))
    && (forall i: nat, j: nat {:trigger Gap(h, i, j)} :: Gap(h, i, j))
    && (forall a: nat {:trigger LiveOk(h, a)} :: LiveOk(h, a))
    && (forall u: nat {:trigger UnitOk(h, u)} :: UnitOk(h, u))
    && (forall a: nat, u: nat {:trigger CoverOk(h, a, u)} :: CoverOk(h, a, u))
  }

  /** Where a block in use belongs in the ring: after node k. */
  ghost predicate Between(h: Heap, b: nat, k: nat) {
    k <= |h.blocks| && Node(h, k) < b && (k < |h.blocks| ==> b < Node(h, k + 1))
  }

  lemma FindPlace(h: Heap, b: nat) returns (k: nat)
    requires Inv(h) && b in h.live
    ensures Between(h, b, k)
  {
    assert LiveOk(h, b);
    k := 0;
    while k < |h.blocks| && h.blocks[k] < b
      invariant k <= |h.blocks| && Node(h, k) < b
    {
      k := k + 1;
    }
  }

  /** Free blocks are in strict address order along the ring. */
  lemma Ordered(h: Heap, i: nat, j: nat)
    requires Inv(h) && i < j <= |h.blocks|
    ensures Node(h, i) < Node(h, j)
  {
    assert FreeOk(h, j - 1);
    if i > 0 { assert FreeOk(h, i - 1) && Gap(h, i - 1, j - 1); }
  }

  /** A block in use lies clear of its neighbours in the ring. */
  lemma Clear(h: Heap, b: nat, k: nat)
    requires Inv(h) && b in h.live && Between(h, b, k)
    ensures Node(h, k) in h.size && Node(h, k) + h.size[Node(h, k)] <= b
    ensures k < |h.blocks| ==> b + h.live[b] <= Node(h, k + 1) && Node(h, k + 1) in h.size && h.size[Node(h, k + 1)] > 0
    ensures k > 0 ==> h.size[Node(h, k)] > 0
  {
    var p, q := Node(h, k), Node(h, k + 1);
    assert LiveOk(h, b) && CoverOk(h, b, b);
    if k > 0 {
      assert FreeOk(h, k - 1) && CoverOk(h, p, b);
    }
    if k < |h.blocks| {
      assert FreeOk(h, k) && CoverOk(h, q, q) && CoverOk(h, b, q);
    }
  }

  // ---- free ----

  /** The block ends where the next free one begins; it begins where the one before ends. */
  predicate Up(h: Heap, b: nat, k: nat) { b in h.size && b + h.size[b] == Node(h, k + 1) }

  predicate Down(h: Heap, b: nat, k: nat) { Node(h, k) in h.size && Node(h, k) + h.size[Node(h, k)] == b }

  /** The state after free(b), b belonging after node k: lines 33-42. */
  ghost function Freed(h: Heap, b: nat, k: nat): Heap
    requires Inv(h) && b in h.live && Between(h, b, k)
  {
    var p, q := Node(h, k), Node(h, k + 1);
    assert LinkOk(h, k) && LinkOk(h, k + 1) && LiveOk(h, b);
    assert p in h.size && q in h.size && q in h.ptr by { Clear(h, b, k); QNode(h, k); }
    var size1 := if Up(h, b, k) then h.size[b := h.size[b] + h.size[q]] else h.size;
    var ptr1 := h.ptr[b := if Up(h, b, k) then h.ptr[q] else q];
    var size2 := if Down(h, b, k) then size1[p := size1[p] + size1[b]] else size1;
    var ptr2 := if Down(h, b, k) then ptr1[p := ptr1[b]] else ptr1[p := b];
    var m := if Down(h, b, k) then p else b;
    Heap(h.base, ptr2, size2,
         h.blocks[..k] + (if Down(h, b, k) then [] else [b])
         + h.blocks[if Up(h, b, k) && k < |h.blocks| then k + 1 else k..],
         h.live - {b},
         map u | u in h.own :: if m <= u < m + size2[m] then m else h.own[u])
  }

  lemma QNode(h: Heap, k: nat)
    requires Inv(h) && k <= |h.blocks|
    ensures Node(h, k + 1) in h.size && Node(h, k + 1) in h.ptr && Node(h, k) in h.size && Node(h, k) in h.ptr
  {
    assert LinkOk(h, k) && LinkOk(h, k + 1) && LinkOk(h, 0) && FreeOk(h, k);
    if k > 0 { assert FreeOk(h, k - 1); }
  }

  /** What is known about the place of b. */
  ghost predicate Placed(h: Heap, b: nat, k: nat) { Inv(h) && b in h.live && Between(h, b, k) }

  /** The nodes of the new ring in terms of the old. */
  lemma FreedNode(h: Heap, b: nat, k: nat, i: nat)
    requires Placed(h, b, k) && i <= |Freed(h, b, k).blocks| + 1
    ensures Up(h, b, k) ==> k < |h.blocks|
    ensures Down(h, b, k) ==> k > 0
    ensures var h' := Freed(h, b, k); var up := if Up(h, b, k) then 1 else 0;
            Node(h', i) == (if i <= k then Node(h, i)
                            else if Down(h, b, k) then Node(h, i + up)
                            else if i == k + 1 then b
                            else Node(h, i - 1 + up))
  {
    hide Inv;
    Clear(h, b, k);
    BaseBelow(h, b);
  }

  lemma BaseBelow(h: Heap, b: nat)
    requires Inv(h) && b in h.live
    ensures h.base < b && h.base in h.size && h.size[h.base] == 0 && b in h.size && h.size[b] == h.live[b] > 0
  {
    assert LiveOk(h, b);
  }

  /** The pointer fields: only those of b and of the node before it change. */
  lemma FreedPtr(h: Heap, b: nat, k: nat, x: nat)
    requires Placed(h, b, k)
    ensures var h', after := Freed(h, b, k), if Up(h, b, k) then Node(h, k + 2) else Node(h, k + 1);
            && Node(h, k) in h'.ptr && h'.ptr[Node(h, k)] == (if Down(h, b, k) then after else b)
            && (!Down(h, b, k) ==> b in h'.ptr && h'.ptr[b] == after)
            && (x in h.ptr && x != b && x != Node(h, k) ==> x in h'.ptr && h'.ptr[x] == h.ptr[x])
  {
    hide Inv;
    NodesDiffer(h, b, k, k);
    FreedNode(h, b, k, 0);
    if Up(h, b, k) { Links(h, k + 1); }
  }

  lemma FreedLink(h: Heap, b: nat, k: nat, i: nat)
    requires Placed(h, b, k)
    ensures LinkOk(Freed(h, b, k), i)
  {
    hide Inv, Freed, Up, Down, Node;
    var h' := Freed(h, b, k);
    FreedLength(h, b, k);
    if i <= |h'.blocks| {
      var up := if Up(h, b, k) then 1 else 0;
      FreedNode(h, b, k, i);
      FreedNode(h, b, k, i + 1);
      var j := if i <= k then i else if Down(h, b, k) then i + up else if i == k + 1 then k else i - 1 + up;
      Links(h, j);
      NodesDiffer(h, b, k, j);
      FreedPtr(h, b, k, Node(h, j));
    }
  }

  lemma FreedLength(h: Heap, b: nat, k: nat)
    requires Placed(h, b, k)
    ensures |Freed(h, b, k).blocks| == |h.blocks| + (if Down(h, b, k) then 0 else 1) - (if Up(h, b, k) then 1 else 0)
  {
    FreedNode(h, b, k, 0);
  }

  lemma Links(h: Heap, i: nat)
    requires Inv(h) && i <= |h.blocks|
    ensures Node(h, i) in h.ptr && h.ptr[Node(h, i)] == Node(h, i + 1)
  {
    assert LinkOk(h, i);
  }

  lemma NodesDiffer(h: Heap, b: nat, k: nat, i: nat)
    requires Placed(h, b, k) && i <= |h.blocks|
    ensures Node(h, i) != b && (i != k ==> Node(h, i) != Node(h, k))
  {
    assert LiveOk(h, b);
    if i < k { Ordered(h, i, k); } else if k < i { Ordered(h, k, i); }
  }

  lemma FreedMember(h: Heap, b: nat, k: nat, a: nat)
    requires Placed(h, b, k)
    ensures a in Freed(h, b, k).blocks <==>
              (a in h.blocks && !(Up(h, b, k) && a == Node(h, k + 1))) || (!Down(h, b, k) && a == b)
  {
    hide Inv;
    var h', x := Freed(h, b, k), if Up(h, b, k) && k < |h.blocks| then k + 1 else k;
    FreedNode(h, b, k, 0);
    assert h.blocks == h.blocks[..k] + h.blocks[k..x] + h.blocks[x..];
    if Up(h, b, k) {
      assert h.blocks[k..x] == [Node(h, k + 1)];
      forall i | 0 <= i < |h.blocks| && i != k ensures h.blocks[i] != h.blocks[k] {
        if i < k { Ordered(h, i + 1, k + 1); } else { Ordered(h, k + 1, i + 1); }
      }
    } else {
      assert h.blocks[k..x] == [];
    }
  }

  /** The block that b has become part of, and its extent. */
  lemma Merged(h: Heap, b: nat, k: nat)
    requires Placed(h, b, k)
    ensures var h', p, q := Freed(h, b, k), Node(h, k), Node(h, k + 1); var m := if Down(h, b, k) then p else b;
            && b in h.size && p in h.size && q in h.size && m in h'.size && m in h'.blocks && m <= b && h'.size[m] > 0
            && (Down(h, b, k) ==> p + h.size[p] == b && p in h.blocks && 0 < h.size[p]) && (Up(h, b, k) ==>
                  b + h.size[b] == q && q in h.blocks)
            && m + h'.size[m] == (if Up(h, b, k) then q + h.size[q] else b + h.size[b])
            && h'.size.Keys == h.size.Keys && (forall a :: a in h.size && a != m && a != b ==> h'.size[a] == h.size[a])
  {
    hide Inv;
    QNode(h, k);
    BaseBelow(h, b);
    Clear(h, b, k);
    FreedNode(h, b, k, 0);
    FreedMember(h, b, k, if Down(h, b, k) then Node(h, k) else b);
    if Up(h, b, k) { NodesDiffer(h, b, k, k + 1); }
  }

  lemma FreedLive(h: Heap, b: nat, k: nat, a: nat)
    requires Placed(h, b, k)
    ensures LiveOk(Freed(h, b, k), a)
  {
    hide Inv;
    Merged(h, b, k);
    FreedMember(h, b, k, a);
    Lives(h, a);
    Lives(h, b);
    NodesDiffer(h, b, k, k);
  }

  lemma Lives(h: Heap, a: nat)
    requires Inv(h)
    ensures LiveOk(h, a)
  {
  }

  /** Owners in the merged range are the blocks that were merged. */
  lemma MergedOwner(h: Heap, b: nat, k: nat, u: nat)
    requires Placed(h, b, k)
    ensures var h', p, q := Freed(h, b, k), Node(h, k), Node(h, k + 1); var m := if Down(h, b, k) then p else b;
            && (u in h.own ==> IsBlock(h, h.own[u]) && h.own[u] <= u < h.own[u] + h.size[h.own[u]])
            && (m in h'.size && m <= u < m + h'.size[m] ==>
                  u in h.own && (h.own[u] == b || (Down(h, b, k) && h.own[u] == p) || (Up(h, b, k) && h.own[u] == q)))
            && (m in h'.size && u in h.own && !(m <= u < m + h'.size[m]) ==>
                  h.own[u] != b && !(Down(h, b, k) && h.own[u] == p) && !(Up(h, b, k) && h.own[u] == q))
  {
    Merged(h, b, k);
    var p, q := Node(h, k), Node(h, k + 1);
    assert UnitOk(h, u) && LiveOk(h, b);
    assert CoverOk(h, b, u) && CoverOk(h, p, u) && CoverOk(h, q, u);
  }

  lemma FreedUnit(h: Heap, b: nat, k: nat, u: nat)
    requires Placed(h, b, k)
    ensures UnitOk(Freed(h, b, k), u)
  {
    hide Inv, Freed;
    Merged(h, b, k);
    MergedOwner(h, b, k, u);
    FreedOwn(h, b, k, u);
    if u in h.own { FreedMember(h, b, k, h.own[u]); }
  }

  lemma FreedOwn(h: Heap, b: nat, k: nat, u: nat)
    requires Placed(h, b, k)
    ensures var h' := Freed(h, b, k); var m := if Down(h, b, k) then Node(h, k) else b;
            && (u in h'.own <==> u in h.own) && m in h'.size
            && (u in h.own ==> h'.own[u] == if m <= u < m + h'.size[m] then m else h.own[u])
            && h'.live == h.live - {b} && h'.base == h.base
  {
    hide Inv;
    Merged(h, b, k);
  }

  lemma FreedCover(h: Heap, b: nat, k: nat, a: nat, u: nat)
    requires Placed(h, b, k)
    ensures CoverOk(Freed(h, b, k), a, u)
  {
    hide Inv, Freed;
    Merged(h, b, k);
    MergedOwner(h, b, k, u);
    FreedOwn(h, b, k, u);
    FreedMember(h, b, k, a);
    Covers(h, a, u);
    NodesDiffer(h, b, k, k);
    if Up(h, b, k) { FreedNode(h, b, k, 0); NodesDiffer(h, b, k, k + 1); }
    Lives(h, a);
  }

  lemma Covers(h: Heap, a: nat, u: nat)
    requires Inv(h)
    ensures CoverOk(h, a, u)
  {
  }

  lemma FreedGap(h: Heap, b: nat, k: nat, i: nat, j: nat)
    requires Placed(h, b, k)
    ensures FreeOk(Freed(h, b, k), i) && Gap(Freed(h, b, k), i, j)
  {
    hide Inv, Freed, Up, Down;
    var h' := Freed(h, b, k);
    FreedLength(h, b, k);
    Merged(h, b, k);
    FreedOwn(h, b, k, 0);
    BaseBelow(h, b);
    Clear(h, b, k);
    if i < |h'.blocks| {
      FreedSource(h, b, k, i);
      if i < j < |h'.blocks| {
        FreedSource(h, b, k, j);
        FreedOrder(h, b, k, i, j);
      }
    }
  }

  /** Where entry i of the new list comes from: an old node, or b. */
  ghost function Source(h: Heap, b: nat, k: nat, i: nat): nat {
    var up := if Up(h, b, k) then 1 else 0;
    if i < k then i + 1 else if Down(h, b, k) then i + 1 + up else if i == k then 0 else i + up
  }

  lemma FreedSource(h: Heap, b: nat, k: nat, i: nat)
    requires Placed(h, b, k) && i < |Freed(h, b, k).blocks|
    ensures var h', j := Freed(h, b, k), Source(h, b, k, i);
            if i == k && !Down(h, b, k) then h'.blocks[i] == b
            else 0 < j <= |h.blocks| && h'.blocks[i] == Node(h, j) && Node(h, j) in h.size && h.size[Node(h, j)] > 0
                 && h.base < Node(h, j) && Node(h, j) != b
                 && (Up(h, b, k) ==> j != k + 1)
  {
    hide Inv, Freed, Up, Down;
    FreedLength(h, b, k);
    FreedNode(h, b, k, i + 1);
    FreedAt(h, b, k, i);
    if !(i == k && !Down(h, b, k)) {
      var j := Source(h, b, k, i);
      NodesDiffer(h, b, k, j);
      Frees(h, j - 1);
    }
  }

  lemma FreedAt(h: Heap, b: nat, k: nat, i: nat)
    requires Placed(h, b, k) && i < |Freed(h, b, k).blocks|
    ensures Freed(h, b, k).blocks[i] == Node(Freed(h, b, k), i + 1)
  {
    hide Inv, Freed;
  }

  lemma Frees(h: Heap, i: nat)
    requires Inv(h) && i < |h.blocks|
    ensures h.blocks[i] in h.size && h.size[h.blocks[i]] > 0 && h.base < h.blocks[i] == Node(h, i + 1)
  {
    assert FreeOk(h, i);
  }

  /** The gaps survive: what touched b is now one block with it. */
  lemma FreedOrder(h: Heap, b: nat, k: nat, i: nat, j: nat)
    requires Placed(h, b, k) && i < j < |Freed(h, b, k).blocks|
    ensures Gap(Freed(h, b, k), i, j)
  {
    hide Inv, Freed;
    FreedLength(h, b, k);
    Merged(h, b, k);
    Clear(h, b, k);
    BaseBelow(h, b);
    FreedSource(h, b, k, i);
    FreedSource(h, b, k, j);
    var si, sj := Source(h, b, k, i), Source(h, b, k, j);
    NodesDiffer(h, b, k, k);
    if si > 0 { NodesDiffer(h, b, k, si); if si < sj { Gaps(h, si, sj); } if si < k { Gaps(h, si, k); } }
    if sj > 0 {
      NodesDiffer(h, b, k, sj);
      if 0 < k < sj { Gaps(h, k, sj); }
      if k + 1 < sj { Gaps(h, k + 1, sj); }
    }
  }

  lemma Gaps(h: Heap, i: nat, j: nat)
    requires Inv(h) && 0 < i < j <= |h.blocks|
    ensures Node(h, i) in h.size && Node(h, i) + h.size[Node(h, i)] < Node(h, j)
  {
    assert FreeOk(h, i - 1) && Gap(h, i - 1, j - 1);
  }

  /** Freeing keeps the list circular, ordered and fully coalesced, and every unit in one block. */
  lemma FreedInv(h: Heap, b: nat, k: nat)
    requires Placed(h, b, k)
    ensures Inv(Freed(h, b, k)) && Freed(h, b, k).own.Keys == h.own.Keys && Freed(h, b, k).live == h.live - {b}
  {
    hide Inv, Freed, LinkOk, FreeOk, Gap, LiveOk, UnitOk, CoverOk;
    var h' := Freed(h, b, k);
    FreedBase(h, b, k);
    forall i: nat ensures LinkOk(h', i) { FreedLink(h, b, k, i); }
    forall i: nat ensures FreeOk(h', i) { FreedGap(h, b, k, i, i); }
    forall i: nat, j: nat ensures Gap(h', i, j) { FreedGap(h, b, k, i, j); }
    forall a: nat ensures LiveOk(h', a) { FreedLive(h, b, k, a); }
    forall u: nat ensures UnitOk(h', u) && (u in h'.own <==> u in h.own) {
      FreedUnit(h, b, k, u); FreedOwn(h, b, k, u);
    }
    forall a: nat, u: nat ensures CoverOk(h', a, u) { FreedCover(h, b, k, a, u); }
    Built(h');
  }

  lemma Built(h: Heap)
    requires h.base in h.size && h.size[h.base] == 0
    requires (forall i: nat {:trigger LinkOk(h, i)} :: LinkOk(h, i))
    requires (forall i: nat {:trigger FreeOk(h, i)} :: FreeOk(h, i))
    requires (forall i: nat, j: nat {:trigger Gap(h, i, j)} :: Gap(h, i, j))
    requires (forall a: nat {:trigger LiveOk(h, a)} :: LiveOk(h, a))
    requires (forall u: nat {:trigger UnitOk(h, u)} :: UnitOk(h, u))
    requires (forall a: nat, u: nat {:trigger CoverOk(h, a, u)} :: CoverOk(h, a, u))
    ensures Inv(h)
  {
  }

  lemma FreedBase(h: Heap, b: nat, k: nat)
    requires Placed(h, b, k)
    ensures var h' := Freed(h, b, k);
            h'.base == h.base && h'.base in h'.size && h'.size[h'.base] == 0 && h'.live == h.live - {b}
  {
    hide Inv, Freed;
    Merged(h, b, k);
    FreedOwn(h, b, k, 0);
    BaseBelow(h, b);
    FreedNode(h, b, k, 0);
    if Down(h, b, k) { Frees(h, k - 1); }
  }

  // ---- malloc ----

  /** Take the whole free block k (counting from 1): lines 76-77. */
  ghost function Took(h: Heap, k: nat): Heap
    requires Inv(h) && 0 < k <= |h.blocks|
  {
    Frees(h, k - 1);
    var p := Node(h, k);
    h.(ptr := h.ptr[Node(h, k - 1) := Node(h, k + 1)], blocks := h.blocks[..k - 1] + h.blocks[k..],
       live := h.live[p := h.size[p]])
  }

  lemma TookInv(h: Heap, k: nat)
    requires Inv(h) && 0 < k <= |h.blocks|
    ensures Inv(Took(h, k))
  {
    var h', p := Took(h, k), Node(h, k);
    Frees(h, k - 1);
    forall a ensures a in h'.blocks <==> a in h.blocks && a != p {
      assert h.blocks == h.blocks[..k - 1] + [p] + h.blocks[k..];
      forall i | 0 <= i < |h.blocks| && i != k - 1 ensures h.blocks[i] != p {
        if i < k - 1 { Ordered(h, i + 1, k); } else { Ordered(h, k, i + 1); }
      }
    }
    forall i: nat ensures LinkOk(h', i) { TookLink(h, k, i); }
    forall i: nat ensures FreeOk(h', i) { assert FreeOk(h, if i < k - 1 then i else i + 1); }
    forall i: nat, j: nat ensures Gap(h', i, j) {
      assert Gap(h, if i < k - 1 then i else i + 1, if j < k - 1 then j else j + 1);
    }
    forall a: nat ensures LiveOk(h', a) { assert LiveOk(h, a); }
    forall u: nat ensures UnitOk(h', u) { assert UnitOk(h, u); }
    forall a: nat, u: nat ensures CoverOk(h', a, u) { assert CoverOk(h, a, u); }
  }

  lemma TookLink(h: Heap, k: nat, i: nat)
    requires Inv(h) && 0 < k <= |h.blocks|
    ensures LinkOk(Took(h, k), i)
  {
    hide Inv;
    if i < |h.blocks| {
      Links(h, if i < k then i else i + 1);
      if i < k - 1 { Ordered(h, i, k - 1); } else if i > k - 1 { Ordered(h, k - 1, i + 1); }
    }
  }

  /** Carve n units off the end of free block k: lines 79-81. */
  ghost function Split(h: Heap, k: nat, n: nat): Heap
    requires Inv(h) && 0 < k <= |h.blocks| && Node(h, k) in h.size && 0 < n < h.size[Node(h, k)]
  {
    var p := Node(h, k);
    var q := p + (h.size[p] - n);
    h.(size := h.size[p := h.size[p] - n][q := n], live := h.live[q := n],
       own := Retagged(h.own, q, n))
  }

  /** The n units from q on made a block of their own. */
  function Retagged(own: map<nat, nat>, q: nat, n: nat): map<nat, nat> {
    map u | u in own :: if q <= u < q + n then q else own[u]
  }

  lemma SplitInv(h: Heap, k: nat, n: nat)
    requires Inv(h) && 0 < k <= |h.blocks| && Node(h, k) in h.size && 0 < n < h.size[Node(h, k)]
    ensures Inv(Split(h, k, n))
    ensures var q := Node(h, k) + (h.size[Node(h, k)] - n); q !in h.live && q !in h.blocks && q != h.base
  {
    var h', p := Split(h, k, n), Node(h, k);
    var q := p + (h.size[p] - n);
    Frees(h, k - 1);
    assert CoverOk(h, p, q) && CoverOk(h, q, q);
    assert LiveOk(h, q);
    NotFree(h, q, p);
    forall i: nat ensures LinkOk(h', i) { assert LinkOk(h, i); }
    forall i: nat ensures FreeOk(h', i) { assert FreeOk(h, i); }
    forall i: nat, j: nat ensures Gap(h', i, j) { assert Gap(h, i, j); }
    forall a: nat ensures LiveOk(h', a) { assert LiveOk(h, a) && LiveOk(h, p); }
    forall u: nat ensures UnitOk(h', u) { assert UnitOk(h, u) && CoverOk(h, p, u); }
    forall a: nat, u: nat ensures CoverOk(h', a, u) { assert CoverOk(h, a, u) && CoverOk(h, p, u); }
  }

  /** A unit in the middle of a block is no block of its own. */
  lemma NotFree(h: Heap, q: nat, p: nat)
    requires Inv(h) && q in h.own && h.own[q] == p && q != p
    ensures q !in h.blocks && q !in h.live
  {
    assert CoverOk(h, q, q) && LiveOk(h, q);
    if i :| 0 <= i < |h.blocks| && h.blocks[i] == q { assert FreeOk(h, i); }
  }

  /** A fresh area of n units at c, as one block in use: lines 57-58. */
  ghost function Grown(h: Heap, c: nat, n: nat): Heap {
    h.(size := h.size[c := n], live := h.live[c := n], own := Area(c, n) + h.own)
  }

  /** Units c .. c + n - 1, all of block c. */
  ghost function Area(c: nat, n: nat): map<nat, nat> {
    if n == 0 then map[] else Area(c, n - 1)[c + n - 1 := c]
  }

  lemma {:induction false} AreaUnits(c: nat, n: nat, u: nat)
    ensures u in Area(c, n) <==> c <= u < c + n
    ensures u in Area(c, n) ==> Area(c, n)[u] == c
  {
    if n > 0 { AreaUnits(c, n - 1, u); }
  }

  lemma GrownInv(h: Heap, c: nat, n: nat)
    requires Inv(h) && n > 0 && h.base < c && forall u :: u in h.own ==> u < c
    ensures Inv(Grown(h, c, n)) && c !in h.live && c !in h.blocks
  {
    var h' := Grown(h, c, n);
    assert LiveOk(h, c) && CoverOk(h, c, c);
    forall i | 0 <= i < |h.blocks| ensures h.blocks[i] in h.own {
      assert FreeOk(h, i) && CoverOk(h, h.blocks[i], h.blocks[i]);
    }
    forall i: nat ensures LinkOk(h', i) { assert LinkOk(h, i); }
    forall i: nat ensures FreeOk(h', i) { assert FreeOk(h, i); }
    forall i: nat, j: nat ensures Gap(h', i, j) { assert Gap(h, i, j); }
    forall a: nat ensures LiveOk(h', a) { assert LiveOk(h, a); }
    forall u: nat ensures UnitOk(h', u) { assert UnitOk(h, u); AreaUnits(c, n, u); }
    forall a: nat, u: nat ensures CoverOk(h', a, u) { assert CoverOk(h, a, u); AreaUnits(c, n, u); }
  }

  // ---- The allocator ----

  ghost predicate OnRing(h: Heap, p: nat, i: nat) { i <= |h.blocks| && p == Node(h, i) }

  lemma RingFacts(h: Heap, i: nat)
    requires Inv(h) && i <= |h.blocks|
    ensures Node(h, i) in h.ptr && Node(h, i) in h.size && h.ptr[Node(h, i)] == Node(h, i + 1)
    ensures if i < |h.blocks| then Node(h, i) < Node(h, i + 1) else Node(h, i + 1) == h.base && h.base <= Node(h, i)
    ensures h.base <= Node(h, i) && (i > 0 ==> h.base < Node(h, i) && h.size[Node(h, i)] > 0)
    ensures h.size[h.base] == 0 && Node(h, i + 1) == Node(h, After(h, i)) && After(h, i) <= |h.blocks|
  {
    Links(h, i);
    QNode(h, i);
    if i < |h.blocks| { Ordered(h, i, i + 1); }
    if i > 0 { Ordered(h, 0, i); Frees(h, i - 1); }
  }

  /** The search test of free, at ring node i, for a block that belongs after node k. */
  lemma SearchStops(h: Heap, b: nat, k: nat, i: nat)
    requires Placed(h, b, k) && i <= |h.blocks|
    ensures var p, q := Node(h, i), Node(h, i + 1);
            (b > p && b < q) || (p >= q && (b > p || b < q)) <==> i == k
  {
    hide Inv;
    RingFacts(h, i);
    BaseBelow(h, b);
    NodesDiffer(h, b, k, i);
    if i < k { Ordered(h, i, k); if i + 1 < k { Ordered(h, i + 1, k); } }
    if k < i { Ordered(h, k, i); if k + 1 < i { Ordered(h, k + 1, i); } }
  }

  class Allocator {
    const base: nat
    var freep: nat               // 0 before the first call
    var ptr: map<nat, nat>
    var size: map<nat, nat>
    ghost var blocks: seq<nat>
    ghost var live: map<nat, nat>
    ghost var own: map<nat, nat>

    ghost function H(): Heap
      reads this
    {
      Heap(base, ptr, size, blocks, live, own)
    }

    ghost predicate Valid()
      reads this
    {
      base > 0 &&
      if freep == 0 then blocks == [] && live == map[] && own == map[]
      else Inv(H()) && exists i: nat :: OnRing(H(), freep, i)
    }

    constructor (base: nat)
      requires base > 0
      ensures Valid() && live == map[] && own == map[] && this.base == base
    {
      this.base, freep, ptr, size, blocks, live, own := base, 0, map[], map[], [], map[], map[];
    }

    /** The search loop of free: from freep round the ring to the node before bp. */
    method FindPrev(bp: nat, ghost k: nat) returns (p: nat)
      requires Valid() && bp in live && Between(H(), bp, k)
      ensures p == Node(H(), k)
    {
      hide Inv;
      ghost var h := H();
      ghost var i: nat :| OnRing(h, freep, i);
      ghost var n := |blocks| + 1;
      p := freep;
      RingFacts(h, i);
      SearchStops(h, bp, k, i);
      while !(bp > p && bp < ptr[p])
        invariant OnRing(h, p, i) && p in ptr && ptr[p] == Node(h, i + 1)
        invariant (bp > p && bp < ptr[p]) || (p >= ptr[p] && (bp > p || bp < ptr[p])) <==> i == k
        decreases if i <= k then k - i else k + n - i
      {
        if p >= ptr[p] && (bp > p || bp < ptr[p]) { break; }
        p := ptr[p];
        i := if i == |blocks| then 0 else i + 1;
        RingFacts(h, i);
        SearchStops(h, bp, k, i);
      }
    }

    /** Lines 33-42: link bp in after p, merging it with the neighbours it touches. */
    method LinkIn(p: nat, bp: nat, ghost k: nat)
      requires Placed(H(), bp, k) && p == Node(H(), k)
      modifies `ptr, `size, `blocks, `live, `own
      ensures H() == Freed(old(H()), bp, k)
    {
      hide Inv, Freed, Node, Up, Down;
      ghost var h := H();
      FreedMaps(h, bp, k);
      var q := ptr[p];
      if bp + size[bp] == q {
        size, ptr := size[bp := size[bp] + size[q]], ptr[bp := ptr[q]];
      } else {
        ptr := ptr[bp := q];
      }
      if p + size[p] == bp {
        size, ptr := size[p := size[p] + size[bp]], ptr[p := ptr[bp]];
      } else {
        ptr := ptr[p := bp];
      }
      ghost var h' := Freed(h, bp, k);
      blocks, live, own := h'.blocks, h'.live, h'.own;
    }

    /** Return a block to the free list. */
    method Free(ap: nat) returns (ghost k: nat)
      requires Valid() && ap > 0 && ap - 1 in live
      modifies this
      ensures Valid() && freep != 0 && live == old(live) - {ap - 1} && own.Keys == old(own.Keys)
      ensures Placed(old(H()), ap - 1, k) && H() == Freed(old(H()), ap - 1, k)
      ensures k <= |blocks| && freep == Node(H(), k)
    {
      hide Inv, Freed, Up, Down;
      var bp := ap - 1;
      ghost var h := H();
      k := FindPlace(h, bp);
      var p := FindPrev(bp, k);
      LinkIn(p, bp, k);
      freep := p;
      FreedInv(h, bp, k);
      FreedMaps(h, bp, k);
      FreedNode(h, bp, k, k);
      RingFacts(h, k);
      BaseBelow(h, bp);
      assert OnRing(H(), freep, k);
    }

    /** Get at least nu units from sbrk, which answers with a fresh area or fails, and free them. `overrun`
        says that sbrk, whose argument is an int, was asked for less than the units recorded, and granted
        it: what the code does to memory from there on is not modelled. */
    method Morecore(nu: nat, core: Option<nat>) returns (ok: bool, overrun: bool)
      requires Valid() && freep != 0 && 0 < nu && Fresh(H(), core)
      modifies this
      ensures overrun <==> core.Some? && SbrkArg(CoreUnits(nu)) != HEADER * CoreUnits(nu)
      ensures Valid() && freep != 0 && ok == (core.Some? && !overrun) && live == old(live)
      ensures !ok ==> H() == old(H()) && freep == old(freep)
      ensures ok ==> own.Keys == old(own.Keys) + Area(core.value, CoreUnits(nu)).Keys
      ensures ok ==> exists y: nat :: Large(H(), y, nu)
    {
      hide Inv, Freed, Area, SbrkArg;
      var n := CoreUnits(nu);
      if core.None? { return false, false; }
      if SbrkArg(n) != HEADER * n { return false, true; }
      var hp := core.value;
      ghost var h := H();
      GrownInv(h, hp, n);
      size := size[hp := n];
      live, own := live[hp := n], Area(hp, n) + own;
      ghost var g := H();
      assert g == Grown(h, hp, n);
      GrownRing(h, hp, n, freep);
      ghost var k := Free(hp + 1);
      BecomesLarge(g, hp, k, nu);
      assert own.Keys == old(own.Keys) + Area(hp, n).Keys;
      assert live == old(live);
      return true, false;
    }

    /** morecore where malloc's scan has come back to freep, and the scan starting anew. */
    method Refill(nunits: nat, core: Option<nat>) returns (ok: bool, overrun: bool, ghost f: nat)
      requires Valid() && freep != 0 && 0 < nunits && Fresh(H(), core)
      modifies this
      ensures overrun <==> core.Some? && SbrkArg(CoreUnits(nunits)) != HEADER * CoreUnits(nunits)
      ensures Valid() && freep != 0 && ok == (core.Some? && !overrun) && live == old(live)
      ensures !ok ==> H() == old(H()) && freep == old(freep)
      ensures ok ==> own.Keys == old(own.Keys) + Area(core.value, CoreUnits(nunits)).Keys
      ensures ok ==> (exists y: nat :: Large(H(), y, nunits)) && OnRing(H(), freep, f) && NoneLarge(H(), f, f, nunits)
      ensures ok ==> freep in ptr && OnRing(H(), ptr[freep], After(H(), f))
    {
      hide Inv, Node, Fresh, Area, NoneLarge, Large, CoreUnits, SbrkArg;
      f := 0;
      ok, overrun := Morecore(nunits, core);
      if ok {
        f :| OnRing(H(), freep, f);
        RingFacts(H(), f);
        NonePassed(H(), f, nunits);
      }
    }

    /** Lines 76-77: a free block that fits exactly leaves the ring. */
    method TakeWhole(prevp: nat, p: nat, ghost j: nat)
      requires Valid() && freep != 0 && 0 < j <= |blocks| && p == Node(H(), j) && prevp == Node(H(), j - 1)
      requires p in size && p in ptr
      modifies this
      ensures Valid() && freep == prevp && H() == Took(old(H()), j)
    {
      hide Inv, Node;
      ghost var h := H();
      RingFacts(h, j);
      RingFacts(h, j - 1);
      TookInv(h, j);
      TookRing(h, j);
      ptr := ptr[prevp := ptr[p]];
      blocks, live := blocks[..j - 1] + blocks[j..], live[p := size[p]];
      freep := prevp;
      assert OnRing(H(), freep, j - 1);
    }

    /** Lines 79-81: a larger one gives its tail, which becomes a block of its own. */
    method TakeTail(prevp: nat, p: nat, nunits: nat, ghost j: nat) returns (q: nat)
      requires Valid() && freep != 0 && 0 < j <= |blocks| && p == Node(H(), j) && prevp == Node(H(), j - 1)
      requires p in size && 0 < nunits < size[p]
      modifies this
      ensures Valid() && freep == prevp && H() == Split(old(H()), j, nunits) && q == p + (old(size[p]) - nunits)
    {
      hide Inv, Node;
      ghost var h := H();
      RingFacts(h, j - 1);
      SplitInv(h, j, nunits);
      SplitRing(h, j, nunits);
      size := size[p := size[p] - nunits];
      q := p + size[p];
      size := size[q := nunits];
      live, own := live[q := nunits], Retagged(own, q, nunits);
      freep := prevp;
      assert OnRing(H(), freep, j - 1);
    }

    /** Lines 76-84: serve nunits from the free block p, which is ring node j, after prevp. */
    method Carve(prevp: nat, p: nat, nunits: nat, ghost j: nat) returns (ap: nat)
      requires Valid() && freep != 0 && 0 < j <= |blocks| && p == Node(H(), j) && prevp == Node(H(), j - 1)
      requires p in size && 0 < nunits <= size[p]
      modifies this
      ensures Valid() && freep != 0 && own.Keys == old(own.Keys)
      ensures ap > 0 && ap - 1 !in old(live) && live == old(live)[ap - 1 := nunits]
    {
      hide Inv, Node;
      ghost var h := H();
      RingFacts(h, j);
      RingFacts(h, j - 1);
      if size[p] == nunits {
        TookRing(h, j);
        TakeWhole(prevp, p, j);
        ap := p + 1;
      } else {
        SplitInv(h, j, nunits);
        var q := TakeTail(prevp, p, nunits, j);
        assert own.Keys == old(own.Keys);
        ap := q + 1;
      }
    }

    /** Lines 70-73: the empty ring on the first call. */
    method Start()
      requires Valid()
      modifies `freep, `ptr, `size
      ensures Valid() && freep != 0
      ensures old(freep) != 0 ==> H() == old(H()) && freep == old(freep)
    {
      if freep == 0 {
        ptr, size, freep := map[base := base], map[base := 0], base;
        EmptyInv(H());
        assert OnRing(H(), freep, 0);
      }
    }

    /** malloc's search loop. */
    method Serve(nunits: nat, core: Option<nat>) returns (ap: nat, overrun: bool, ghost cores: nat)
      requires Valid() && freep != 0 && 0 < nunits && Fresh(H(), core)
      modifies this
      ensures Valid() && cores <= 1
      ensures overrun <==> cores == 1 && core.Some? && SbrkArg(CoreUnits(nunits)) != HEADER * CoreUnits(nunits)
      ensures overrun || ap == 0 ==> cores == 1 && live == old(live) && own.Keys == old(own.Keys)
      ensures !overrun && ap == 0 ==> core.None?
      ensures !overrun && ap > 0 ==> ap - 1 !in old(live) && live == old(live)[ap - 1 := nunits]
      ensures cores == 0 || core.None? ==> own.Keys == old(own.Keys)
      ensures !overrun && cores == 1 && core.Some? ==>
                own.Keys == old(own.Keys) + Area(core.value, CoreUnits(nunits)).Keys
      ensures cores == 1 ==> forall y: nat :: !Large(old(H()), y, nunits)
    {
      hide Inv, Node, Fresh, Area, NoneLarge, Large, CoreUnits, SbrkArg;
      ghost var h0, was := H(), live;
      ghost var keys := if core.Some? then own.Keys + Area(core.value, CoreUnits(nunits)).Keys else own.Keys;
      ghost var f: nat :| OnRing(H(), freep, f);
      ghost var i: nat := f;
      overrun, cores := false, 0;
      NonePassed(H(), f, nunits);
      var prevp := freep;
      RingFacts(H(), f);
      var p := ptr[prevp];
      while true
        invariant Valid() && freep != 0 && live == was && cores <= 1 && !overrun
        invariant cores == 0 ==> H() == h0
        invariant cores == 1 ==>
                  core.Some? && SbrkArg(CoreUnits(nunits)) == HEADER * CoreUnits(nunits) && own.Keys == keys
        invariant cores == 1 ==> (exists y: nat :: Large(H(), y, nunits)) && forall y: nat :: !Large(h0, y, nunits)
        invariant OnRing(H(), freep, f) && OnRing(H(), prevp, i) && OnRing(H(), p, After(H(), i))
        invariant NoneLarge(H(), f, i, nunits)
        decreases 1 - cores, if i >= f then f + |blocks| - i else f - 1 - i
      {
        ghost var j: nat := After(H(), i);
        RingFacts(H(), j);
        if size[p] >= nunits {
          PositiveNode(H(), j, nunits);
          ap := Carve(prevp, p, nunits, j);
          return;
        }
        NotLarge(H(), j, nunits);
        SameNode(H(), f, j);
        if p == freep {
          AllPassed(H(), f, i, nunits);
          var ok;
          ok, overrun, f := Refill(nunits, core);
          cores := 1;
          if !ok { return 0, overrun, cores; }
          p, i := freep, f;
        } else {
          PassedNext(H(), f, i, nunits);
          i := j;
        }
        prevp, p := p, ptr[p];
      }
    }

    /** The block for a request of nbytes, or 0 when sbrk fails. sbrk is asked at most once, and only when
        no free block is large enough. */
    method Malloc(nbytes: Uint, core: Option<nat>) returns (ap: nat, overrun: bool, ghost cores: nat)
      requires Valid() && Fresh(H(), core)
      modifies this
      ensures Valid() && cores <= 1
      ensures overrun <==> cores == 1 && core.Some? && nbytes > MAXREQUEST
      ensures overrun || ap == 0 ==> cores == 1 && live == old(live) && own.Keys == old(own.Keys)
      ensures !overrun && ap == 0 ==> core.None?
      ensures !overrun && ap > 0 ==> ap - 1 !in old(live) && live == old(live)[ap - 1 := Units(nbytes)]
      ensures cores == 0 || core.None? ==> own.Keys == old(own.Keys)
      ensures !overrun && cores == 1 && core.Some? ==>
                own.Keys == old(own.Keys) + Area(core.value, CoreUnits(Units(nbytes))).Keys
      ensures cores == 1 && old(freep) != 0 ==> forall y: nat :: !Large(old(H()), y, Units(nbytes))
    {
      hide Inv, Node, Fresh, Area, NoneLarge, Large, Units, CoreUnits, SbrkArg;
      var nunits := Units(nbytes);
      UnitsPositive(nbytes);
      SbrkExact(nbytes);
      StartFresh(H(), core);
      Start();
      ap, overrun, cores := Serve(nunits, core);
    }
  }

  /** What morecore asks sbrk for. */
  function CoreUnits(nu: nat): nat { if nu < 4096 then 4096 else nu }

  /** Header units for a request: line 69. */
  function Units(nbytes: nat): nat { (nbytes + HEADER - 1) / HEADER + 1 }

  /** What becomes of n units' worth of bytes as sbrk's int argument. */
  function SbrkArg(n: nat): int {
    var x := n * HEADER % 0x1_0000_0000;
    if x < 0x8000_0000 then x else x - 0x1_0000_0000
  }

  /** The largest request that sbrk can be asked for. */
  const MAXREQUEST: nat := 0x7fff_ffe0

  /** The int argument is right exactly up to MAXREQUEST; beyond, sbrk is asked for less than will be recorded,
      down to a negative amount. */
  lemma SbrkExact(nbytes: Uint)
    ensures SbrkArg(CoreUnits(Units(nbytes))) == HEADER * CoreUnits(Units(nbytes)) <==> nbytes <= MAXREQUEST
    ensures nbytes > MAXREQUEST ==> SbrkArg(CoreUnits(Units(nbytes))) < HEADER * CoreUnits(Units(nbytes))
  {
    UnitsPositive(nbytes);
  }

  /** A request just beyond: sbrk is asked to take memory away. */
  lemma SbrkShrinks()
    ensures Units(0x7fff_ffe1) == 0x800_0000 && SbrkArg(CoreUnits(Units(0x7fff_ffe1))) == -0x8000_0000
  {
  }

  /** Enough units for the header and the bytes, and not one more than needed. */
  lemma UnitsPositive(nbytes: nat)
    ensures Units(nbytes) > 0 && nbytes + HEADER <= Units(nbytes) * HEADER < nbytes + 2 * HEADER
  {
  }

  lemma EmptyInv(h: Heap)
    requires h.blocks == [] && h.live == map[] && h.own == map[] && h.ptr == map[h.base := h.base]
    requires h.size == map[h.base := 0]
    ensures Inv(h)
  {
    forall i: nat ensures LinkOk(h, i) {}
  }

  lemma StartFresh(h: Heap, core: Option<nat>)
    requires Fresh(h, core)
    ensures forall h': Heap :: h'.own.Keys == h.own.Keys && h'.base == h.base ==> Fresh(h', core)
  {
  }

  ghost function After(h: Heap, i: nat): nat { if i >= |h.blocks| then 0 else i + 1 }

  /** Ring positions passed on the way from f (exclusive) to i. */
  ghost predicate Passed(f: nat, i: nat, x: nat) { if i >= f then f < x <= i else x > f || x <= i }

  ghost predicate NoneLarge(h: Heap, f: nat, i: nat, n: nat) {
    forall x: nat {:trigger Passed(f, i, x)} :: x <= |h.blocks| && Passed(f, i, x) ==> !Large(h, x, n)
  }

  lemma NonePassed(h: Heap, f: nat, n: nat)
    ensures NoneLarge(h, f, f, n)
  {
  }

  lemma PassedNext(h: Heap, f: nat, i: nat, n: nat)
    requires f <= |h.blocks| && i <= |h.blocks| && NoneLarge(h, f, i, n) && !Large(h, After(h, i), n)
    requires After(h, i) != f
    ensures NoneLarge(h, f, After(h, i), n)
  {
    var j := After(h, i);
    forall x: nat | x <= |h.blocks| && Passed(f, j, x) ensures !Large(h, x, n) { assert x == j || Passed(f, i, x); }
  }

  lemma PositiveNode(h: Heap, j: nat, n: nat)
    requires Inv(h) && j <= |h.blocks| && n > 0 && Node(h, j) in h.size && h.size[Node(h, j)] >= n
    ensures j > 0
  {
  }

  lemma NotLarge(h: Heap, j: nat, n: nat)
    requires Node(h, j) in h.size && h.size[Node(h, j)] < n
    ensures !Large(h, j, n)
  {
  }

  lemma SameNode(h: Heap, f: nat, j: nat)
    requires Inv(h) && f <= |h.blocks| && j <= |h.blocks|
    ensures Node(h, f) == Node(h, j) <==> f == j
  {
    if f < j { Ordered(h, f, j); } else if j < f { Ordered(h, j, f); }
  }

  lemma AllPassed(h: Heap, f: nat, i: nat, n: nat)
    requires f <= |h.blocks| && i <= |h.blocks| && After(h, i) == f && !Large(h, f, n)
    requires NoneLarge(h, f, i, n)
    ensures forall y: nat :: !Large(h, y, n)
  {
    forall y: nat ensures !Large(h, y, n) { assert y <= |h.blocks| && y != f ==> Passed(f, i, y); }
  }

  /** What sbrk may return: memory above everything it returned before. */
  ghost predicate Fresh(h: Heap, core: Option<nat>) {
    core.Some? ==> h.base < core.value && forall u :: u in h.own ==> u < core.value
  }

  ghost predicate Large(h: Heap, y: nat, n: nat) {
    0 < y <= |h.blocks| && Node(h, y) in h.size && h.size[Node(h, y)] >= n
  }

  lemma GrownRing(h: Heap, c: nat, n: nat, p: nat)
    requires exists i: nat :: OnRing(h, p, i)
    ensures exists i: nat :: OnRing(Grown(h, c, n), p, i)
  {
    var i: nat :| OnRing(h, p, i);
    assert OnRing(Grown(h, c, n), p, i);
  }

  lemma BecomesLarge(h: Heap, b: nat, k: nat, n: nat)
    requires Placed(h, b, k) && b in h.size && h.size[b] >= n
    ensures exists y: nat :: Large(Freed(h, b, k), y, n)
  {
    hide Inv, Freed;
    Merged(h, b, k);
    var h' := Freed(h, b, k);
    var m := if Down(h, b, k) then Node(h, k) else b;
    var i :| 0 <= i < |h'.blocks| && h'.blocks[i] == m;
    QNode(h, k);
    assert Large(h', i + 1, n);
  }

  lemma TookRing(h: Heap, k: nat)
    requires Inv(h) && 0 < k <= |h.blocks|
    ensures Node(h, k - 1) == Node(Took(h, k), k - 1) && |Took(h, k).blocks| == |h.blocks| - 1 && Node(h, k) !in h.live
  {
    hide Inv;
    Frees(h, k - 1);
    Lives(h, Node(h, k));
  }

  lemma SplitRing(h: Heap, k: nat, n: nat)
    requires Inv(h) && 0 < k <= |h.blocks| && Node(h, k) in h.size && 0 < n < h.size[Node(h, k)]
    ensures Node(h, k - 1) == Node(Split(h, k, n), k - 1)
  {
  }

  /** The maps of Freed, as the code computes them. */
  lemma FreedMaps(h: Heap, b: nat, k: nat)
    requires Placed(h, b, k)
    ensures var p, q := Node(h, k), Node(h, k + 1);
            b in h.size && p in h.size && q in h.size && p in h.ptr && q in h.ptr && p != b && h.ptr[p] == q
    ensures var h', p, q := Freed(h, b, k), Node(h, k), Node(h, k + 1);
            var size1 := if b + h.size[b] == q then h.size[b := h.size[b] + h.size[q]] else h.size;
            var ptr1 := if b + h.size[b] == q then h.ptr[b := h.ptr[q]] else h.ptr[b := q];
            && h'.size == (if p + size1[p] == b then size1[p := size1[p] + size1[b]] else size1)
            && h'.ptr == (if p + size1[p] == b then ptr1[p := ptr1[b]] else ptr1[p := b])
            && h'.base == h.base && k <= |h'.blocks|
  {
    hide Inv;
    QNode(h, k);
    Links(h, k);
    BaseBelow(h, b);
    NodesDiffer(h, b, k, k);
    FreedNode(h, b, k, 0);
  }

  // ---- What the invariant means ----

  /** Blocks, in use or free, never overlap. */
  lemma BlocksApart(h: Heap, a: nat, b: nat)
    requires Inv(h) && IsBlock(h, a) && IsBlock(h, b) && a < b
    ensures a + h.size[a] <= b
  {
    if b in h.blocks { var i: nat :| i < |h.blocks| && h.blocks[i] == b; assert FreeOk(h, i); }
    assert LiveOk(h, b) && CoverOk(h, a, b) && CoverOk(h, b, b);
  }

  /** Every unit of the heap is in exactly one block, and every unit of a block is in the heap. */
  lemma UnitsConserved(h: Heap, u: nat)
    requires Inv(h)
    ensures u in h.own <==> exists a: nat :: Within(h, a, u)
    ensures forall a: nat, b: nat :: Within(h, a, u) && Within(h, b, u) ==> a == b
  {
    assert UnitOk(h, u);
    if u in h.own { assert Within(h, h.own[u], u); }
    forall a: nat, b: nat | Within(h, a, u) && Within(h, b, u) ensures a == b && u in h.own {
      assert CoverOk(h, a, u) && CoverOk(h, b, u);
    }
    if a: nat :| Within(h, a, u) { assert CoverOk(h, a, u); }
  }

  ghost predicate Within(h: Heap, a: nat, u: nat) { IsBlock(h, a) && a <= u < a + h.size[a] }

  datatype Op =
    | Alloc(nbytes: Uint, gap: nat, fail: bool)   // malloc; if asked, sbrk fails or returns memory gap units above
    | Release(k: nat)                            // free of the k-th block handed out and not yet freed

  /** Every sequence of malloc and valid free keeps the list circular, ordered and coalesced, live blocks
      disjoint from it and from each other, and every unit in one block; both loops terminate throughout. */
  method Run(a: Allocator, ops: seq<Op>, brk: nat) returns (held: seq<nat>)
    requires a.Valid() && a.live == map[] && a.base < brk && forall u :: u in a.own ==> u < brk
    modifies a
    ensures a.Valid() && Distinct(held) && forall x :: x in held <==> x in a.live
  {
    hide Inv, Area;
    held := [];
    var top := brk;
    for n := 0 to |ops|
      invariant a.Valid() && Distinct(held) && (forall x :: x in held <==> x in a.live)
      invariant a.base < top && forall u :: u in a.own ==> u < top
    {
      match ops[n]
      case Alloc(nbytes, gap, fail) =>
        ghost var before := a.own;
        var ap, overrun; ghost var cores;
        ap, overrun, cores := a.Malloc(nbytes, if fail then None else Some(top + gap));
        if overrun { return; }
        Above(before, a.own, top, gap, CoreUnits(Units(nbytes)));
        top := top + gap + CoreUnits(Units(nbytes));
        if ap > 0 { held := held + [ap - 1]; }
      case Release(k) =>
        if k < |held| {
          assert held[k] in held;
          ghost var place := a.Free(held[k] + 1);
          DropKeeps(held, k);
          held := held[..k] + held[k + 1..];
        }
    }
  }

  lemma DropKeeps(s: seq<nat>, k: nat)
    requires Distinct(s) && k < |s|
    ensures Distinct(s[..k] + s[k + 1..]) && forall x :: x in s[..k] + s[k + 1..] <==> x in s && x != s[k]
  {
    var r := s[..k] + s[k + 1..];
    assert forall j :: 0 <= j < |r| ==> r[j] == if j < k then s[j] else s[j + 1];
    forall x | x in s && x != s[k] ensures x in r {
      var i :| 0 <= i < |s| && s[i] == x;
      assert x == r[if i < k then i else i - 1];
    }
  }

  lemma Above(own: map<nat, nat>, own': map<nat, nat>, top: nat, gap: nat, n: nat)
    requires (forall u :: u in own ==> u < top)
    requires (own'.Keys == own.Keys || own'.Keys == own.Keys + Area(top + gap, n).Keys)
    ensures forall u :: u in own' ==> u < top + gap + n
  {
    forall u | u in own' ensures u < top + gap + n { AreaUnits(top + gap, n, u); }
  }
}
