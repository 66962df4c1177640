/** The buffer cache of kernel/bio.c: NBUF buffers on a doubly linked list, most recently used
    first, with the list kept in the prev and next fields exactly as the kernel keeps it. */
module BufferCache {
  import opened Basics

  const NBUF: nat := 30
  const HEAD: nat := NBUF    // bcache.head, the list's sentinel

  datatype Key = Key(dev: Uint, blockno: Uint)

  datatype Buf<D> = Buf(key: Key, valid: bool, refcnt: nat, data: D)

  // ---- The doubly linked list ----

  /** Following next from the sentinel visits `order` and returns; prev is the way back. */
  predicate Ring(next: seq<nat>, prev: seq<nat>, order: seq<nat>) {
    && |next| == |prev| == NBUF + 1
    && Distinct(order)
    && (forall i :: 0 <= i < |order| ==> order[i] < NBUF)
    && var r := [HEAD] + order + [HEAD];
       forall i :: 0 <= i <= |order| ==> next[r[i]] == r[i + 1] && prev[r[i + 1]] == r[i]
  }

  function Without(order: seq<nat>, k: nat): seq<nat>
    requires k < |order|
  {
    order[..k] + order[k + 1..]
  }

  lemma RingAt(next: seq<nat>, prev: seq<nat>, order: seq<nat>, k: nat)
    requires Ring(next, prev, order) && k < |order|
    ensures next[order[k]] == if k + 1 < |order| then order[k + 1] else HEAD
    ensures prev[order[k]] == if k > 0 then order[k - 1] else HEAD
  {
    var r := [HEAD] + order + [HEAD];
    assert r[k + 1] == order[k] && next[r[k + 1]] == r[k + 2] && prev[r[k + 1]] == r[k];
  }

  lemma RingHead(next: seq<nat>, prev: seq<nat>, order: seq<nat>)
    requires Ring(next, prev, order)
    ensures next[HEAD] == if order == [] then HEAD else order[0]
    ensures prev[HEAD] == if order == [] then HEAD else order[|order| - 1]
  {
    var r := [HEAD] + order + [HEAD];
    assert r[0] == HEAD && next[r[0]] == r[1];
    assert r[|order| + 1] == HEAD && prev[r[|order| + 1]] == r[|order|];
  }

  /** Bypassing a node leaves a ring of the others. */
  lemma UnlinkRing(next: seq<nat>, prev: seq<nat>, order: seq<nat>, k: nat)
    requires Ring(next, prev, order) && k < |order|
    ensures var b := order[k];
            next[b] <= HEAD && prev[b] <= HEAD
            && Ring(next[prev[b] := next[b]], prev[next[b] := prev[b]], Without(order, k))
  {
    var b := order[k];
    RingAt(next, prev, order, k);
    var next', prev', w := next[prev[b] := next[b]], prev[next[b] := prev[b]], Without(order, k);
    var r, r' := [HEAD] + order + [HEAD], [HEAD] + w + [HEAD];
    forall i | 0 <= i <= |w| ensures next'[r'[i]] == r'[i + 1] && prev'[r'[i + 1]] == r'[i] {
      var j := if i <= k then i else i + 1;
      assert r'[i] == r[j];
      assert next[r[j]] == r[j + 1] && prev[r[j + 1]] == r[j];
    }
  }

  /** Linking a new node right after the sentinel leaves a ring that starts with it. */
  lemma PushRing(next: seq<nat>, prev: seq<nat>, order: seq<nat>, b: nat)
    requires Ring(next, prev, order) && b < NBUF && b !in order
    ensures next[HEAD] <= HEAD
            && Ring(next[b := next[HEAD]][HEAD := b], prev[b := HEAD][next[HEAD] := b], [b] + order)
  {
    RingHead(next, prev, order);
    var next', prev', w := next[b := next[HEAD]][HEAD := b], prev[b := HEAD][next[HEAD] := b], [b] + order;
    var r, r' := [HEAD] + order + [HEAD], [HEAD] + w + [HEAD];
    forall i | 0 <= i <= |w| ensures next'[r'[i]] == r'[i + 1] && prev'[r'[i + 1]] == r'[i] {
      if i > 0 {
        assert r'[i + 1] == r[i];
        assert next[r[i - 1]] == r[i] && prev[r[i]] == r[i - 1];
      }
    }
  }

  // ---- The cache as a value, and what each operation makes of it ----

  datatype Cache<D> = Cache(bufs: seq<Buf<D>>, order: seq<nat>)

  /** `order` is a permutation of all buffers. */
  predicate Shaped<D>(c: Cache<D>) {
    && |c.bufs| == NBUF && Distinct(c.order)
    && (forall i :: 0 <= i < |c.order| ==> c.order[i] < NBUF)
    && (forall b :: 0 <= b < NBUF ==> b in c.order)
  }

  /** The first buffer for the key at or after position i of the list. */
  function FirstMatch<D>(bufs: seq<Buf<D>>, order: seq<nat>, key: Key, i: nat): (r: Option<nat>)
    requires i <= |order| && forall j :: 0 <= j < |order| ==> order[j] < |bufs|
    ensures r.Some? ==> r.value < |bufs| && bufs[r.value].key == key
    ensures r.Some? ==> exists k :: i <= k < |order| && order[k] == r.value && forall j :: i <= j < k ==>
              bufs[order[j]].key != key
    ensures r.None? ==> forall j :: i <= j < |order| ==> bufs[order[j]].key != key
    decreases |order| - i
  {
    if i == |order| then None
    else if bufs[order[i]].key == key then Some(order[i])
    else FirstMatch(bufs, order, key, i + 1)
  }

  /** The last unreferenced buffer before position i: the least recently used one. */
  function Victim<D>(bufs: seq<Buf<D>>, order: seq<nat>, i: nat): (r: Option<nat>)
    requires i <= |order| && forall j :: 0 <= j < |order| ==> order[j] < |bufs|
    ensures r.Some? ==> r.value < |bufs| && bufs[r.value].refcnt == 0
    ensures r.Some? ==>
              exists k :: 0 <= k < i && order[k] == r.value && forall j :: k < j < i ==> bufs[order[j]].refcnt > 0
    ensures r.None? ==> forall j :: 0 <= j < i ==> bufs[order[j]].refcnt > 0
  {
    if i == 0 then None
    else if bufs[order[i - 1]].refcnt == 0 then Some(order[i - 1])
    else Victim(bufs, order, i - 1)
  }

  /** bget: reuse the buffer that holds the block, else recycle the victim; None is the panic. */
  function Get<D>(c: Cache<D>, key: Key): Option<(Cache<D>, nat)>
    requires Shaped(c)
  {
    match FirstMatch(c.bufs, c.order, key, 0)
    case Some(b) => Some((Referenced(c, b, 1), b))
    case None =>
      match Victim(c.bufs, c.order, |c.order|)
      case Some(b) => Some((c.(bufs := c.bufs[b := Buf(key, false, 1, c.bufs[b].data)]), b))
      case None => None
  }

  /** bpin and bunpin, and the reference counting of bget and brelse. */
  function Referenced<D>(c: Cache<D>, b: nat, n: int): Cache<D>
    requires b < |c.bufs| && c.bufs[b].refcnt + n >= 0
  {
    c.(bufs := c.bufs[b := c.bufs[b].(refcnt := c.bufs[b].refcnt + n)])
  }

  function Index(order: seq<nat>, b: nat): (k: nat)
    requires b in order
    ensures k < |order| && order[k] == b
  {
    if order[0] == b then 0 else 1 + Index(order[1..], b)
  }

  /** brelse: an unreferenced buffer becomes the most recently used one. */
  function Release<D>(c: Cache<D>, b: nat): Cache<D>
    requires Shaped(c) && b < NBUF && c.bufs[b].refcnt > 0
  {
    var c' := Referenced(c, b, -1);
    if c'.bufs[b].refcnt > 0 then c' else c'.(order := [b] + Without(c.order, Index(c.order, b)))
  }

  lemma ReleaseShaped<D>(c: Cache<D>, b: nat)
    requires Shaped(c) && b < NBUF && c.bufs[b].refcnt > 0
    ensures Shaped(Release(c, b))
  {
    var k := Index(c.order, b);
    var w := [b] + Without(c.order, k);
    forall x | 0 <= x < NBUF ensures x in w {
      var j := Index(c.order, x);
      assert c.order[j] == if j < k then w[j + 1] else if j > k then w[j] else w[0];
    }
  }

  // ---- bio.c's own data structure ----

  class BCache<D(0)> {
    var bufs: seq<Buf<D>>
    var next: seq<nat>
    var prev: seq<nat>
    ghost var order: seq<nat>

    ghost predicate Valid()
      reads this
    {
      Shaped(Value()) && Ring(next, prev, order)
    }

    ghost function Value(): Cache<D>
      reads this
    {
      Cache(bufs, order)
    }

    /** binit */
    constructor (data: D)
      ensures Valid()
      ensures bufs == seq(NBUF, _ => Buf(Key(0, 0), false, 0, data))
      ensures order == seq(NBUF, i => NBUF - 1 - i)
    {
      bufs := seq(NBUF, _ => Buf(Key(0, 0), false, 0, data));
      next, prev := seq(NBUF + 1, _ => HEAD), seq(NBUF + 1, _ => HEAD);
      order := [];
      new;
      var b := 0;
      while b < NBUF
        invariant 0 <= b <= NBUF
        invariant Ring(next, prev, order) && order == seq(b, i requires 0 <= i < b => b - 1 - i)
        invariant bufs == seq(NBUF, _ => Buf(Key(0, 0), false, 0, data))
      {
        PushFront(b);
        assert order == seq(b + 1, i requires 0 <= i < b + 1 => b - i);
        b := b + 1;
      }
      forall x | 0 <= x < NBUF ensures x in order { assert order[NBUF - 1 - x] == x; }
    }

    method PushFront(b: nat)
      requires Ring(next, prev, order) && b < NBUF && b !in order
      modifies this`next, this`prev, this`order
      ensures Ring(next, prev, order) && order == [b] + old(order)
    {
      PushRing(next, prev, order, b);
      next := next[b := next[HEAD]];
      prev := prev[b := HEAD];
      prev := prev[next[HEAD] := b];
      next := next[HEAD := b];
      order := [b] + order;
    }

    method ScanForward(key: Key) returns (r: Option<nat>)
      requires Valid()
      ensures r == FirstMatch(bufs, order, key, 0)
    {
      ghost var i := 0;
      RingHead(next, prev, order);
      var b := next[HEAD];
      while b != HEAD
        invariant 0 <= i <= |order| && b == if i < |order| then order[i] else HEAD
        invariant FirstMatch(bufs, order, key, 0) == FirstMatch(bufs, order, key, i)
        decreases |order| - i
      {
        if bufs[b].key == key { return Some(b); }
        RingAt(next, prev, order, i);
        b, i := next[b], i + 1;
      }
      return None;
    }

    method ScanBackward() returns (r: Option<nat>)
      requires Valid()
      ensures r == Victim(bufs, order, |order|)
    {
      ghost var i := |order|;
      RingHead(next, prev, order);
      var b := prev[HEAD];
      while b != HEAD
        invariant 0 <= i <= |order| && b == if i > 0 then order[i - 1] else HEAD
        invariant Victim(bufs, order, |order|) == Victim(bufs, order, i)
        decreases i
      {
        if bufs[b].refcnt == 0 { return Some(b); }
        RingAt(next, prev, order, i - 1);
        b, i := prev[b], i - 1;
      }
      return None;
    }

    /** bget: a forward scan for the block, then a backward scan for a buffer to recycle. */
    method Bget(key: Key) returns (r: Option<nat>)
      requires Valid()
      modifies this`bufs
      ensures Valid()
      ensures match Get(old(Value()), key)
              case Some((c, b)) => r == Some(b) && Value() == c
              case None => r == None && Value() == old(Value())
    {
      r := ScanForward(key);
      if r.Some? {
        var b := r.value;
        bufs := bufs[b := bufs[b].(refcnt := bufs[b].refcnt + 1)];
        return;
      }
      r := ScanBackward();
      if r.Some? {
        var b := r.value;
        bufs := bufs[b := Buf(key, false, 1, bufs[b].data)];
      }
    }

    method Brelse(b: nat)
      requires Valid() && b < NBUF && bufs[b].refcnt > 0
      modifies this
      ensures Valid() && Value() == Release(old(Value()), b)
    {
      ReleaseShaped(Value(), b);
      bufs := bufs[b := bufs[b].(refcnt := bufs[b].refcnt - 1)];
      if bufs[b].refcnt == 0 {
        ghost var k := Index(order, b);
        RingAt(next, prev, order, k);
        UnlinkRing(next, prev, order, k);
        prev := prev[next[b] := prev[b]];
        next := next[prev[b] := next[b]];
        order := Without(order, k);
        PushFront(b);
      }
    }

    method Bpin(b: nat)
      requires Valid() && b < NBUF
      modifies this`bufs
      ensures Valid() && Value() == Referenced(old(Value()), b, 1)
    {
      bufs := bufs[b := bufs[b].(refcnt := bufs[b].refcnt + 1)];
    }

    method Bunpin(b: nat)
      requires Valid() && b < NBUF && bufs[b].refcnt > 0
      modifies this`bufs
      ensures Valid() && Value() == Referenced(old(Value()), b, -1)
    {
      bufs := bufs[b := bufs[b].(refcnt := bufs[b].refcnt - 1)];
    }
  }
}
