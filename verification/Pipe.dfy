/** The pipe of kernel/pipe.c: a 512-byte ring indexed by two wrapping 32-bit counters. A call runs in
    bursts: what it does between taking the pipe's lock, or waking with it, and sleeping or returning. */
module Pipe {
  import opened Basics

  const PIPESIZE: nat := 512
  const WRAP: nat := 0x1_0000_0000

  /** How a burst ends: the call returns its count, returns -1, or sleeps with the lock released. */
  datatype Outcome = Return | Fail | Sleep

  function Min(a: int, b: int): int { if a <= b then a else b }

  /** How many bytes a call for n asks for; n may be negative. */
  function Asked(n: int): nat { if n < 0 then 0 else n }

  /** `nwrite == nread + PIPESIZE` in unsigned 32-bit arithmetic. */
  predicate FullTest(nread: nat, nwrite: nat) {
    nwrite == (nread + PIPESIZE) % WRAP
  }

  /** The counters wrap, but their comparison is exact: for totals r <= w <= r + PIPESIZE the tests in the
      code mean "full" and "empty", and the difference modulo 2^32 is the number of bytes buffered. */
  lemma CountersExact(r: nat, w: nat)
    requires r <= w <= r + PIPESIZE
    ensures FullTest(r % WRAP, w % WRAP) <==> w - r == PIPESIZE
    ensures r % WRAP == w % WRAP <==> w == r
    ensures (w % WRAP - r % WRAP) % WRAP == w - r
  {
    var a, b := r / WRAP, w / WRAP;
    assert r == WRAP * a + r % WRAP && w == WRAP * b + w % WRAP;
    assert a <= b <= a + 1;
    var d := w - r;
    assert w % WRAP == r % WRAP + d - WRAP * (b - a);
  }

  lemma RingIndex(t: nat)
    ensures t % WRAP % PIPESIZE == t % PIPESIZE && (t % WRAP + 1) % WRAP == (t + 1) % WRAP
  {
    assert t == WRAP * (t / WRAP) + t % WRAP;
    assert WRAP * (t / WRAP) == PIPESIZE * (0x80_0000 * (t / WRAP));
  }

  /** Two different buffered positions use different slots. */
  lemma SlotsDiffer(a: nat, b: nat)
    requires a < b < a + PIPESIZE
    ensures a % PIPESIZE != b % PIPESIZE
  {
    assert a == PIPESIZE * (a / PIPESIZE) + a % PIPESIZE && b == PIPESIZE * (b / PIPESIZE) + b % PIPESIZE;
  }

  /** A pipe as its users see it. */
  datatype Queue = Queue(bytes: seq<Byte>, readopen: bool, writeopen: bool)

  /** How and where a burst of pipewrite ends that found `room` free slots and has written j bytes so far;
      `have` bytes can be read before copyin fails. */
  function WriteEnd(room: nat, readopen: bool, have: nat, n: int, j: nat, killed: nat -> bool): (r: (Outcome, nat))
    ensures j <= r.1 <= j + room && (j <= have ==> r.1 <= have) && (j <= Asked(n) ==> r.1 <= Asked(n))
    decreases n - j
  {
    if j >= n then (Return, j)
    else if !readopen || killed(j) then (Fail, j)
    else if room == 0 then (Sleep, j)
    else if j >= have then (Return, j)
    else WriteEnd(room - 1, readopen, have, n, j + 1, killed)
  }

  /** How a burst of piperead ends and how many bytes it takes; `room` bytes can be stored before copyout fails. */
  function ReadEnd(q: Queue, n: int, room: nat, killed: bool): (r: (Outcome, nat))
    ensures r.1 <= |q.bytes| && (r.0 != Return ==> r.1 == 0)
  {
    if q.bytes == [] && q.writeopen then (if killed then Fail else Sleep, 0)
    else if q.bytes != [] && n > 0 && room == 0 then (Fail, 0)
    else (Return, Min(Asked(n), Min(room, |q.bytes|)))
  }

  /** A burst of process p reading or writing, the closing of an end, or a kill of p. */
  datatype Op =
    | Write(p: nat, src: seq<Byte>, n: int, i: nat, killed: nat -> bool)
    | Read(p: nat, n: int, room: nat, dead: bool)
    | CloseEnd(writable: bool)
    | Kill(p: nat)

  /** A call has written no more than it was asked for and could read. */
  predicate Placed(op: Op) {
    op.Write? ==> op.i <= Asked(op.n) && op.i <= |op.src|
  }

  function End(q: Queue, op: Op): (Outcome, nat)
    requires op.Write? && |q.bytes| <= PIPESIZE
  {
    WriteEnd(PIPESIZE - |q.bytes|, q.readopen, |op.src|, op.n, op.i, op.killed)
  }

  function Advance(q: Queue, op: Op): (r: Queue)
    requires |q.bytes| <= PIPESIZE
    ensures |r.bytes| <= PIPESIZE
  {
    match op
    case Write(_, src, _, i, _) => if Placed(op) then q.(bytes := q.bytes + src[i..End(q, op).1]) else q
    case Read(_, n, room, dead) => q.(bytes := q.bytes[ReadEnd(q, n, room, dead).1..])
    case CloseEnd(writable) => if writable then q.(writeopen := false) else q.(readopen := false)
    case Kill(_) => q
  }

  function Advanced(q: Queue, ops: seq<Op>): (r: Queue)
    requires |q.bytes| <= PIPESIZE
    ensures |r.bytes| <= PIPESIZE
  {
    if ops == [] then q else Advance(Advanced(q, ops[..|ops| - 1]), ops[|ops| - 1])
  }

  class Ring {
    const data: array<Byte>
    var nread: nat
    var nwrite: nat
    var readopen: bool
    var writeopen: bool
    /** All bytes ever put into the pipe and all ever taken from it, in order. */
    ghost var accepted: seq<Byte>
    ghost var consumed: seq<Byte>

    ghost predicate SlotOk(t: nat)
      requires data.Length == PIPESIZE
      reads `consumed, `accepted, data
    {
      |consumed| <= t < |accepted| ==> data[t % PIPESIZE] == accepted[t]
    }

    /** FIFO: what was consumed, followed by what the ring holds, is what was accepted; and at most
        PIPESIZE bytes are held, whatever the counters have wrapped to. */
    ghost predicate Valid()
      reads this, data
    {
      && data.Length == PIPESIZE && consumed <= accepted && |accepted| - |consumed| <= PIPESIZE
      && nread == |consumed| % WRAP && nwrite == |accepted| % WRAP
      && forall t: nat {:trigger SlotOk(t)} :: SlotOk(t)
    }

    ghost function Buffered(): seq<Byte>
      requires consumed <= accepted
      reads `consumed, `accepted
    {
      accepted[|consumed|..]
    }

    ghost function View(): Queue
      requires consumed <= accepted
      reads this
    {
      Queue(Buffered(), readopen, writeopen)
    }

    constructor ()
      ensures Valid() && readopen && writeopen && accepted == [] && consumed == [] && fresh(data)
    {
      data := new Byte[PIPESIZE];
      nread, nwrite, readopen, writeopen := 0, 0, true, true;
      accepted, consumed := [], [];
    }

    /** `data[nwrite++ % PIPESIZE] = ch` */
    method Put(ch: Byte)
      requires Valid() && |accepted| - |consumed| < PIPESIZE
      modifies this`nwrite, this`accepted, data
      ensures Valid() && accepted == old(accepted) + [ch]
    {
      ghost var w := |accepted|;
      RingIndex(w);
      data[nwrite % PIPESIZE] := ch;
      nwrite := (nwrite + 1) % WRAP;
      accepted := accepted + [ch];
      forall t: nat ensures SlotOk(t) {
        assert old(SlotOk(t));
        if |consumed| <= t < w { SlotsDiffer(t, w); }
      }
    }

    /** `ch = data[nread % PIPESIZE]`, and `nread++` once ch is delivered. */
    method Take() returns (ch: Byte)
      requires Valid() && |consumed| < |accepted|
      modifies this`nread, this`consumed
      ensures Valid() && ch == old(Buffered())[0] && consumed == old(consumed) + [ch]
      ensures Buffered() == old(Buffered())[1..]
    {
      RingIndex(|consumed|);
      assert SlotOk(|consumed|);
      ch := data[nread % PIPESIZE];
      nread := (nread + 1) % WRAP;
      consumed := consumed + [ch];
      forall t: nat ensures SlotOk(t) { assert old(SlotOk(t)); }
    }

    /** One burst of pipewrite(addr, n) that has written i bytes so far. `src` is what can be read at addr
        before copyin fails; killed(j) is the flag as found on the turn for byte j. */
    method WriteBurst(src: seq<Byte>, n: int, i: nat, killed: nat -> bool) returns (r: Outcome, j: nat)
      requires Valid() && i <= Asked(n) && i <= |src|
      modifies this`nwrite, this`accepted, data
      ensures Valid() && i <= j <= Asked(n) && j <= |src|
      ensures accepted == old(accepted) + src[i..j] && Buffered() == old(Buffered()) + src[i..j]
      ensures r == Fail <==> j < n && (!readopen || killed(j))
      ensures r == Sleep <==> j < n && readopen && !killed(j) && |Buffered()| == PIPESIZE
      ensures r == Return ==> j == Asked(n) || j == |src|
      ensures (i < j ==> readopen) && forall k: nat :: i <= k < j ==> !killed(k)
      ensures (r, j) == WriteEnd(PIPESIZE - |old(Buffered())|, readopen, |src|, n, i, killed)
    {
      j := i;
      while j < n
        invariant Valid() && i <= j <= Asked(n) && j <= |src| && accepted == old(accepted) + src[i..j]
        invariant (i < j ==> readopen) && forall k: nat :: i <= k < j ==> !killed(k)
        invariant WriteEnd(PIPESIZE - |old(Buffered())|, readopen, |src|, n, i, killed)
                  == WriteEnd(PIPESIZE - |Buffered()|, readopen, |src|, n, j, killed)
      {
        if !readopen || killed(j) { return Fail, j; }
        CountersExact(|consumed|, |accepted|);
        if FullTest(nread, nwrite) { return Sleep, j; }
        if j >= |src| { return Return, j; }
        Put(src[j]);
        j := j + 1;
        assert src[i..j] == src[i..j - 1] + [src[j - 1]];
      }
      return Return, j;
    }

    /** One burst of piperead(addr, n); `room` is how many bytes copyout can store at addr. The bytes
        delivered are the oldest ones buffered. */
    method ReadBurst(n: int, room: nat, killed: bool) returns (r: Outcome, b: seq<Byte>)
      requires Valid()
      modifies this`nread, this`consumed
      ensures Valid() && consumed == old(consumed) + b && b <= old(Buffered()) && Buffered() == old(Buffered())[|b|..]
      ensures r == Sleep <==> old(Buffered()) == [] && writeopen && !killed
      ensures r == Fail <==>
                (old(Buffered()) == [] && writeopen && killed) || (old(Buffered()) != [] && n > 0 && room == 0)
      ensures r == Return ==> |b| == Min(Asked(n), Min(room, |old(Buffered())|))
      ensures r != Return ==> b == []
    {
      b := [];
      CountersExact(|consumed|, |accepted|);
      if nread == nwrite && writeopen {
        return if killed then Fail else Sleep, [];
      }
      ghost var all := Buffered();
      while |b| < n
        invariant Valid() && |b| <= Asked(n) && |b| <= room && consumed == old(consumed) + b
        invariant b <= all && Buffered() == all[|b|..]
      {
        CountersExact(|consumed|, |accepted|);
        if nread == nwrite { break; }
        if |b| >= room {
          if b == [] { return Fail, []; }
          break;
        }
        var ch := Take();
        b := b + [ch];
      }
      return Return, b;
    }

    /** pipeclose of one end. */
    method Close(writable: bool)
      requires Valid()
      modifies this`readopen, this`writeopen
      ensures Valid() && writeopen == (old(writeopen) && !writable) && readopen == (old(readopen) && writable)
    {
      if writable { writeopen := false; } else { readopen := false; }
      forall t: nat ensures SlotOk(t) { assert old(SlotOk(t)); }
    }

    /** One step of a run. */
    method Burst(op: Op) returns (put: seq<Byte>, got: seq<Byte>)
      requires Valid()
      modifies this, data
      ensures Valid() && accepted == old(accepted) + put && consumed == old(consumed) + got
      ensures View() == Advance(old(View()), op)
    {
      put, got := [], [];
      match op
      case Write(_, src, n, i, killed) =>
        if Placed(op) {
          var r, j := WriteBurst(src, n, i, killed);
          put := src[i..j];
        }
      case Read(_, n, room, dead) =>
        var r, b := ReadBurst(n, room, dead);
        got := b;
      case CloseEnd(writable) =>
        Close(writable);
      case Kill(_) =>
    }

    /** Every interleaving of bursts is first in, first out: what was buffered, followed by everything
        put in, is everything that came out followed by what is left. */
    method Run(ops: seq<Op>) returns (put: seq<Byte>, got: seq<Byte>)
      requires Valid()
      modifies this, data
      ensures Valid() && old(Buffered()) + put == got + Buffered()
      ensures accepted == old(accepted) + put && consumed == old(consumed) + got
      ensures View() == Advanced(old(View()), ops)
    {
      put, got := [], [];
      for k := 0 to |ops|
        invariant Valid() && accepted == old(accepted) + put && consumed == old(consumed) + got
        invariant View() == Advanced(old(View()), ops[..k])
      {
        assert ops[..k + 1][..k] == ops[..k];
        var a, b := Burst(ops[k]);
        put, got := put + a, got + b;
      }
      assert ops[..|ops|] == ops;
      FirstInFirstOut(old(accepted), old(consumed), put, got);
    }
  }

  lemma FirstInFirstOut(a: seq<Byte>, c: seq<Byte>, put: seq<Byte>, got: seq<Byte>)
    requires c <= a && c + got <= a + put
    ensures a[|c|..] + put == got + (a + put)[|c + got|..]
  {
    var left := (a + put)[|c + got|..];
    assert a + put == (c + got) + left;
    assert (a + put)[|c|..] == a[|c|..] + put;
    assert (a + put)[|c|..] == got + left;
  }
}
