/** Who sleeps on a pipe of kernel/pipe.c, and who wakes them: runs of bursts by any number of readers and
    writers. A process sleeps on nread for bytes or on nwrite for room; a wakeup lets all sleepers go. */
module PipeRuns {
  import opened Basics
  import opened Pipe

  datatype State = State(q: Queue, readers: set<nat>, writers: set<nat>)

  const INIT := State(Queue([], true, true), {}, {})

  /** A sleeping process does nothing until it is woken. */
  predicate Enabled(s: State, op: Op) {
    Placed(op) && (op.Write? || op.Read? ==> op.p !in s.readers && op.p !in s.writers)
  }

  function Next(s: State, op: Op): (r: State)
    requires |s.q.bytes| <= PIPESIZE && Enabled(s, op)
    ensures |r.q.bytes| <= PIPESIZE
  {
    var q := Advance(s.q, op);
    match op
    case Write(p, _, _, _, _) =>
      (match End(s.q, op).0
       case Return => State(q, {}, s.writers)
       case Sleep => State(q, {}, s.writers + {p})
       case Fail => State(q, s.readers, s.writers))
    case Read(p, n, room, dead) =>
      if s.q.bytes != [] || !s.q.writeopen then State(q, s.readers, {})
      else if dead then s
      else State(q, s.readers + {p}, s.writers)
    case CloseEnd(writable) => if writable then State(q, {}, s.writers) else State(q, s.readers, {})
    case Kill(p) => State(q, s.readers - {p}, s.writers - {p})
  }

  ghost predicate Run(ss: seq<State>, ops: seq<Op>) {
    && |ss| == |ops| + 1 && ss[0] == INIT
    && forall k :: 0 <= k < |ops| ==>
         |ss[k].q.bytes| <= PIPESIZE && Enabled(ss[k], ops[k]) && ss[k + 1] == Next(ss[k], ops[k])
  }

  /** No reader sleeps over buffered bytes, or with no writer left. */
  predicate ReadersWaitRightly(s: State) {
    s.readers != {} ==> s.q.bytes == [] && s.q.writeopen
  }

  /** No writer sleeps while there is room, or with no reader left. */
  predicate WritersWaitRightly(s: State) {
    s.writers != {} ==> |s.q.bytes| == PIPESIZE && s.q.readopen
  }

  /** What the end of a burst of pipewrite tells. */
  lemma {:induction false} WriteEndMeans(room: nat, readopen: bool, have: nat, n: int, j: nat, killed: nat -> bool)
    ensures var r := WriteEnd(room, readopen, have, n, j, killed);
            && (r.0 == Fail <==> r.1 < n && (!readopen || killed(r.1)))
            && (r.0 == Sleep <==> r.1 < n && readopen && !killed(r.1) && r.1 == j + room)
            && (j < r.1 ==> readopen)
            && forall k: nat :: j <= k < r.1 ==> !killed(k)
    decreases n - j
  {
    if j < n && readopen && !killed(j) && room > 0 && j < have {
      WriteEndMeans(room - 1, readopen, have, n, j + 1, killed);
    }
  }

  /** A writer found killed after putting bytes in returns without a wakeup. */
  predicate WakeupLost(s: State, op: Op)
    requires |s.q.bytes| <= PIPESIZE
  {
    op.Write? && s.readers != {} && End(s.q, op).0 == Fail && op.i < End(s.q, op).1
  }

  lemma ReadersStep(s: State, op: Op)
    requires |s.q.bytes| <= PIPESIZE && Enabled(s, op) && ReadersWaitRightly(s)
    ensures ReadersWaitRightly(Next(s, op)) <==> !WakeupLost(s, op)
  {
    if op.Write? && op.i < End(s.q, op).1 {
      assert |Next(s, op).q.bytes| > 0;
    }
  }

  lemma WritersStep(s: State, op: Op)
    requires |s.q.bytes| <= PIPESIZE && Enabled(s, op) && WritersWaitRightly(s)
    ensures WritersWaitRightly(Next(s, op))
  {
    if op.Write? { WriteEndMeans(PIPESIZE - |s.q.bytes|, s.q.readopen, |op.src|, op.n, op.i, op.killed); }
  }

  lemma {:induction false} ReadersUpTo(ss: seq<State>, ops: seq<Op>, k: nat)
    requires Run(ss, ops) && k <= |ops| && forall i :: 0 <= i < k ==> !WakeupLost(ss[i], ops[i])
    ensures ReadersWaitRightly(ss[k])
  {
    if k > 0 {
      ReadersUpTo(ss, ops, k - 1);
      ReadersStep(ss[k - 1], ops[k - 1]);
    }
  }

  /** Readers wait rightly throughout a run exactly if no wakeup is lost in it. */
  lemma ReadersWoken(ss: seq<State>, ops: seq<Op>)
    requires Run(ss, ops)
    ensures (forall k :: 0 <= k <= |ops| ==> ReadersWaitRightly(ss[k])) <==>
            (forall k :: 0 <= k < |ops| ==> !WakeupLost(ss[k], ops[k]))
  {
    if forall k :: 0 <= k < |ops| ==> !WakeupLost(ss[k], ops[k]) {
      forall k | 0 <= k <= |ops| ensures ReadersWaitRightly(ss[k]) { ReadersUpTo(ss, ops, k); }
    }
    if forall k :: 0 <= k <= |ops| ==> ReadersWaitRightly(ss[k]) {
      forall k | 0 <= k < |ops| ensures !WakeupLost(ss[k], ops[k]) {
        assert ss[k + 1] == Next(ss[k], ops[k]);
        ReadersStep(ss[k], ops[k]);
      }
    }
  }

  /** When a burst that finds readers waiting rightly loses their wakeup: the kill is seen at some byte after
      the first, before the call is through and before the pipe fills. */
  lemma LostExactly(s: State, op: Op)
    requires op.Write? && Enabled(s, op) && ReadersWaitRightly(s) && |s.q.bytes| <= PIPESIZE
    ensures WakeupLost(s, op) <==>
            && s.readers != {} && s.q.readopen
            && exists j: nat :: KilledAt(op, j) && op.i < j <= op.i + PIPESIZE && j < op.n && j <= |op.src|
  {
    var room := PIPESIZE - |s.q.bytes|;
    WriteEndMeans(room, s.q.readopen, |op.src|, op.n, op.i, op.killed);
    if WakeupLost(s, op) { assert KilledAt(op, End(s.q, op).1); }
    if j: nat :| KilledAt(op, j) && op.i < j <= op.i + PIPESIZE && j < op.n && j <= |op.src| {
      if s.readers != {} && s.q.readopen { KilledThere(room, |op.src|, op, op.i, j); }
    }
  }

  /** The caller is first found killed on the turn for byte j. */
  ghost predicate KilledAt(op: Op, j: nat)
    requires op.Write?
  {
    op.killed(j) && forall k: nat :: op.i <= k < j ==> !op.killed(k)
  }

  lemma {:induction false} KilledThere(room: nat, have: nat, op: Op, i: nat, j: nat)
    requires op.Write? && KilledAt(op, j) && op.i <= i <= j <= i + room && j < op.n && j <= have
    ensures WriteEnd(room, true, have, op.n, i, op.killed) == (Fail, j)
    decreases j - i
  {
    if i < j { KilledThere(room - 1, have, op, i + 1, j); }
  }

  /** Writers wait rightly throughout every run. */
  lemma {:induction false} WritersWoken(ss: seq<State>, ops: seq<Op>, k: nat)
    requires Run(ss, ops) && k <= |ops|
    ensures WritersWaitRightly(ss[k])
  {
    if k > 0 {
      WritersWoken(ss, ops, k - 1);
      WritersStep(ss[k - 1], ops[k - 1]);
    }
  }

  /** A reader sleeps on an empty pipe; a writer puts one byte of two in and is killed; the reader goes on
      sleeping over the byte. */
  lemma LostRun() returns (ss: seq<State>, ops: seq<Op>)
    ensures Run(ss, ops) && |ops| == 2 && ss[2] == State(Queue([7], true, true), {1}, {})
    ensures !ReadersWaitRightly(ss[2])
  {
    ops := [Read(1, 1, 1, false), Write(2, [7, 7], 2, 0, (k: nat) => k >= 1)];
    var s := Next(INIT, ops[0]);
    KilledThere(PIPESIZE, 2, ops[1], 0, 1);
    ss := [INIT, s, Next(s, ops[1])];
  }
}
