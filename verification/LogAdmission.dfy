/** Concurrent use of the log: every interleaving of begin_op, log_write and end_op by any number
    of processes (kernel/log.c). Each event is one critical section under log.lock. */
module LogAdmission {
  import opened Basics
  import opened RedoLog

  /** Where a process stands; InOp counts the block numbers its operation has added to the header. */
  datatype Phase = Idle | Asleep | InOp(added: nat) | Committing

  datatype State = State(lh: seq<Uint>, outstanding: nat, committing: bool, procs: seq<Phase>)

  datatype Event = Begin(p: nat) | Write(p: nat, b: Uint) | End(p: nat) | Committed(p: nat)

  predicate Init(s: State) {
    s.lh == [] && s.outstanding == 0 && !s.committing && forall p :: 0 <= p < |s.procs| ==> s.procs[p] == Idle
  }

  /** wakeup(&log): every sleeper in begin_op gets another try. */
  function Woken(procs: seq<Phase>): (r: seq<Phase>)
    ensures |r| == |procs|
    ensures forall p :: 0 <= p < |r| ==> r[p] == if procs[p] == Asleep then Idle else procs[p]
  {
    seq(|procs|, p requires 0 <= p < |procs| => if procs[p] == Asleep then Idle else procs[p])
  }

  /** The panics of log_write and end_op. */
  predicate Panics(s: State, e: Event) {
    match e
    case Write(p, b) => |s.lh| >= LOGBLOCKS || s.outstanding < 1
    case End(p) => s.committing
    case _ => false
  }

  /** What each process may do next. An operation adds at most MAXOPBLOCKS new block numbers;
      it may write the ones already recorded as often as it likes. */
  predicate Enabled(s: State, e: Event) {
    && e.p < |s.procs|
    && match e
       case Begin(p) => s.procs[p] == Idle
       case Write(p, b) => s.procs[p].InOp? && (b in s.lh || s.procs[p].added < MAXOPBLOCKS)
       case End(p) => s.procs[p].InOp?
       case Committed(p) => s.procs[p] == Committing
  }

  function Next(s: State, e: Event): State
    requires Enabled(s, e) && !Panics(s, e)
  {
    match e
    case Begin(p) =>
      if Admits(|s.lh|, s.outstanding, s.committing)
      then s.(outstanding := s.outstanding + 1, procs := s.procs[p := InOp(0)])
      else s.(procs := s.procs[p := Asleep])
    case Write(p, b) =>
      var added := s.procs[p].added + |Absorb(s.lh, b)| - |s.lh|;
      s.(lh := Absorb(s.lh, b), procs := s.procs[p := InOp(added)])
    case End(p) =>
      if s.outstanding <= 1 then s.(outstanding := 0, committing := true, procs := s.procs[p := Committing])
      else s.(outstanding := s.outstanding - 1, procs := Woken(s.procs[p := Idle]))
    case Committed(p) =>
      s.(lh := [], committing := false, procs := Woken(s.procs[p := Idle]))
  }

  // ---- Space accounting ----

  function Unused(ph: Phase): int {
    if ph.InOp? then MAXOPBLOCKS - ph.added else 0
  }

  /** The reserved but unused header slots of all operations in progress. */
  function Reserved(procs: seq<Phase>): int {
    if procs == [] then 0 else Unused(procs[0]) + Reserved(procs[1..])
  }

  function Active(procs: seq<Phase>): nat {
    if procs == [] then 0 else (if procs[0].InOp? then 1 else 0) + Active(procs[1..])
  }

  lemma {:induction false} Updated(procs: seq<Phase>, p: nat, ph: Phase)
    requires p < |procs|
    ensures Reserved(procs[p := ph]) == Reserved(procs) - Unused(procs[p]) + Unused(ph)
    ensures Active(procs[p := ph]) == Active(procs) - (if procs[p].InOp? then 1 else 0) + (if ph.InOp? then 1 else 0)
  {
    if p == 0 {
      assert procs[p := ph][1..] == procs[1..];
    } else {
      Updated(procs[1..], p - 1, ph);
      assert procs[p := ph][1..] == procs[1..][p - 1 := ph];
    }
  }

  lemma {:induction false} WokenSame(procs: seq<Phase>)
    ensures Reserved(Woken(procs)) == Reserved(procs) && Active(Woken(procs)) == Active(procs)
  {
    if procs != [] {
      WokenSame(procs[1..]);
      assert Woken(procs)[1..] == Woken(procs[1..]);
    }
  }

  lemma {:induction false} ActiveMember(procs: seq<Phase>, p: nat)
    requires p < |procs| && procs[p].InOp?
    requires forall q :: 0 <= q < |procs| && procs[q].InOp? ==> procs[q].added <= MAXOPBLOCKS
    ensures Active(procs) >= 1 && Reserved(procs) >= Unused(procs[p])
  {
    if p == 0 { ReservedNonneg(procs[1..]); } else { ActiveMember(procs[1..], p - 1); }
  }

  lemma {:induction false} ReservedNonneg(procs: seq<Phase>)
    requires forall q :: 0 <= q < |procs| && procs[q].InOp? ==> procs[q].added <= MAXOPBLOCKS
    ensures Reserved(procs) >= 0
  {
    if procs != [] { ReservedNonneg(procs[1..]); }
  }

  lemma {:induction false} NoneActive(procs: seq<Phase>)
    requires Active(procs) == 0
    ensures forall p :: 0 <= p < |procs| ==> !procs[p].InOp?
  {
    if procs != [] { NoneActive(procs[1..]); }
  }

  /** What every interleaving keeps. */
  ghost predicate Inv(s: State) {
    && |s.lh| + Reserved(s.procs) <= LOGBLOCKS
    && s.outstanding == Active(s.procs)
    && (forall i, j :: 0 <= i < j < |s.lh| ==> s.lh[i] != s.lh[j])
    && (forall p :: 0 <= p < |s.procs| && s.procs[p].InOp? ==> s.procs[p].added <= MAXOPBLOCKS)
    && (s.committing ==> s.outstanding == 0)
    && (forall p :: 0 <= p < |s.procs| && s.procs[p] == Committing ==> s.committing)
    && (forall p, q :: 0 <= p < q < |s.procs| ==> !(s.procs[p] == s.procs[q] == Committing))
    && (s.outstanding == 0 && !s.committing ==> s.lh == [])
    && (forall p :: 0 <= p < |s.procs| && s.procs[p] == Asleep ==> s.committing || s.outstanding > 0)
  }

  lemma {:induction false} InitInv(s: State)
    requires Init(s)
    ensures Inv(s)
  {
    InitSums(s.procs);
  }

  lemma {:induction false} InitSums(procs: seq<Phase>)
    requires forall p :: 0 <= p < |procs| ==> procs[p] == Idle
    ensures Reserved(procs) == 0 && Active(procs) == 0
  {
    if procs != [] { InitSums(procs[1..]); }
  }

  lemma {:induction false} ReservedBound(procs: seq<Phase>)
    ensures Reserved(procs) <= MAXOPBLOCKS * Active(procs)
  {
    if procs != [] { ReservedBound(procs[1..]); }
  }

  lemma BeginInv(s: State, p: nat)
    requires Inv(s) && Enabled(s, Begin(p))
    ensures Inv(Next(s, Begin(p)))
  {
    Updated(s.procs, p, InOp(0));
    Updated(s.procs, p, Asleep);
    ReservedBound(s.procs);
  }

  lemma WriteInv(s: State, p: nat, b: Uint)
    requires Inv(s) && Enabled(s, Write(p, b)) && !Panics(s, Write(p, b))
    ensures Inv(Next(s, Write(p, b)))
  {
    ActiveMember(s.procs, p);
    Updated(s.procs, p, InOp(s.procs[p].added + |Absorb(s.lh, b)| - |s.lh|));
  }

  lemma EndInv(s: State, p: nat)
    requires Inv(s) && Enabled(s, End(p)) && !Panics(s, End(p))
    ensures Inv(Next(s, End(p)))
  {
    ActiveMember(s.procs, p);
    Updated(s.procs, p, Committing);
    Updated(s.procs, p, Idle);
    WokenSame(s.procs[p := Idle]);
  }

  lemma CommittedInv(s: State, p: nat)
    requires Inv(s) && Enabled(s, Committed(p))
    ensures Inv(Next(s, Committed(p)))
  {
    Updated(s.procs, p, Idle);
    WokenSame(s.procs[p := Idle]);
    NoneActive(s.procs);
    ReservedNone(s.procs);
  }

  lemma NextInv(s: State, e: Event)
    requires Inv(s) && Enabled(s, e) && !Panics(s, e)
    ensures Inv(Next(s, e))
  {
    match e
    case Begin(p) => BeginInv(s, p);
    case Write(p, b) => WriteInv(s, p, b);
    case End(p) => EndInv(s, p);
    case Committed(p) => CommittedInv(s, p);
  }

  lemma {:induction false} ReservedNone(procs: seq<Phase>)
    requires forall p :: 0 <= p < |procs| ==> !procs[p].InOp?
    ensures Reserved(procs) == 0
  {
    if procs != [] { ReservedNone(procs[1..]); }
  }

  // ---- Runs ----

  /** s is reached by n events, none of which panicked. */
  ghost predicate Reachable(s: State, n: nat)
    decreases n
  {
    if n == 0 then Init(s)
    else exists s0, e :: Reachable(s0, n - 1) && Enabled(s0, e) && !Panics(s0, e) && s == Next(s0, e)
  }

  lemma {:induction false} ReachableInv(s: State, n: nat)
    requires Reachable(s, n)
    ensures Inv(s)
    decreases n
  {
    if n == 0 {
      InitInv(s);
    } else {
      var s0, e :| Reachable(s0, n - 1) && Enabled(s0, e) && !Panics(s0, e) && s == Next(s0, e);
      ReachableInv(s0, n - 1);
      NextInv(s0, e);
    }
  }

  /** In every interleaving: reservations are honoured, numbers stay distinct, a commit runs alone,
      and nobody is left asleep without an operation or a commit that will wake it. */
  lemma ReservationsHold(s: State, n: nat)
    requires Reachable(s, n)
    ensures |s.lh| + Reserved(s.procs) <= LOGBLOCKS && Reserved(s.procs) >= 0
    ensures forall i, j :: 0 <= i < j < |s.lh| ==> s.lh[i] != s.lh[j]
    ensures s.committing ==> forall p :: 0 <= p < |s.procs| ==> !s.procs[p].InOp?
    ensures !s.committing && (forall p :: 0 <= p < |s.procs| ==> !s.procs[p].InOp?) ==>
              s.lh == [] && forall p :: 0 <= p < |s.procs| ==> s.procs[p] == Idle
  {
    ReachableInv(s, n);
    ReservedNonneg(s.procs);
    if Active(s.procs) == 0 { NoneActive(s.procs); }
    if forall p :: 0 <= p < |s.procs| ==> !s.procs[p].InOp? { ActiveNone(s.procs); }
  }

  lemma {:induction false} ActiveNone(procs: seq<Phase>)
    requires forall p :: 0 <= p < |procs| ==> !procs[p].InOp?
    ensures Active(procs) == 0
  {
    if procs != [] { ActiveNone(procs[1..]); }
  }

  /** In every interleaving end_op never panics, and log_write panics if and only if the header is
      full; then every operation in progress has used up its reservation. */
  lemma PanicExactly(s: State, n: nat, e: Event)
    requires Reachable(s, n) && Enabled(s, e)
    ensures Panics(s, e) <==> e.Write? && |s.lh| == LOGBLOCKS
    ensures Panics(s, e) ==> forall p :: 0 <= p < |s.procs| && s.procs[p].InOp? ==> s.procs[p].added == MAXOPBLOCKS
  {
    ReachableInv(s, n);
    forall p | 0 <= p < |s.procs| && s.procs[p].InOp?
      ensures Active(s.procs) >= 1 && Reserved(s.procs) >= Unused(s.procs[p])
    {
      ActiveMember(s.procs, p);
    }
    ReservedNonneg(s.procs);
  }

  /** An operation that still has an unused slot can always write, new block or absorbed. */
  lemma WithinReservation(s: State, n: nat, p: nat, b: Uint)
    requires Reachable(s, n) && p < |s.procs| && s.procs[p].InOp? && s.procs[p].added < MAXOPBLOCKS
    ensures Enabled(s, Write(p, b)) && !Panics(s, Write(p, b))
  {
    PanicExactly(s, n, Write(p, b));
  }

  // ---- The panic on a full header is reachable ----

  function Upto(k: nat): (r: seq<Uint>)
    requires k <= LOGBLOCKS
  {
    seq(k, i requires 0 <= i < k => i)
  }

  /** Three operations, process p adding block numbers 10p .. 10p+9; the first k numbers are in. */
  function Filling(k: nat): State
    requires k <= LOGBLOCKS
  {
    State(Upto(k), 3, false,
          [InOp(if k < 10 then k else 10), InOp(if k < 10 then 0 else if k < 20 then k - 10 else 10),
           InOp(if k < 20 then 0 else k - 20)])
  }

  lemma Step(s: State, n: nat, e: Event)
    requires Reachable(s, n) && Enabled(s, e) && !Panics(s, e)
    ensures Reachable(Next(s, e), n + 1)
  {
  }

  /** The first k of three processes have begun. */
  function Starting(k: nat): State {
    State([], k, false, seq(3, i => if i < k then InOp(0) else Idle))
  }

  lemma {:induction false} StartingReachable(k: nat)
    requires k <= 3
    ensures Reachable(Starting(k), k)
  {
    hide Enabled, Panics, Next, Starting;
    if k > 0 {
      StartingReachable(k - 1);
      StartOne(k);
      Step(Starting(k - 1), k - 1, Begin(k - 1));
    } else {
      StartingInit();
    }
  }

  lemma StartingInit()
    ensures Init(Starting(0))
  {
  }

  lemma StartOne(k: nat)
    requires 0 < k <= 3
    ensures var s, e := Starting(k - 1), Begin(k - 1); Enabled(s, e) && !Panics(s, e) && Next(s, e) == Starting(k)
  {
    var s := Next(Starting(k - 1), Begin(k - 1));
    assert s.procs == Starting(k).procs;
  }

  lemma FillOne(k: nat)
    requires k < LOGBLOCKS
    ensures Enabled(Filling(k), Write(k / 10, k)) && !Panics(Filling(k), Write(k / 10, k))
    ensures Next(Filling(k), Write(k / 10, k)) == Filling(k + 1)
  {
    assert Upto(k) + [k] == Upto(k + 1);
    assert k !in Upto(k);
  }

  lemma {:induction false} FillingReachable(k: nat)
    requires k <= LOGBLOCKS
    ensures Reachable(Filling(k), k + 3)
  {
    hide Enabled, Panics, Next, Starting, Filling, Reachable;
    if k == 0 {
      StartingReachable(k + 3);
      AllStarted();
    } else {
      FillingReachable(k - 1);
      FillOne(k - 1);
      Step(Filling(k - 1), k + 2, Write((k - 1) / 10, k - 1));
    }
  }

  lemma AllStarted()
    ensures Starting(3) == Filling(0)
  {
    assert Starting(3).procs == Filling(0).procs;
  }

  /** Keeping within MAXOPBLOCKS new numbers per operation is not enough: when three operations
      have used their reservations exactly, even an absorbed write panics. */
  lemma AbsorbedWritePanics() returns (s: State, n: nat)
    ensures Reachable(s, n) && Enabled(s, Write(0, 0)) && 0 in s.lh && Panics(s, Write(0, 0))
    ensures forall p :: 0 <= p < |s.procs| ==> s.procs[p] == InOp(MAXOPBLOCKS)
  {
    s, n := Filling(LOGBLOCKS), LOGBLOCKS + 3;
    FillingReachable(LOGBLOCKS);
    assert s.lh[0] == 0;
  }
}
