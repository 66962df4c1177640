/** Sleep, wakeup and sleep locks: kernel/proc.c's sleep and wakeup with kernel/sleeplock.c's
    acquiresleep and releasesleep, as interleaved steps of any number of processes on one sleep lock.
    Each step is one statement; a spinlock is an owner that a step may take only when it is free. */
module SleepLock {
  import opened Basics

  /** Where a process is. The comment gives the statement it is about to execute. */
  datatype Pc =
    | Out              // elsewhere
    | WantLk           // acquire(&lk->lk), first or after waking
    | Test             // while (lk->locked)
    | WantOwn          // sleep: acquire(&p->lock)
    | DropLk           // sleep: release(lk)
    | SetChan          // p->chan = chan
    | SetState         // p->state = SLEEPING
    | Sched            // sched(), whose scheduler releases p->lock
    | Asleep           // switched out
    | Resumed          // p->chan = 0
    | DropOwn          // release(&p->lock)
    | SetLocked        // lk->locked = 1; lk->pid = ...
    | Leave            // release(&lk->lk) at the end of acquiresleep
    | Holding          // between acquiresleep and releasesleep
    | RelWant          // releasesleep: acquire(&lk->lk)
    | RelClear         // lk->locked = 0; lk->pid = 0
    | Wake(j: nat)     // wakeup's loop test at process j
    | WakeHold(j: nat) // wakeup, holding process j's lock: the state test
    | WakeDrop(j: nat) // wakeup: release(&p->lock)
    | RelLeave         // release(&lk->lk) at the end of releasesleep

  datatype RunState = Running | Runnable | Sleeping

  /** Owner of a p->lock: a process of this protocol, or other kernel code such as kkill. */
  datatype Owner = Free | By(p: nat) | Env

  /** `holder` is lk->locked with lk->pid; `chan` says whether p->chan is this lock. */
  datatype State = State(
    lk: Option<nat>, holder: Option<nat>, pc: seq<Pc>, own: seq<Owner>, run: seq<RunState>, chan: seq<bool>)

  datatype Event =
    | Acquire(p: nat) | Release(p: nat)     // a process calls acquiresleep, releasesleep
    | Go(p: nat)                            // its next statement
    | Dispatch(p: nat)                      // the scheduler takes p->lock and switches to p
    | EnvLock(p: nat) | EnvKill(p: nat) | EnvUnlock(p: nat)
    | Elsewhere(p: nat, to: RunState)       // outside the protocol, or holding the lock, a process runs, sleeps
                                            // on other channels or is woken; without a spinlock it is preempted

  predicate Sized(s: State, n: nat) {
    |s.pc| == n && |s.own| == n && |s.run| == n && |s.chan| == n
  }

  predicate LkPc(c: Pc) {
    c.Test? || c.WantOwn? || c.DropLk? || c.SetLocked? || c.Leave? || c.RelClear? || c.Wake? || c.WakeHold?
    || c.WakeDrop? || c.RelLeave?
  }

  predicate OwnPc(c: Pc) {
    c.DropLk? || c.SetChan? || c.SetState? || c.Sched? || c.Resumed? || c.DropOwn?
  }

  predicate HolderPc(c: Pc) {
    c.Leave? || c.Holding? || c.RelWant? || c.RelClear?
  }

  /** Whether the run state may change other than by this protocol. */
  predicate Away(c: Pc, to: RunState) {
    c.Out? || c.Holding? || ((c.WantLk? || c.RelWant?) && to != Sleeping)
  }

  predicate Enabled(s: State, e: Event, n: nat)
    requires Sized(s, n)
  {
    e.p < n &&
    match e
    case Acquire(p) => s.pc[p] == Out && s.run[p] == Running
    case Release(p) => s.pc[p] == Holding && s.run[p] == Running
    case Go(p) =>
      (s.run[p] == Running || s.pc[p].Sched?) &&
      (match s.pc[p]
       case Out => false
       case Holding => false
       case Asleep => false
       case WantLk => s.lk == None
       case RelWant => s.lk == None
       case WantOwn => s.own[p] == Free
       case Wake(j) => j < n && j != p ==> s.own[j] == Free
       case _ => true)
    case Dispatch(p) => s.pc[p] == Asleep && s.run[p] == Runnable && s.own[p] == Free
    case EnvLock(p) => s.own[p] == Free
    case EnvKill(p) => s.own[p] == Env
    case EnvUnlock(p) => s.own[p] == Env
    case Elsewhere(p, to) => Away(s.pc[p], to) && s.own[p] == Free
  }

  function Statement(s: State, p: nat, n: nat): State
    requires Sized(s, n) && Enabled(s, Go(p), n)
  {
    match s.pc[p]
    case WantLk => s.(lk := Some(p), pc := s.pc[p := Test])
    case Test => s.(pc := s.pc[p := if s.holder.Some? then WantOwn else SetLocked])
    case WantOwn => s.(own := s.own[p := By(p)], pc := s.pc[p := DropLk])
    case DropLk => s.(lk := None, pc := s.pc[p := SetChan])
    case SetChan => s.(chan := s.chan[p := true], pc := s.pc[p := SetState])
    case SetState => s.(run := s.run[p := Sleeping], pc := s.pc[p := Sched])
    case Sched => s.(own := s.own[p := Free], pc := s.pc[p := Asleep])
    case Resumed => s.(chan := s.chan[p := false], pc := s.pc[p := DropOwn])
    case DropOwn => s.(own := s.own[p := Free], pc := s.pc[p := WantLk])
    case SetLocked => s.(holder := Some(p), pc := s.pc[p := Leave])
    case Leave => s.(lk := None, pc := s.pc[p := Holding])
    case RelWant => s.(lk := Some(p), pc := s.pc[p := RelClear])
    case RelClear => s.(holder := None, pc := s.pc[p := Wake(0)])
    case Wake(j) =>
      if j >= n then s.(pc := s.pc[p := RelLeave])
      else if j == p then s.(pc := s.pc[p := Wake(j + 1)])
      else s.(own := s.own[j := By(p)], pc := s.pc[p := WakeHold(j)])
    case WakeHold(j) =>
      if j < n && s.run[j] == Sleeping && s.chan[j] then s.(run := s.run[j := Runnable], pc := s.pc[p := WakeDrop(j)])
      else s.(pc := s.pc[p := WakeDrop(j)])
    case WakeDrop(j) =>
      if j < n then s.(own := s.own[j := Free], pc := s.pc[p := Wake(j + 1)]) else s
    case RelLeave => s.(lk := None, pc := s.pc[p := Out])
  }

  function Next(s: State, e: Event, n: nat): State
    requires Sized(s, n) && Enabled(s, e, n)
  {
    match e
    case Acquire(p) => s.(pc := s.pc[p := WantLk])
    case Release(p) => s.(pc := s.pc[p := RelWant])
    case Go(p) => Statement(s, p, n)
    case Dispatch(p) => s.(own := s.own[p := By(p)], run := s.run[p := Running], pc := s.pc[p := Resumed])
    case EnvLock(p) => s.(own := s.own[p := Env])
    case EnvKill(p) => if s.run[p] == Sleeping then s.(run := s.run[p := Runnable]) else s
    case EnvUnlock(p) => s.(own := s.own[p := Free])
    case Elsewhere(p, to) => s.(run := s.run[p := to])
  }

  predicate Initial(s: State, n: nat) {
    && Sized(s, n) && s.lk == None && s.holder == None
    && forall p :: 0 <= p < n ==> s.pc[p] == Out && s.own[p] == Free && !s.chan[p]
  }

  // ---- Invariant ----

  /** Asleep on the lock, or committed to it. */
  predicate Committed(s: State, p: nat)
    requires p < |s.pc| && p < |s.run|
  {
    s.pc[p].DropLk? || s.pc[p].SetChan? || s.pc[p].SetState? || s.pc[p].Sched?
    || (s.pc[p].Asleep? && s.run[p] == Sleeping)
  }

  /** Someone holds the inner lock and its wakeup has not got past process p yet. */
  predicate WakerComing(s: State, p: nat) {
    && s.lk.Some? && s.lk.value < |s.pc| && s.lk.value != p
    && var c := s.pc[s.lk.value]; ((c.Wake? || c.WakeHold?) && c.j <= p) || (c.WakeDrop? && c.j < p)
  }

  /** Who holds the inner lock and the sleep lock. */
  ghost predicate LocksOk(s: State, p: nat)
    requires p < |s.pc|
  {
    && (LkPc(s.pc[p]) <==> s.lk == Some(p))
    && (HolderPc(s.pc[p]) <==> s.holder == Some(p))
    && (s.pc[p].SetLocked? ==> s.holder == None)
  }

  /** Who holds a p->lock: the process itself, or a waker at it. */
  ghost predicate OwnOk(s: State, p: nat)
    requires p < |s.pc| && p < |s.own|
  {
    && (OwnPc(s.pc[p]) <==> s.own[p] == By(p))
    && ((s.pc[p].WakeHold? || s.pc[p].WakeDrop?) ==> s.pc[p].j < |s.own| && s.pc[p].j != p && s.own[s.pc[p].j] == By(p))
    && (s.own[p].By? && s.own[p].p != p ==>
          s.own[p].p < |s.pc| && (s.pc[s.own[p].p] == WakeHold(p) || s.pc[s.own[p].p] == WakeDrop(p)))
  }

  ghost predicate SleepOk(s: State, p: nat)
    requires p < |s.pc| && p < |s.run| && p < |s.chan|
  {
    && (s.pc[p].WantOwn? || s.pc[p].DropLk? ==> s.holder.Some?)
    && (s.chan[p] <==> s.pc[p].SetState? || s.pc[p].Sched? || s.pc[p].Asleep? || s.pc[p].Resumed?)
    && (s.pc[p].Sched? ==> s.run[p] == Sleeping)
    && (s.pc[p].Asleep? ==> s.run[p] != Running)
    && (!Away(s.pc[p], Runnable) && !s.pc[p].Sched? && !s.pc[p].Asleep? ==> s.run[p] == Running)
    && (Committed(s, p) ==> s.holder.Some? || WakerComing(s, p))
  }

  ghost predicate Inv(s: State, n: nat) {
    && Sized(s, n)
    && (forall p {:trigger LocksOk(s, p)} :: 0 <= p < n ==> LocksOk(s, p))
    && (forall p {:trigger OwnOk(s, p)} :: 0 <= p < n ==> OwnOk(s, p))
    && (forall p {:trigger SleepOk(s, p)} :: 0 <= p < n ==> SleepOk(s, p))
    && (s.lk.Some? ==> s.lk.value < n) && (s.holder.Some? ==> s.holder.value < n)
  }

  /** What the proof of one step uses: the process that moves and the one looked at. */
  ghost predicate PairOk(s: State, p: nat, q: nat, n: nat) {
    Sized(s, n) && p < n && q < n && LocksOk(s, p) && LocksOk(s, q) && OwnOk(s, p) && OwnOk(s, q) && SleepOk(s, p)
    && SleepOk(s, q)
  }

  /** The statements of wakeup's loop. */
  predicate WakePc(c: Pc) { c.Wake? || c.WakeHold? || c.WakeDrop? }

  lemma GoLocks(s: State, p: nat, q: nat, n: nat)
    requires PairOk(s, p, q, n) && Enabled(s, Go(p), n)
    ensures LocksOk(Statement(s, p, n), q)
  {
    hide Enabled, OwnOk;
    Ready(s, p, n);
  }

  lemma WakeOwn(s: State, p: nat, q: nat, n: nat)
    requires PairOk(s, p, q, n) && Enabled(s, Go(p), n) && WakePc(s.pc[p])
    ensures OwnOk(Statement(s, p, n), q)
  {
    hide Enabled, SleepOk, LocksOk;
    Ready(s, p, n);
  }

  lemma PlainOwn(s: State, p: nat, q: nat, n: nat)
    requires PairOk(s, p, q, n) && Enabled(s, Go(p), n) && !WakePc(s.pc[p])
    ensures OwnOk(Statement(s, p, n), q)
  {
    hide Enabled, SleepOk, LocksOk;
    Ready(s, p, n);
  }

  lemma GoOwn(s: State, p: nat, q: nat, n: nat)
    requires PairOk(s, p, q, n) && Enabled(s, Go(p), n)
    ensures OwnOk(Statement(s, p, n), q)
  {
    hide Enabled, SleepOk, LocksOk, OwnOk, Statement;
    if WakePc(s.pc[p]) { WakeOwn(s, p, q, n); } else { PlainOwn(s, p, q, n); }
  }

  lemma WakeSleep(s: State, p: nat, q: nat, n: nat)
    requires PairOk(s, p, q, n) && Enabled(s, Go(p), n) && WakePc(s.pc[p])
    ensures SleepOk(Statement(s, p, n), q)
  {
    hide Enabled;
    Ready(s, p, n);
  }

  lemma PlainSleep(s: State, p: nat, q: nat, n: nat)
    requires PairOk(s, p, q, n) && Enabled(s, Go(p), n) && !WakePc(s.pc[p])
    ensures SleepOk(Statement(s, p, n), q)
  {
    hide Enabled, OwnOk;
    Ready(s, p, n);
  }

  lemma GoSleep(s: State, p: nat, q: nat, n: nat)
    requires PairOk(s, p, q, n) && Enabled(s, Go(p), n)
    ensures SleepOk(Statement(s, p, n), q)
  {
    hide Enabled, SleepOk, LocksOk, OwnOk, Statement;
    if WakePc(s.pc[p]) { WakeSleep(s, p, q, n); } else { PlainSleep(s, p, q, n); }
  }

  lemma Ready(s: State, p: nat, n: nat)
    requires Sized(s, n) && Enabled(s, Go(p), n)
    ensures s.run[p] == Running || s.pc[p].Sched?
    ensures p < n && !s.pc[p].Out? && !s.pc[p].Holding? && !s.pc[p].Asleep?
    ensures s.pc[p].WantLk? || s.pc[p].RelWant? ==> s.lk == None
    ensures s.pc[p].WantOwn? ==> s.own[p] == Free
    ensures s.pc[p].Wake? && s.pc[p].j < n && s.pc[p].j != p ==> s.own[s.pc[p].j] == Free
  {
  }

  lemma GoSized(s: State, p: nat, n: nat)
    requires Inv(s, n) && Enabled(s, Go(p), n)
    ensures var s' := Statement(s, p, n);
            Sized(s', n) && (s'.lk.Some? ==> s'.lk.value < n) && (s'.holder.Some? ==> s'.holder.value < n)
  {
    hide LocksOk, OwnOk, SleepOk, Enabled;
    Ready(s, p, n);
  }

  lemma GoInv(s: State, p: nat, n: nat)
    requires Inv(s, n) && Enabled(s, Go(p), n)
    ensures Inv(Statement(s, p, n), n)
  {
    hide LocksOk, OwnOk, SleepOk, Statement, Enabled;
    Ready(s, p, n);
    GoSized(s, p, n);
    var s' := Statement(s, p, n);
    forall q | 0 <= q < n ensures LocksOk(s', q) && OwnOk(s', q) && SleepOk(s', q) {
      assert PairOk(s, p, q, n);
      GoLocks(s, p, q, n);
      GoOwn(s, p, q, n);
      GoSleep(s, p, q, n);
    }
  }

  lemma OtherLocks(s: State, e: Event, q: nat, n: nat)
    requires PairOk(s, e.p, q, n) && Enabled(s, e, n) && !e.Go?
    ensures var s' := Next(s, e, n); Sized(s', n) && LocksOk(s', q)
  {
    hide Statement, OwnOk, SleepOk;
  }

  lemma OtherOwn(s: State, e: Event, q: nat, n: nat)
    requires PairOk(s, e.p, q, n) && Enabled(s, e, n) && !e.Go?
    ensures var s' := Next(s, e, n); Sized(s', n) && OwnOk(s', q)
  {
    hide Statement, LocksOk, SleepOk;
  }

  lemma OtherSleep(s: State, e: Event, q: nat, n: nat)
    requires PairOk(s, e.p, q, n) && Enabled(s, e, n) && !e.Go?
    ensures var s' := Next(s, e, n); Sized(s', n) && SleepOk(s', q)
  {
    hide Statement;
  }

  lemma NextInv(s: State, e: Event, n: nat)
    requires Inv(s, n) && Enabled(s, e, n)
    ensures Inv(Next(s, e, n), n)
  {
    hide LocksOk, OwnOk, SleepOk, Statement;
    if e.Go? { GoInv(s, e.p, n); }
    else {
      var s' := Next(s, e, n);
      forall q | 0 <= q < n ensures LocksOk(s', q) && OwnOk(s', q) && SleepOk(s', q) {
        assert PairOk(s, e.p, q, n);
        OtherLocks(s, e, q, n);
        OtherOwn(s, e, q, n);
        OtherSleep(s, e, q, n);
      }
    }
  }

  // ---- Runs ----

  ghost predicate Run(ss: seq<State>, es: seq<Event>, n: nat) {
    && |ss| == |es| + 1 && Initial(ss[0], n)
    && forall i :: 0 <= i < |es| ==> Sized(ss[i], n) && Enabled(ss[i], es[i], n) && ss[i + 1] == Next(ss[i], es[i], n)
  }

  lemma {:induction false} RunInv(ss: seq<State>, es: seq<Event>, n: nat, i: nat)
    requires Run(ss, es, n) && i < |ss|
    ensures Inv(ss[i], n)
  {
    hide Enabled, Next, LocksOk, OwnOk, SleepOk;
    if i == 0 { InitialInv(ss[0], n); } else { RunInv(ss, es, n, i - 1); NextInv(ss[i - 1], es[i - 1], n); }
  }

  lemma InitialInv(s: State, n: nat)
    requires Initial(s, n)
    ensures Inv(s, n)
  {
    forall p | 0 <= p < n ensures LocksOk(s, p) && OwnOk(s, p) && SleepOk(s, p) {}
  }

  /** No lost wakeup: in every interleaving, when the sleep lock is unlocked and its inner spinlock is
      free, no process is asleep on it or on its way to sleep. */
  lemma NoLostWakeup(ss: seq<State>, es: seq<Event>, n: nat, i: nat, p: nat)
    requires Run(ss, es, n) && i < |ss| && p < n
    ensures Sized(ss[i], n)
    ensures ss[i].holder == None && ss[i].lk == None ==>
              !Committed(ss[i], p) && !(ss[i].run[p] == Sleeping && ss[i].chan[p])
  {
    hide Run;
    RunInv(ss, es, n, i);
    assert SleepOk(ss[i], p);
  }

  /** Mutual exclusion: at most one process is between acquiresleep and releasesleep, and it is the one
      recorded in the lock. */
  lemma MutualExclusion(ss: seq<State>, es: seq<Event>, n: nat, i: nat, p: nat, q: nat)
    requires Run(ss, es, n) && i < |ss| && p < n && q < n
    ensures Sized(ss[i], n)
    ensures ss[i].pc[p] == Holding && ss[i].pc[q] == Holding ==> p == q && ss[i].holder == Some(p)
  {
    hide Run;
    RunInv(ss, es, n, i);
    assert LocksOk(ss[i], p) && LocksOk(ss[i], q);
  }

  /** A sleeper left behind by an unlock is woken before the unlocker lets go of the inner lock. */
  lemma WokenBeforeRelease(ss: seq<State>, es: seq<Event>, n: nat, i: nat, p: nat, q: nat)
    requires Run(ss, es, n) && i < |ss| && p < n && q < n
    ensures Sized(ss[i], n)
    ensures ss[i].pc[q] == RelLeave && ss[i].holder == None ==> !Committed(ss[i], p)
  {
    hide Run;
    RunInv(ss, es, n, i);
    assert SleepOk(ss[i], p) && LocksOk(ss[i], q);
  }
}
