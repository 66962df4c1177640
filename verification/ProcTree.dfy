/** Process life cycle: kernel/proc.c's kfork, kexit (with reparent) and kwait as interleaved steps of any
    number of processes under wait_lock. A step is one access to the process table made under the
    lock that protects it. */
module ProcTree {
  import opened Basics

  datatype Life = Unused | Used | Sleeping | Runnable | Running | Zombie

  predicate Alive(x: Life) { x.Sleeping? || x.Runnable? || x.Running? }

  /** What a process is doing; the slot of a child under construction is np. */
  datatype Pc =
    | Idle                              // user code, or kernel code outside these functions
    | Forking(np: nat)                  // kfork, after allocproc
    | ForkParent(np: nat)               // holds wait_lock: np->parent = p
    | ForkDrop(np: nat)                 // release(&wait_lock)
    | ForkLast(np: nat)                 // np->state = RUNNABLE
    | Exiting(j: nat)                   // kexit holding wait_lock, reparent's loop at slot j
    | ExitGive(j: nat)                  // slot j has just been given to init: wakeup(initproc)
    | ExitWake                          // wakeup(p->parent)
    | ExitLast                          // p->state = ZOMBIE
    | ExitDrop                          // state is ZOMBIE: release(&wait_lock)
    | Dead                              // in sched() for the last time
    | Waiting(j: nat)                   // kwait holding wait_lock, scan at slot j
    | WaitDrop                          // release(&wait_lock) and return
    | WaitSleep                         // asleep in kwait, wait_lock released

  /** `pid` holds birth numbers, of which Pid gives the pid proper; `reaped` and `exited` record those that
      kwait has returned and that have become zombies. */
  datatype State = State(
    wl: Option<nat>, life: seq<Life>, parent: seq<Option<nat>>, pid: seq<nat>, nextpid: nat,
    pc: seq<Pc>, maker: seq<nat>, exited: set<nat>, reaped: seq<nat>)

  datatype Event =
    | Fork(p: nat, np: nat)      // allocproc gives slot np
    | ForkFail(p: nat)           // uvmcopy fails: freeproc(np)
    | Exit(p: nat)               // kexit takes wait_lock
    | Wait(p: nat)               // kwait takes wait_lock, first or after sleeping
    | Go(p: nat, ok: bool)       // the next step; in kwait, ok is false if copyout fails or it must sleep
    | Resched(p: nat, to: Life)  // scheduler, wakeup and sleep move a live process between states

  /** Index 0 is the init process. */
  const INIT: nat := 0

  predicate Sized(s: State, n: nat) {
    n > 0 && |s.life| == n && |s.parent| == n && |s.pid| == n && |s.pc| == n && |s.maker| == n
  }

  predicate WlPc(c: Pc) {
    c.ForkParent? || c.ForkDrop? || ExitPc(c) || c.ExitDrop? || c.Waiting? || c.WaitDrop?
  }

  /** In kexit, before it is a zombie. */
  predicate ExitPc(c: Pc) { c.Exiting? || c.ExitGive? || c.ExitWake? || c.ExitLast? }

  predicate ForkPc(c: Pc) { c.Forking? || c.ForkParent? || c.ForkDrop? || c.ForkLast? }

  predicate Enabled(s: State, e: Event, n: nat)
    requires Sized(s, n)
  {
    e.p < n && (Alive(s.life[e.p]) || (e.Go? && s.pc[e.p].ExitDrop?)) &&
    match e
    case Fork(p, np) => s.pc[p] == Idle && np < n && s.life[np] == Unused
    case ForkFail(p) => s.pc[p].Forking? && s.pc[p].np < n
    case Exit(p) => s.pc[p] == Idle && p != INIT && s.wl == None
    case Wait(p) => (s.pc[p] == Idle || (s.pc[p] == WaitSleep && s.life[p] != Sleeping)) && s.wl == None
    case Go(p, ok) =>
      (match s.pc[p]
       case Idle => false
       case Dead => false
       case WaitSleep => false
       case Forking(np) => s.wl == None && np < n
       case ForkParent(np) => np < n
       case ForkDrop(np) => np < n
       case ForkLast(np) => np < n
       case _ => true)
    case Resched(p, to) => Alive(to) && (s.pc[p] == WaitSleep ==> to != Sleeping)
  }

  /** Asleep in kwait, on its own channel. */
  predicate Asleep(s: State, q: nat) {
    q < |s.pc| && q < |s.life| && s.pc[q] == WaitSleep && s.life[q] == Sleeping
  }

  /** wakeup on the channel of q, where only q itself sleeps. */
  function Woken(s: State, q: nat): (r: seq<Life>)
    ensures |r| == |s.life|
  {
    if Asleep(s, q) then s.life[q := Runnable] else s.life
  }

  /** The steps of kfork. */
  function ForkStep(s: State, p: nat, n: nat): State
    requires Sized(s, n) && p < n && ForkPc(s.pc[p]) && s.pc[p].np < n
  {
    match s.pc[p]
    case Forking(np) => s.(wl := Some(p), pc := s.pc[p := ForkParent(np)])
    case ForkParent(np) => s.(parent := s.parent[np := Some(p)], pc := s.pc[p := ForkDrop(np)])
    case ForkDrop(np) => s.(wl := None, pc := s.pc[p := ForkLast(np)])
    case ForkLast(np) => s.(life := s.life[np := Runnable], pc := s.pc[p := Idle])
  }

  predicate Ending(c: Pc) { ExitPc(c) || c.ExitDrop? }

  /** The steps of kexit. */
  function ExitStep(s: State, p: nat, n: nat): State
    requires Sized(s, n) && p < n && Ending(s.pc[p])
  {
    match s.pc[p]
    case Exiting(j) =>
      if j >= n then s.(pc := s.pc[p := ExitWake])
      else if s.parent[j] == Some(p) then s.(parent := s.parent[j := Some(INIT)], pc := s.pc[p := ExitGive(j)])
      else s.(pc := s.pc[p := Exiting(j + 1)])
    case ExitGive(j) => s.(life := Woken(s, INIT), pc := s.pc[p := Exiting(j + 1)])
    case ExitWake =>
      s.(life := if s.parent[p].Some? then Woken(s, s.parent[p].value) else s.life, pc := s.pc[p := ExitLast])
    case ExitLast => s.(life := s.life[p := Zombie], exited := s.exited + {s.pid[p]}, pc := s.pc[p := ExitDrop])
    case ExitDrop => s.(wl := None, pc := s.pc[p := Dead])
  }

  predicate Scanning(c: Pc) { c.Waiting? || c.WaitDrop? }

  /** The steps of kwait. */
  function WaitStep(s: State, p: nat, ok: bool, n: nat): State
    requires Sized(s, n) && p < n && Scanning(s.pc[p])
  {
    match s.pc[p]
    case Waiting(j) =>
      if j >= n then
        if ok then s.(pc := s.pc[p := WaitDrop])
        else s.(pc := s.pc[p := WaitSleep], wl := None, life := s.life[p := Sleeping])
      else if s.parent[j] == Some(p) && s.life[j] == Zombie then
        if ok then Reap(s, p, j) else s.(pc := s.pc[p := WaitDrop])
      else s.(pc := s.pc[p := Waiting(j + 1)])
    case WaitDrop => s.(wl := None, pc := s.pc[p := Idle])
  }

  function Step(s: State, p: nat, ok: bool, n: nat): State
    requires Sized(s, n) && Enabled(s, Go(p, ok), n)
  {
    if ForkPc(s.pc[p]) then ForkStep(s, p, n) else if Ending(s.pc[p]) then ExitStep(s, p, n) else WaitStep(s, p, ok, n)
  }

  /** freeproc of the zombie in slot j, whose pid kwait returns. */
  function Reap(s: State, p: nat, j: nat): State
    requires p < |s.pc| && j < |s.life| && j < |s.parent| && j < |s.pid| && j < |s.pc|
  {
    s.(life := s.life[j := Unused], parent := s.parent[j := None], pid := s.pid[j := 0],
       pc := s.pc[j := Idle][p := WaitDrop], reaped := s.reaped + [s.pid[j]])
  }

  function Next(s: State, e: Event, n: nat): State
    requires Sized(s, n) && Enabled(s, e, n)
  {
    match e
    case Fork(p, np) =>
      s.(life := s.life[np := Used], pid := s.pid[np := s.nextpid], nextpid := s.nextpid + 1,
         maker := s.maker[np := p], pc := s.pc[np := Idle][p := Forking(np)])
    case ForkFail(p) =>
      var np := s.pc[p].np;
      s.(life := s.life[np := Unused], parent := s.parent[np := None], pid := s.pid[np := 0], pc := s.pc[p := Idle])
    case Exit(p) => s.(wl := Some(p), pc := s.pc[p := Exiting(0)])
    case Wait(p) => s.(wl := Some(p), pc := s.pc[p := Waiting(0)])
    case Go(p, ok) => Step(s, p, ok, n)
    case Resched(p, to) => s.(life := s.life[p := to])
  }

  /** After userinit: init alone. */
  predicate Initial(s: State, n: nat) {
    && Sized(s, n) && s.wl == None && Alive(s.life[INIT]) && s.nextpid == 2 && s.pid[INIT] == 1 && s.exited == {}
    && s.reaped == []
    && (forall p :: 0 <= p < n ==> s.parent[p] == None && s.pc[p] == Idle && (p != INIT ==> s.life[p] == Unused))
  }

  // ---- Invariant ----

  /** The tree: a parent is always a live process; everyone but init has one. */
  ghost predicate TreeOk(s: State, q: nat)
    requires q < |s.life| && q < |s.parent|
  {
    && (s.parent[q].Some? ==> s.parent[q].value < |s.life| && Alive(s.life[s.parent[q].value]))
    && ((Alive(s.life[q]) || s.life[q] == Zombie) && q != INIT ==> s.parent[q].Some?)
    && (s.life[q] == Unused ==> s.parent[q] == None)
    && (q == INIT ==> Alive(s.life[q]))
  }

  /** Where a process is agrees with its state and with wait_lock. */
  ghost predicate PcOk(s: State, q: nat)
    requires q < |s.life| && q < |s.pc|
  {
    && (WlPc(s.pc[q]) <==> s.wl == Some(q))
    && (s.life[q] == Unused || s.life[q] == Used ==> s.pc[q] == Idle)
    && (s.life[q] == Zombie <==> s.pc[q].ExitDrop? || s.pc[q].Dead?)
  }

  /** A process making a child. */
  ghost predicate TaskOk(s: State, q: nat)
    requires q < |s.pc| && |s.life| == |s.parent| == |s.maker|
  {
    && (ForkPc(s.pc[q]) ==> var np := s.pc[q].np; np < |s.life| && s.life[np] == Used && s.maker[np] == q && np != q)
    && (s.pc[q].ForkDrop? || s.pc[q].ForkLast? ==> s.parent[s.pc[q].np] == Some(q))
  }

  /** The slots reparent has passed. */
  function Given(c: Pc, n: nat): nat { if c.Exiting? then c.j else if c.ExitGive? then c.j + 1 else n }

  /** A process in kexit has given away the children in the slots it has passed. */
  ghost predicate GiveOk(s: State, q: nat)
    requires q < |s.pc|
  {
    ExitPc(s.pc[q]) ==>
      q != INIT && forall i :: 0 <= i < Given(s.pc[q], |s.parent|) && i < |s.parent| ==> s.parent[i] != Some(q)
  }

  /** Pids are unique; a zombie's pid is recorded as exited and not yet reaped. */
  ghost predicate PidOk(s: State, q: nat)
    requires q < |s.life| && q < |s.pid|
  {
    && (s.life[q] != Unused ==> s.pid[q] < s.nextpid && s.pid[q] !in s.reaped)
    && (s.life[q] != Unused ==> (s.life[q] == Zombie <==> s.pid[q] in s.exited))
  }

  ghost predicate PidsDiffer(s: State, q: nat, r: nat)
    requires q < |s.life| && q < |s.pid| && r < |s.life| && r < |s.pid|
  {
    s.life[q] != Unused && s.life[r] != Unused && q != r ==> s.pid[q] != s.pid[r]
  }

  /** Every pid that exited is that of a zombie still in the table, or has been reaped. */
  ghost predicate Accounted(s: State, x: nat) {
    x in s.exited ==> x < s.nextpid && (x in s.reaped || exists q :: ZombieAt(s, q, x))
  }

  ghost predicate ZombieAt(s: State, q: int, x: nat) {
    0 <= q < |s.life| && q < |s.pid| && s.life[q] == Zombie && s.pid[q] == x
  }

  ghost predicate ZombieChild(s: State, q: nat, c: nat) {
    c < |s.life| && c < |s.parent| && s.life[c] == Zombie && s.parent[c] == Some(q)
  }

  /** kwait's scan has met no zombie child in the slots it has passed; kexit has woken the parent. */
  ghost predicate ScanOk(s: State, q: nat)
    requires q < |s.pc| && q < |s.parent|
  {
    && (s.pc[q].Waiting? ==> forall c {:trigger ZombieChild(s, q, c)} :: 0 <= c < s.pc[q].j ==> !ZombieChild(s, q, c))
    && (s.pc[q].ExitLast? && s.parent[q].Some? ==> !Asleep(s, s.parent[q].value))
  }

  /** Nobody sleeps over a zombie child, except init until the process that gave it away wakes it. */
  ghost predicate AsleepOk(s: State, q: nat, c: nat) {
    Asleep(s, q) && ZombieChild(s, q, c) ==>
      q == INIT && s.wl.Some? && s.wl.value < |s.pc| && s.pc[s.wl.value].ExitGive?
  }

  ghost predicate Inv(s: State, n: nat) {
    && Sized(s, n)
    && (forall q {:trigger TreeOk(s, q)} :: 0 <= q < n ==> TreeOk(s, q))
    && (forall q {:trigger PcOk(s, q)} :: 0 <= q < n ==> PcOk(s, q))
    && (forall q {:trigger TaskOk(s, q)} :: 0 <= q < n ==> TaskOk(s, q))
    && (forall q {:trigger GiveOk(s, q)} :: 0 <= q < n ==> GiveOk(s, q))
    && (forall q {:trigger PidOk(s, q)} :: 0 <= q < n ==> PidOk(s, q))
    && (forall q, r {:trigger PidsDiffer(s, q, r)} :: 0 <= q < n && 0 <= r < n ==> PidsDiffer(s, q, r))
    && (forall q {:trigger ScanOk(s, q)} :: 0 <= q < n ==> ScanOk(s, q))
    && (forall q, c {:trigger AsleepOk(s, q, c)} :: 0 <= q < n && 0 <= c < n ==> AsleepOk(s, q, c))
    && (forall x: nat {:trigger Accounted(s, x)} :: Accounted(s, x))
    && (forall i, j :: 0 <= i < j < |s.reaped| ==> s.reaped[i] != s.reaped[j])
    && (forall x :: x in s.reaped ==> x in s.exited)
  }

  /** What the proof of one step uses: the process that moves and the one looked at. */
  ghost predicate PairOk(s: State, p: nat, q: nat, n: nat) {
    && Sized(s, n) && p < n && q < n && TreeOk(s, p) && TreeOk(s, q) && TreeOk(s, INIT)
    && PcOk(s, p) && PcOk(s, q) && TaskOk(s, p) && TaskOk(s, q) && GiveOk(s, p) && GiveOk(s, q)
  }

  lemma ForkKeepsTree(s: State, p: nat, ok: bool, q: nat, n: nat)
    requires PairOk(s, p, q, n) && Enabled(s, Go(p, ok), n) && ForkPc(s.pc[p])
    requires (ForkPc(s.pc[p]) ==> TreeOk(s, s.pc[p].np))
    ensures Sized(Step(s, p, ok, n), n) && TreeOk(Step(s, p, ok, n), q)
  {
    hide ExitStep, WaitStep;
  }

  lemma ExitKeepsTree(s: State, p: nat, ok: bool, q: nat, n: nat)
    requires PairOk(s, p, q, n) && Enabled(s, Go(p, ok), n) && Ending(s.pc[p])
    requires (ForkPc(s.pc[p]) ==> TreeOk(s, s.pc[p].np))
    ensures Sized(Step(s, p, ok, n), n) && TreeOk(Step(s, p, ok, n), q)
  {
    hide ForkStep, WaitStep;
  }

  lemma WaitKeepsTree(s: State, p: nat, ok: bool, q: nat, n: nat)
    requires PairOk(s, p, q, n) && Enabled(s, Go(p, ok), n) && Scanning(s.pc[p])
    requires (ForkPc(s.pc[p]) ==> TreeOk(s, s.pc[p].np))
    ensures Sized(Step(s, p, ok, n), n) && TreeOk(Step(s, p, ok, n), q)
  {
    hide ForkStep, ExitStep;
  }

  lemma GoTree(s: State, p: nat, ok: bool, q: nat, n: nat)
    requires PairOk(s, p, q, n) && Enabled(s, Go(p, ok), n) && (ForkPc(s.pc[p]) ==> TreeOk(s, s.pc[p].np))
    ensures Sized(Step(s, p, ok, n), n) && TreeOk(Step(s, p, ok, n), q)
  {
    hide Step, TreeOk, PcOk, TaskOk, GiveOk;
    if ForkPc(s.pc[p]) { ForkKeepsTree(s, p, ok, q, n); }
    else if Ending(s.pc[p]) { ExitKeepsTree(s, p, ok, q, n); }
    else { WaitKeepsTree(s, p, ok, q, n); }
  }

  lemma NextTree(s: State, e: Event, q: nat, n: nat)
    requires PairOk(s, e.p, q, n) && Enabled(s, e, n) && (ForkPc(s.pc[e.p]) ==> TreeOk(s, s.pc[e.p].np))
    ensures Sized(Next(s, e, n), n) && TreeOk(Next(s, e, n), q)
  {
    hide Step;
    if e.Go? { GoTree(s, e.p, e.ok, q, n); }
  }

  lemma ForkKeepsPc(s: State, p: nat, ok: bool, q: nat, n: nat)
    requires PairOk(s, p, q, n) && Enabled(s, Go(p, ok), n) && ForkPc(s.pc[p])
    ensures Sized(Step(s, p, ok, n), n) && PcOk(Step(s, p, ok, n), q)
  {
    hide ExitStep, WaitStep, TreeOk, GiveOk;
  }

  lemma ExitKeepsPc(s: State, p: nat, ok: bool, q: nat, n: nat)
    requires PairOk(s, p, q, n) && Enabled(s, Go(p, ok), n) && Ending(s.pc[p])
    ensures Sized(Step(s, p, ok, n), n) && PcOk(Step(s, p, ok, n), q)
  {
    hide ForkStep, WaitStep, TreeOk, GiveOk;
  }

  lemma WaitKeepsPc(s: State, p: nat, ok: bool, q: nat, n: nat)
    requires PairOk(s, p, q, n) && Enabled(s, Go(p, ok), n) && Scanning(s.pc[p])
    ensures Sized(Step(s, p, ok, n), n) && PcOk(Step(s, p, ok, n), q)
  {
    hide ForkStep, ExitStep, TreeOk, GiveOk;
  }

  lemma GoPc(s: State, p: nat, ok: bool, q: nat, n: nat)
    requires PairOk(s, p, q, n) && Enabled(s, Go(p, ok), n)
    ensures Sized(Step(s, p, ok, n), n) && PcOk(Step(s, p, ok, n), q)
  {
    hide Step, TreeOk, PcOk, TaskOk, GiveOk;
    if ForkPc(s.pc[p]) { ForkKeepsPc(s, p, ok, q, n); }
    else if Ending(s.pc[p]) { ExitKeepsPc(s, p, ok, q, n); }
    else { WaitKeepsPc(s, p, ok, q, n); }
  }

  lemma NextPc(s: State, e: Event, q: nat, n: nat)
    requires PairOk(s, e.p, q, n) && Enabled(s, e, n)
    ensures Sized(Next(s, e, n), n) && PcOk(Next(s, e, n), q)
  {
    hide Step, TreeOk, GiveOk;
    if e.Go? { GoPc(s, e.p, e.ok, q, n); }
  }

  lemma ForkKeepsTask(s: State, p: nat, ok: bool, q: nat, n: nat)
    requires PairOk(s, p, q, n) && Enabled(s, Go(p, ok), n) && ForkPc(s.pc[p])
    ensures Sized(Step(s, p, ok, n), n) && TaskOk(Step(s, p, ok, n), q)
  {
    hide ExitStep, WaitStep, TreeOk, GiveOk;
  }

  lemma ExitKeepsTask(s: State, p: nat, ok: bool, q: nat, n: nat)
    requires PairOk(s, p, q, n) && Enabled(s, Go(p, ok), n) && Ending(s.pc[p])
    ensures Sized(Step(s, p, ok, n), n) && TaskOk(Step(s, p, ok, n), q)
  {
    hide ForkStep, WaitStep, TreeOk, GiveOk;
  }

  lemma WaitKeepsTask(s: State, p: nat, ok: bool, q: nat, n: nat)
    requires PairOk(s, p, q, n) && Enabled(s, Go(p, ok), n) && Scanning(s.pc[p])
    ensures Sized(Step(s, p, ok, n), n) && TaskOk(Step(s, p, ok, n), q)
  {
    hide ForkStep, ExitStep, TreeOk, GiveOk;
  }

  lemma GoTask(s: State, p: nat, ok: bool, q: nat, n: nat)
    requires PairOk(s, p, q, n) && Enabled(s, Go(p, ok), n)
    ensures Sized(Step(s, p, ok, n), n) && TaskOk(Step(s, p, ok, n), q)
  {
    hide Step, TreeOk, PcOk, TaskOk, GiveOk;
    if ForkPc(s.pc[p]) { ForkKeepsTask(s, p, ok, q, n); }
    else if Ending(s.pc[p]) { ExitKeepsTask(s, p, ok, q, n); }
    else { WaitKeepsTask(s, p, ok, q, n); }
  }

  lemma NextTask(s: State, e: Event, q: nat, n: nat)
    requires PairOk(s, e.p, q, n) && Enabled(s, e, n)
    ensures Sized(Next(s, e, n), n) && TaskOk(Next(s, e, n), q)
  {
    hide Step, TreeOk, GiveOk;
    if e.Go? { GoTask(s, e.p, e.ok, q, n); }
  }

  lemma ForkKeepsGive(s: State, p: nat, ok: bool, q: nat, n: nat)
    requires PairOk(s, p, q, n) && Enabled(s, Go(p, ok), n) && ForkPc(s.pc[p])
    ensures Sized(Step(s, p, ok, n), n) && GiveOk(Step(s, p, ok, n), q)
  {
    hide ExitStep, WaitStep, TreeOk;
  }

  lemma ExitKeepsGive(s: State, p: nat, ok: bool, q: nat, n: nat)
    requires PairOk(s, p, q, n) && Enabled(s, Go(p, ok), n) && Ending(s.pc[p])
    ensures Sized(Step(s, p, ok, n), n) && GiveOk(Step(s, p, ok, n), q)
  {
    hide ForkStep, WaitStep, TreeOk;
  }

  lemma WaitKeepsGive(s: State, p: nat, ok: bool, q: nat, n: nat)
    requires PairOk(s, p, q, n) && Enabled(s, Go(p, ok), n) && Scanning(s.pc[p])
    ensures Sized(Step(s, p, ok, n), n) && GiveOk(Step(s, p, ok, n), q)
  {
    hide ForkStep, ExitStep, TreeOk;
  }

  lemma GoGive(s: State, p: nat, ok: bool, q: nat, n: nat)
    requires PairOk(s, p, q, n) && Enabled(s, Go(p, ok), n)
    ensures Sized(Step(s, p, ok, n), n) && GiveOk(Step(s, p, ok, n), q)
  {
    hide Step, TreeOk, PcOk, TaskOk, GiveOk;
    if ForkPc(s.pc[p]) { ForkKeepsGive(s, p, ok, q, n); }
    else if Ending(s.pc[p]) { ExitKeepsGive(s, p, ok, q, n); }
    else { WaitKeepsGive(s, p, ok, q, n); }
  }

  lemma NextGive(s: State, e: Event, q: nat, n: nat)
    requires PairOk(s, e.p, q, n) && Enabled(s, e, n)
    ensures Sized(Next(s, e, n), n) && GiveOk(Next(s, e, n), q)
  {
    hide Step, TreeOk;
    if e.Go? { GoGive(s, e.p, e.ok, q, n); }
  }

  /** What the pid of q depends on when p moves. */
  ghost predicate PidPair(s: State, p: nat, q: nat, n: nat) {
    && Sized(s, n) && p < n && q < n && PcOk(s, p) && PcOk(s, q) && TaskOk(s, p) && PidOk(s, p) && PidOk(s, q)
    && PidsDiffer(s, q, p) && Accounted(s, s.nextpid) && (s.nextpid in s.reaped ==> s.nextpid in s.exited)
    && (s.pc[p].Waiting? && s.pc[p].j < n ==> PidsDiffer(s, q, s.pc[p].j) && PidOk(s, s.pc[p].j))
  }

  lemma ForkKeepsPid(s: State, p: nat, ok: bool, q: nat, n: nat)
    requires PidPair(s, p, q, n) && Enabled(s, Go(p, ok), n) && ForkPc(s.pc[p])
    ensures Sized(Step(s, p, ok, n), n) && PidOk(Step(s, p, ok, n), q)
  {
    hide ExitStep, WaitStep;
  }

  lemma ExitKeepsPid(s: State, p: nat, ok: bool, q: nat, n: nat)
    requires PidPair(s, p, q, n) && Enabled(s, Go(p, ok), n) && Ending(s.pc[p])
    ensures Sized(Step(s, p, ok, n), n) && PidOk(Step(s, p, ok, n), q)
  {
    hide ForkStep, WaitStep;
  }

  lemma WaitKeepsPid(s: State, p: nat, ok: bool, q: nat, n: nat)
    requires PidPair(s, p, q, n) && Enabled(s, Go(p, ok), n) && Scanning(s.pc[p])
    ensures Sized(Step(s, p, ok, n), n) && PidOk(Step(s, p, ok, n), q)
  {
    hide ForkStep, ExitStep;
  }

  lemma GoPid(s: State, p: nat, ok: bool, q: nat, n: nat)
    requires PidPair(s, p, q, n) && Enabled(s, Go(p, ok), n)
    ensures Sized(Step(s, p, ok, n), n) && PidOk(Step(s, p, ok, n), q)
  {
    hide Step, PcOk, TaskOk, PidOk, PidsDiffer, Accounted;
    if ForkPc(s.pc[p]) { ForkKeepsPid(s, p, ok, q, n); }
    else if Ending(s.pc[p]) { ExitKeepsPid(s, p, ok, q, n); }
    else { WaitKeepsPid(s, p, ok, q, n); }
  }

  lemma OtherPid(s: State, e: Event, q: nat, n: nat)
    requires PidPair(s, e.p, q, n) && Enabled(s, e, n) && !e.Go?
    ensures Sized(Next(s, e, n), n) && PidOk(Next(s, e, n), q)
  {
    hide Step;
  }

  lemma NextPid(s: State, e: Event, q: nat, n: nat)
    requires Inv(s, n) && e.p < n && q < n && Enabled(s, e, n)
    ensures Sized(Next(s, e, n), n) && PidOk(Next(s, e, n), q)
  {
    hide TreeOk, GiveOk, Step, PcOk, TaskOk, PidOk, PidsDiffer, Accounted, ScanOk, AsleepOk;
    if s.pc[e.p].Waiting? && s.pc[e.p].j < n { assert PidsDiffer(s, q, s.pc[e.p].j) && PidOk(s, s.pc[e.p].j); }
    assert PidPair(s, e.p, q, n);
    if e.Go? { GoPid(s, e.p, e.ok, q, n); } else { OtherPid(s, e, q, n); }
  }

  lemma NextDiffer(s: State, e: Event, q: nat, r: nat, n: nat)
    requires Inv(s, n) && e.p < n && q < n && r < n && Enabled(s, e, n)
    ensures Sized(Next(s, e, n), n) && PidsDiffer(Next(s, e, n), q, r)
  {
    hide TreeOk, GiveOk;
    assert PcOk(s, e.p) && TaskOk(s, e.p) && PidOk(s, q) && PidOk(s, r) && PidsDiffer(s, q, r);
  }

  lemma NextAccounted(s: State, e: Event, x: nat, n: nat)
    requires Inv(s, n) && e.p < n && Enabled(s, e, n)
    ensures Accounted(Next(s, e, n), x)
  {
    hide TreeOk, GiveOk, ScanOk, AsleepOk, PidsDiffer;
    assert PcOk(s, e.p) && TaskOk(s, e.p) && PidOk(s, e.p) && Accounted(s, x);
    var s' := Next(s, e, n);
    if x in s'.exited && x !in s'.reaped {
      if x in s.exited {
        var q :| ZombieAt(s, q, x);
        assert ZombieAt(s', q, x);
      } else {
        assert ZombieAt(s', e.p, x);
      }
    }
  }

  lemma GoScan(s: State, p: nat, ok: bool, q: nat, n: nat)
    requires PairOk(s, p, q, n) && ScanOk(s, q) && Enabled(s, Go(p, ok), n)
    ensures Sized(Step(s, p, ok, n), n) && ScanOk(Step(s, p, ok, n), q)
  {
    hide GiveOk, TreeOk;
    var s' := Step(s, p, ok, n);
    if s'.pc[q].Waiting? {
      forall c | 0 <= c < s'.pc[q].j ensures !ZombieChild(s', q, c) { assert c < s.pc[q].j ==> !ZombieChild(s, q, c); }
    }
  }

  lemma NextScan(s: State, e: Event, q: nat, n: nat)
    requires PairOk(s, e.p, q, n) && ScanOk(s, q) && Enabled(s, e, n)
    ensures Sized(Next(s, e, n), n) && ScanOk(Next(s, e, n), q)
  {
    hide GiveOk, Step, TreeOk;
    if e.Go? { GoScan(s, e.p, e.ok, q, n); } else {
      var s' := Next(s, e, n);
      if s'.pc[q].Waiting? {
        forall c | 0 <= c < s'.pc[q].j ensures !ZombieChild(s', q, c) { assert !ZombieChild(s, q, c); }
      }
    }
  }

  lemma ForkKeepsAsleep(s: State, p: nat, ok: bool, q: nat, c: nat, n: nat)
    requires PairOk(s, p, q, n) && c < n && AsleepOk(s, q, c) && ScanOk(s, p) && Enabled(s, Go(p, ok), n)
    requires ForkPc(s.pc[p])
    ensures AsleepOk(Step(s, p, ok, n), q, c)
  {
    hide ExitStep, WaitStep, GiveOk, TreeOk;
  }

  lemma ExitKeepsAsleep(s: State, p: nat, ok: bool, q: nat, c: nat, n: nat)
    requires PairOk(s, p, q, n) && c < n && AsleepOk(s, q, c) && ScanOk(s, p) && Enabled(s, Go(p, ok), n)
    requires Ending(s.pc[p])
    ensures AsleepOk(Step(s, p, ok, n), q, c)
  {
    hide ForkStep, WaitStep, GiveOk, TreeOk;
  }

  lemma WaitKeepsAsleep(s: State, p: nat, ok: bool, q: nat, c: nat, n: nat)
    requires PairOk(s, p, q, n) && c < n && AsleepOk(s, q, c) && ScanOk(s, p) && Enabled(s, Go(p, ok), n)
    requires Scanning(s.pc[p])
    ensures AsleepOk(Step(s, p, ok, n), q, c)
  {
    hide ForkStep, ExitStep, GiveOk, TreeOk;
    assert s.pc[p].Waiting? && s.pc[p].j >= n ==> !ZombieChild(s, p, c);
  }

  lemma NextAsleep(s: State, e: Event, q: nat, c: nat, n: nat)
    requires PairOk(s, e.p, q, n) && c < n && AsleepOk(s, q, c) && ScanOk(s, e.p) && Enabled(s, e, n)
    requires e.Fork? ==> PcOk(s, e.np)
    ensures AsleepOk(Next(s, e, n), q, c)
  {
    hide GiveOk, Step, TreeOk;
    if e.Go? {
      var p, ok := e.p, e.ok;
      if ForkPc(s.pc[p]) { ForkKeepsAsleep(s, p, ok, q, c, n); }
      else if Ending(s.pc[p]) { ExitKeepsAsleep(s, p, ok, q, c, n); }
      else { WaitKeepsAsleep(s, p, ok, q, c, n); }
    }
  }

  lemma NextReaped(s: State, e: Event, n: nat)
    requires Inv(s, n) && e.p < n && Enabled(s, e, n)
    ensures var s' := Next(s, e, n);
            && (forall i, j :: 0 <= i < j < |s'.reaped| ==> s'.reaped[i] != s'.reaped[j])
            && (forall x :: x in s'.reaped ==> x in s'.exited)
  {
    hide TreeOk, PcOk, TaskOk, GiveOk;
    if e.Go? && s.pc[e.p].Waiting? && s.pc[e.p].j < n { assert PidOk(s, s.pc[e.p].j); }
  }

  lemma NextInv(s: State, e: Event, n: nat)
    requires Inv(s, n) && Enabled(s, e, n)
    ensures Inv(Next(s, e, n), n)
  {
    hide TreeOk, PcOk, TaskOk, GiveOk, PidOk, PidsDiffer, ScanOk, AsleepOk, Accounted, Next;
    var p, s' := e.p, Next(s, e, n);
    InRange(s, p, n);
    NextReaped(s, e, n);
    forall q | 0 <= q < n
      ensures Sized(s', n) && TreeOk(s', q) && PcOk(s', q) && TaskOk(s', q) && GiveOk(s', q) && PidOk(s', q)
      ensures ScanOk(s', q)
    {
      assert PairOk(s, p, q, n);
      NextTree(s, e, q, n);
      NextPc(s, e, q, n);
      NextTask(s, e, q, n);
      NextGive(s, e, q, n);
      NextPid(s, e, q, n);
      NextScan(s, e, q, n);
    }
    forall q, c | 0 <= q < n && 0 <= c < n ensures AsleepOk(s', q, c) {
      assert PairOk(s, p, q, n);
      assert e.Fork? ==> PcOk(s, e.np);
      NextAsleep(s, e, q, c, n);
    }
    assert Sized(s', n) by { NextPid(s, e, p, n); }
    forall q, r | 0 <= q < n && 0 <= r < n ensures PidsDiffer(s', q, r) { NextDiffer(s, e, q, r, n); }
    forall x: nat ensures Accounted(s', x) { NextAccounted(s, e, x, n); }
  }

  lemma InRange(s: State, p: nat, n: nat)
    requires Inv(s, n) && p < n
    ensures ForkPc(s.pc[p]) ==> s.pc[p].np < n && TreeOk(s, s.pc[p].np)
  {
    assert TaskOk(s, p);
  }

  // ---- Runs ----

  ghost predicate Run(ss: seq<State>, es: seq<Event>, n: nat) {
    && |ss| == |es| + 1 && Initial(ss[0], n)
    && forall i :: 0 <= i < |es| ==> Sized(ss[i], n) && Enabled(ss[i], es[i], n) && ss[i + 1] == Next(ss[i], es[i], n)
  }

  lemma {:induction false} RunInv(ss: seq<State>, es: seq<Event>, n: nat, i: nat)
    requires Run(ss, es, n) && i < |ss|
    ensures Inv(ss[i], n)
  {
    hide Enabled, Next, TreeOk, PcOk, TaskOk, GiveOk, PidOk, PidsDiffer, ScanOk, AsleepOk, Accounted;
    if i == 0 { InitialInv(ss[0], n); } else { RunInv(ss, es, n, i - 1); NextInv(ss[i - 1], es[i - 1], n); }
  }

  lemma InitialInv(s: State, n: nat)
    requires Initial(s, n)
    ensures Inv(s, n)
  {
    forall q | 0 <= q < n
      ensures TreeOk(s, q) && PcOk(s, q) && TaskOk(s, q) && GiveOk(s, q) && PidOk(s, q) && ScanOk(s, q)
    {
    }
    forall q, c | 0 <= q < n && 0 <= c < n ensures AsleepOk(s, q, c) {}
    forall q, r | 0 <= q < n && 0 <= r < n ensures PidsDiffer(s, q, r) {}
  }

  /** In every interleaving, at every step, each process other than init that is runnable, running,
      sleeping or a zombie has a parent that is alive: never an unused slot, a zombie, or one still being
      made. */
  lemma ParentsAlive(ss: seq<State>, es: seq<Event>, n: nat, i: nat, q: nat)
    requires Run(ss, es, n) && i < |ss| && q < n && q != INIT
    ensures Sized(ss[i], n)
    ensures var s := ss[i]; Alive(s.life[q]) || s.life[q] == Zombie ==>
              s.parent[q].Some? && s.parent[q].value < n && Alive(s.life[s.parent[q].value])
  {
    hide Run;
    RunInv(ss, es, n, i);
    assert TreeOk(ss[i], q);
  }

  /** Zombies are reaped exactly once: no pid is returned twice, only pids that exited are returned, and a
      pid that exited and was not yet returned is that of exactly one slot, a zombie. */
  lemma ReapedOnce(ss: seq<State>, es: seq<Event>, n: nat, i: nat)
    requires Run(ss, es, n) && i < |ss|
    ensures Sized(ss[i], n)
    ensures var s := ss[i];
            && (forall j, k :: 0 <= j < k < |s.reaped| ==> s.reaped[j] != s.reaped[k])
            && (forall x :: x in s.reaped ==> x in s.exited)
            && (forall x :: x in s.exited && x !in s.reaped ==> exists q :: ZombieAt(s, q, x))
            && (forall q, r, x :: ZombieAt(s, q, x) && ZombieAt(s, r, x) ==> q == r && x !in s.reaped)
  {
    hide Run, TreeOk, PcOk, TaskOk;
    RunInv(ss, es, n, i);
    var s := ss[i];
    forall x | x in s.exited && x !in s.reaped ensures exists q :: ZombieAt(s, q, x) { assert Accounted(s, x); }
    forall q, r, x | ZombieAt(s, q, x) && ZombieAt(s, r, x) ensures q == r && x !in s.reaped {
      assert PidsDiffer(s, q, r) && PidOk(s, q);
    }
  }

  /** No exit goes unnoticed: in every interleaving, whenever wait_lock is free, no process is asleep in kwait
      while it has a zombie child, its own or one that reparent gave to init. */
  lemma NoLostExit(ss: seq<State>, es: seq<Event>, n: nat, i: nat, q: nat, c: nat)
    requires Run(ss, es, n) && i < |ss| && q < n && c < n && ss[i].wl == None
    ensures !(Asleep(ss[i], q) && ZombieChild(ss[i], q, c))
  {
    hide Run, TreeOk, PcOk, TaskOk, GiveOk, PidOk;
    RunInv(ss, es, n, i);
    assert AsleepOk(ss[i], q, c);
  }

  // ---- Pids ----

  /** nextpid is an int: the pid of the b-th process. */
  function Pid(b: nat): int {
    if b % 0x1_0000_0000 < 0x8000_0000 then b % 0x1_0000_0000 else b % 0x1_0000_0000 - 0x1_0000_0000
  }

  /** Two processes can share a pid only once the counter has wrapped between them. */
  lemma PidsShared(b: nat, c: nat)
    ensures Pid(b) == Pid(c) <==> b % 0x1_0000_0000 == c % 0x1_0000_0000
    ensures b != c && Pid(b) == Pid(c) ==> b >= c + 0x1_0000_0000 || c >= b + 0x1_0000_0000
  {
    assert b == 0x1_0000_0000 * (b / 0x1_0000_0000) + b % 0x1_0000_0000;
    assert c == 0x1_0000_0000 * (c / 0x1_0000_0000) + c % 0x1_0000_0000;
  }

  /** In every run, processes in the table have different pids, unless one is 2^32 or more births younger. */
  lemma PidsUnique(ss: seq<State>, es: seq<Event>, n: nat, i: nat, q: nat, r: nat)
    requires Run(ss, es, n) && i < |ss| && q < n && r < n && q != r
    ensures Sized(ss[i], n)
    ensures var s := ss[i]; s.life[q] != Unused && s.life[r] != Unused && Pid(s.pid[q]) == Pid(s.pid[r]) ==>
              s.pid[q] >= s.pid[r] + 0x1_0000_0000 || s.pid[r] >= s.pid[q] + 0x1_0000_0000
  {
    hide Run, TreeOk, PcOk, TaskOk, GiveOk, ScanOk;
    RunInv(ss, es, n, i);
    assert PidsDiffer(ss[i], q, r);
    PidsShared(ss[i].pid[q], ss[i].pid[r]);
  }

  ghost predicate RunTo(ss: seq<State>, es: seq<Event>, n: nat, s: State) {
    Run(ss, es, n) && ss[|es|] == s
  }

  ghost predicate Reachable(s: State, n: nat) {
    exists ss, es :: RunTo(ss, es, n, s)
  }

  lemma NextSized(s: State, e: Event, n: nat)
    requires Sized(s, n) && Enabled(s, e, n)
    ensures Sized(Next(s, e, n), n)
  {
  }

  lemma Extend(s: State, e: Event, n: nat)
    requires Reachable(s, n) && Sized(s, n) && Enabled(s, e, n)
    ensures Reachable(Next(s, e, n), n) && Sized(Next(s, e, n), n)
  {
    hide Initial, Enabled, Next, Sized;
    NextSized(s, e, n);
    var ss, es :| RunTo(ss, es, n, s);
    var ts, fs := ss + [Next(s, e, n)], es + [e];
    forall i | 0 <= i < |fs|
      ensures Sized(ts[i], n) && Enabled(ts[i], fs[i], n) && ts[i + 1] == Next(ts[i], fs[i], n)
    {
      assert ts[i] == ss[i] && (i < |es| ==> fs[i] == es[i] && ts[i + 1] == ss[i + 1]);
    }
    assert RunTo(ts, fs, n, Next(s, e, n));
  }

  /** init is about to fork, and slot np is free. */
  predicate ForkReady(s: State, np: nat, n: nat) {
    && Sized(s, n) && s.wl == None && Alive(s.life[INIT]) && s.pc[INIT] == Idle
    && np < n && np != INIT && s.life[np] == Unused
  }

  /** The table after init has forked into slot np. */
  function Born(s: State, np: nat, n: nat): State
    requires ForkReady(s, np, n)
  {
    s.(life := s.life[np := Runnable], parent := s.parent[np := Some(INIT)], pid := s.pid[np := s.nextpid],
       nextpid := s.nextpid + 1, maker := s.maker[np := INIT], pc := s.pc[np := Idle])
  }

  lemma ForkRun(s: State, np: nat, n: nat)
    requires Reachable(s, n) && ForkReady(s, np, n)
    ensures Reachable(Born(s, np, n), n)
  {
    hide Reachable;
    Extend(s, Fork(INIT, np), n);
    var s1 := Next(s, Fork(INIT, np), n);
    Extend(s1, Go(INIT, true), n);
    var s2 := Next(s1, Go(INIT, true), n);
    Extend(s2, Go(INIT, true), n);
    var s3 := Next(s2, Go(INIT, true), n);
    Extend(s3, Go(INIT, true), n);
    var s4 := Next(s3, Go(INIT, true), n);
    Extend(s4, Go(INIT, true), n);
    assert Next(s4, Go(INIT, true), n) == Born(s, np, n);
  }

  /** A fork for which there is not enough memory. */
  lemma FailedForkRun(s: State, np: nat, n: nat) returns (t: State)
    requires Reachable(s, n) && ForkReady(s, np, n)
    ensures Reachable(t, n) && ForkReady(t, np, n) && t.nextpid == s.nextpid + 1
    ensures forall q :: 0 <= q < n && q != np ==> t.life[q] == s.life[q] && t.pid[q] == s.pid[q]
  {
    hide Reachable;
    Extend(s, Fork(INIT, np), n);
    var u := Next(s, Fork(INIT, np), n);
    Extend(u, ForkFail(INIT), n);
    t := Next(u, ForkFail(INIT), n);
  }

  /** Failed forks use pids up. */
  lemma {:induction false} FailedForks(s: State, np: nat, n: nat, k: nat) returns (t: State)
    requires Reachable(s, n) && ForkReady(s, np, n)
    ensures Reachable(t, n) && ForkReady(t, np, n) && t.nextpid == s.nextpid + k
    ensures forall q :: 0 <= q < n && q != np ==> t.life[q] == s.life[q] && t.pid[q] == s.pid[q]
  {
    hide Reachable;
    t := s;
    if k > 0 {
      t := FailedForks(s, np, n, k - 1);
      t := FailedForkRun(t, np, n);
    }
  }

  lemma First(n: nat) returns (s: State)
    requires n > 0
    ensures Reachable(s, n) && Initial(s, n)
  {
    s := State(None, seq(n, q => if q == INIT then Running else Unused), seq(n, q => None), seq(n, q => 1), 2,
               seq(n, q => Idle), seq(n, q => INIT), {}, []);
    assert RunTo([s], [], n, s);
  }

  lemma SharedState(n: nat) returns (s: State)
    requires n >= 3
    ensures Reachable(s, n) && Sized(s, n)
    ensures Alive(s.life[1]) && Alive(s.life[2]) && s.pid[1] != s.pid[2] && Pid(s.pid[1]) == Pid(s.pid[2]) == 2
  {
    hide Reachable;
    s := First(n);
    ForkRun(s, 2, n);
    s := FailedForks(Born(s, 2, n), 1, n, 0xFFFF_FFFF);
    ForkRun(s, 1, n);
    s := Born(s, 1, n);
    assert s.pid[2] == 2 && s.pid[1] == 0x1_0000_0002;
  }

  /** In some run two live processes do share a pid: init's first child outlives 2^32 - 1 births that come to
      nothing, and the next child gets its pid. */
  lemma SharedRun(n: nat) returns (ss: seq<State>, es: seq<Event>)
    requires n >= 3
    ensures Run(ss, es, n) && Sized(ss[|es|], n)
    ensures var s := ss[|es|];
            Alive(s.life[1]) && Alive(s.life[2]) && s.pid[1] != s.pid[2] && Pid(s.pid[1]) == Pid(s.pid[2]) == 2
  {
    hide Run;
    var s := SharedState(n);
    ss, es :| RunTo(ss, es, n, s);
  }
}
