/** The system-call sandbox: the mask checks of kernel/syscall.c, the handlers of kernel/sysproc.c and the
    inheritance in kernel/proc.c's kfork, over whole runs and process trees. */
module Filter {

  const SYS_FORK: nat := 1
  const SYS_KILL: nat := 6
  const SYS_EXEC: nat := 7
  const SYS_SBRK: nat := 12
  const SYS_OPEN: nat := 15
  const SYS_UNLINK: nat := 18
  const SYS_SETFILTER: nat := 23
  const SYS_SETFILTER_CHILD: nat := 25
  const NSYSCALLS: nat := 28

  /** Every bit of k is set in m. */
  predicate Covers(m: bv64, k: bv64) { m & k == k }

  function Bit(num: nat): bv64
    requires num < 64
  {
    1 << num
  }

  /** Some bit of k is set in m. */
  predicate Meets(m: bv64, k: bv64) { m & k != 0 }

  predicate Blocks(m: bv64, num: nat)
    requires num < 64
  {
    Meets(m, Bit(num))
  }

  lemma CoversTrans(a: bv64, b: bv64, c: bv64)
    requires Covers(a, b) && Covers(b, c)
    ensures Covers(a, c)
  {
    assert a & c == a & (b & c) == (a & b) & c == b & c;
  }

  lemma CoversSelf(a: bv64)
    ensures Covers(a, a) && Covers(a, 0)
  {
  }

  lemma CoversBlocks(a: bv64, b: bv64, num: nat)
    requires num < 64 && Covers(a, b) && Blocks(b, num)
    ensures Blocks(a, num)
  {
    hide Bit, Covers, Meets;
    BitKept(a, b, Bit(num));
  }

  lemma BitKept(a: bv64, b: bv64, k: bv64)
    requires Covers(a, b) && Meets(b, k)
    ensures Meets(a, k)
  {
  }

  /** The filter state of a process: syscall_mask and child_syscall_mask. */
  datatype Masks = Masks(mask: bv64, pending: bv64)

  /** System calls whose blocked form the dispatcher may still let through, depending on arguments. */
  predicate HasException(num: nat) {
    num == SYS_OPEN || num == SYS_KILL || num == SYS_EXEC || num == SYS_UNLINK || num == SYS_SBRK
  }

  /** Whether syscall() runs the handler; `pass` is the verdict of the argument checks, where there are some. */
  predicate Runs(m: Masks, num: nat, pass: bool) {
    0 < num < NSYSCALLS && (Blocks(m.mask, num) ==> HasException(num) && pass)
  }

  /** The filter state after the process calls system call num with argument arg, fork apart. */
  function Called(m: Masks, num: nat, arg: bv64, pass: bool): Masks {
    if !Runs(m, num, pass) then m
    else if num == SYS_SETFILTER && Covers(arg, m.mask) then m.(mask := arg)
    else if num == SYS_SETFILTER_CHILD && Covers(arg, m.mask) then m.(pending := arg)
    else m
  }

  /** The mask kfork gives to the child. */
  function ChildMask(m: Masks): bv64 {
    if m.pending != 0 then m.pending else m.mask
  }

  class Proc {
    var syscall_mask: bv64
    var child_syscall_mask: bv64

    function Value(): Masks
      reads this
    {
      Masks(syscall_mask, child_syscall_mask)
    }

    constructor (m: Masks)
      ensures Value() == m
    {
      syscall_mask, child_syscall_mask := m.mask, m.pending;
    }

    /** sys_setfilter: accepted exactly when no bit would be cleared. */
    method SetFilter(mask: bv64) returns (ok: bool)
      modifies this
      ensures ok <==> Covers(mask, old(syscall_mask))
      ensures Value() == if ok then Masks(mask, old(child_syscall_mask)) else old(Value())
      ensures Covers(syscall_mask, old(syscall_mask))
    {
      hide Covers;
      CoversSelf(syscall_mask);
      if !Covers(mask, syscall_mask) { return false; }
      syscall_mask := mask;
      return true;
    }

    /** sys_setfilter_child: the check is made against the mask of this moment. */
    method SetFilterChild(mask: bv64) returns (ok: bool)
      modifies this
      ensures ok <==> Covers(mask, old(syscall_mask))
      ensures Value() == if ok then Masks(old(syscall_mask), mask) else old(Value())
    {
      hide Covers;
      if !Covers(mask, syscall_mask) { return false; }
      child_syscall_mask := mask;
      return true;
    }

    /** syscall(): the dispatcher in front of the two handlers above; other handlers leave the filter alone. */
    method Syscall(num: nat, arg: bv64, pass: bool) returns (ran: bool)
      requires num != SYS_FORK
      modifies this
      ensures ran == Runs(old(Value()), num, pass)
      ensures Value() == Called(old(Value()), num, arg, pass)
    {
      hide Covers, Blocks;
      if !(0 < num < NSYSCALLS) { return false; }
      if Blocks(syscall_mask, num) {
        if num == SYS_OPEN || num == SYS_KILL || num == SYS_EXEC || num == SYS_UNLINK || num == SYS_SBRK {
          if pass { return true; }
        }
        return false;
      }
      if num == SYS_SETFILTER { var ok := SetFilter(arg); }
      else if num == SYS_SETFILTER_CHILD { var ok := SetFilterChild(arg); }
      return true;
    }

    /** kfork's part: the child's mask, and the parent's pending mask used up. The source resets it
        before copying memory, so it is used up even if fork then fails. */
    method Fork() returns (child: Masks)
      modifies this
      ensures child == Masks(ChildMask(old(Value())), 0) && Value() == Masks(old(syscall_mask), 0)
    {
      child := Masks(if child_syscall_mask != 0 then child_syscall_mask else syscall_mask, 0);
      child_syscall_mask := 0;
    }
  }

  // ---- One process ----

  /** A call never clears a bit, and once setfilter is blocked it never changes the mask. */
  lemma CallRatchet(m: Masks, num: nat, arg: bv64, pass: bool)
    ensures Covers(Called(m, num, arg, pass).mask, m.mask)
    ensures Blocks(m.mask, SYS_SETFILTER) ==> Called(m, num, arg, pass).mask == m.mask
  {
    hide Covers, Blocks;
    CoversSelf(m.mask);
  }

  /** The child is at least as restricted as the parent at the moment of the fork if and only if there is
      no pending mask or the pending mask covers the parent's. */
  lemma ChildCovers(m: Masks)
    ensures Covers(ChildMask(m), m.mask) <==> Fresh(m)
  {
    hide Covers;
    CoversSelf(m.mask);
  }

  // ---- Runs over process trees ----

  /** Processes are named by pid; one that has exited keeps its entry and takes no more steps. */
  type State = map<nat, Masks>

  datatype Event =
    | Call(p: nat, num: nat, arg: bv64, pass: bool)
    | Fork(p: nat, child: nat)     // child is a pid not used before
    | ForkFails(p: nat)            // after the pending mask was used up

  predicate Enabled(s: State, e: Event) {
    e.p in s &&
    match e
    case Call(p, num, arg, pass) => num != SYS_FORK
    case Fork(p, child) => child !in s && Runs(s[p], SYS_FORK, true)
    case ForkFails(p) => Runs(s[p], SYS_FORK, true)
  }

  function Next(s: State, e: Event): State
    requires Enabled(s, e)
  {
    match e
    case Call(p, num, arg, pass) => s[p := Called(s[p], num, arg, pass)]
    case Fork(p, child) => s[p := Masks(s[p].mask, 0)][child := Masks(ChildMask(s[p]), 0)]
    case ForkFails(p) => s[p := Masks(s[p].mask, 0)]
  }

  ghost predicate Run(ss: seq<State>, es: seq<Event>) {
    |ss| == |es| + 1 && forall i :: 0 <= i < |es| ==> Enabled(ss[i], es[i]) && ss[i + 1] == Next(ss[i], es[i])
  }

  lemma StepRatchet(s: State, e: Event, p: nat)
    requires Enabled(s, e) && p in s
    ensures p in Next(s, e) && Covers(Next(s, e)[p].mask, s[p].mask)
    ensures Blocks(s[p].mask, SYS_SETFILTER) ==> Next(s, e)[p].mask == s[p].mask
  {
    hide Covers, Called, Blocks;
    CoversSelf(s[p].mask);
    if e.Call? && e.p == p { CallRatchet(s[p], e.num, e.arg, e.pass); }
  }

  /** Over a process's life its mask only gains bits. */
  lemma {:induction false} MaskOnlyGrows(ss: seq<State>, es: seq<Event>, i: nat, j: nat, p: nat)
    requires Run(ss, es) && i <= j < |ss| && p in ss[i]
    ensures p in ss[j] && Covers(ss[j][p].mask, ss[i][p].mask)
    decreases j
  {
    hide Covers, Enabled, Next;
    if i == j { CoversSelf(ss[i][p].mask); }
    else {
      MaskOnlyGrows(ss, es, i, j - 1, p);
      StepRatchet(ss[j - 1], es[j - 1], p);
      CoversTrans(ss[j][p].mask, ss[j - 1][p].mask, ss[i][p].mask);
    }
  }

  /** Once the setfilter bit is set, the mask is frozen. */
  lemma {:induction false} FrozenOnceBlocked(ss: seq<State>, es: seq<Event>, i: nat, j: nat, p: nat)
    requires Run(ss, es) && i <= j < |ss| && p in ss[i] && Blocks(ss[i][p].mask, SYS_SETFILTER)
    ensures p in ss[j] && ss[j][p].mask == ss[i][p].mask
    decreases j
  {
    hide Covers, Enabled, Next, Blocks;
    if i < j {
      FrozenOnceBlocked(ss, es, i, j - 1, p);
      StepRatchet(ss[j - 1], es[j - 1], p);
    }
  }

  /** p and every descendant forked between steps i and j. */
  ghost function Family(es: seq<Event>, i: nat, j: nat, p: nat): set<nat>
    requires i <= j <= |es|
    decreases j
  {
    if i == j then {p}
    else
      var f := Family(es, i, j - 1, p);
      if es[j - 1].Fork? && es[j - 1].p in f then f + {es[j - 1].child} else f
  }

  /** The process and what it will hand on keep the bits of k. */
  ghost predicate Keeps(s: State, q: nat, k: bv64) {
    q in s && Covers(s[q].mask, k) && (s[q].pending == 0 || Covers(s[q].pending, k))
  }

  lemma StepKeeps(s: State, e: Event, q: nat, k: bv64)
    requires Enabled(s, e) && Keeps(s, q, k)
    ensures Keeps(Next(s, e), q, k)
    ensures e.Fork? && e.p == q ==> Keeps(Next(s, e), e.child, k)
  {
    hide Covers, Runs, Blocks;
    if e.Call? && e.p == q && Covers(e.arg, s[q].mask) { CoversTrans(e.arg, s[q].mask, k); }
  }

  /** No pending child mask, or one that covers the process's own mask. */
  predicate Fresh(m: Masks) { m.pending == 0 || Covers(m.pending, m.mask) }

  /** If p has no pending child mask at step i, or one that covers its mask, then p and every descendant
      forked after i keep, for ever, all the bits p had at step i. */
  lemma {:induction false} DescendantsKeep(ss: seq<State>, es: seq<Event>, i: nat, j: nat, p: nat, q: nat)
    requires Run(ss, es) && i <= j < |ss| && p in ss[i] && Fresh(ss[i][p]) && q in Family(es, i, j, p)
    ensures Keeps(ss[j], q, ss[i][p].mask)
    decreases j
  {
    hide Covers, Enabled, Next;
    if i == j { CoversSelf(ss[i][p].mask); }
    else {
      var e := es[j - 1];
      if q in Family(es, i, j - 1, p) {
        DescendantsKeep(ss, es, i, j - 1, p, q);
        StepKeeps(ss[j - 1], e, q, ss[i][p].mask);
      } else {
        DescendantsKeep(ss, es, i, j - 1, p, e.p);
        StepKeeps(ss[j - 1], e, e.p, ss[i][p].mask);
      }
    }
  }

  /** And only then: forked right away, the child keeps p's bits exactly under that condition. */
  lemma ForkedKeeps(ss: seq<State>, es: seq<Event>, i: nat, p: nat, child: nat)
    requires Run(ss, es) && i < |es| && es[i] == Fork(p, child)
    ensures p in ss[i] && child in ss[i + 1] && (Covers(ss[i + 1][child].mask, ss[i][p].mask) <==> Fresh(ss[i][p]))
  {
    hide Covers, Runs;
    assert Enabled(ss[i], es[i]);
    ChildCovers(ss[i][p]);
  }

  /** What the descendants keep blocked: every call without argument exceptions that p could not make
      at step i, they cannot make either. */
  lemma DescendantsBlocked(ss: seq<State>, es: seq<Event>, i: nat, j: nat, p: nat, q: nat, num: nat, pass: bool)
    requires Run(ss, es) && i <= j < |ss| && p in ss[i] && Fresh(ss[i][p]) && q in Family(es, i, j, p)
    requires 0 < num < NSYSCALLS && Blocks(ss[i][p].mask, num) && !HasException(num)
    ensures q in ss[j] && !Runs(ss[j][q], num, pass)
  {
    hide Run, Covers, Blocks;
    DescendantsKeep(ss, es, i, j, p, q);
    CoversBlocks(ss[j][q].mask, ss[i][p].mask, num);
  }

  /** Without the condition it fails: a pending mask set before the parent tightened its own gives a child
      that may do what the parent may not. */
  lemma PendingMaskCanBeStale()
    ensures exists ss: seq<State>, es ::
              Run(ss, es) && |es| == 3 && 1 in ss[2] && 2 in ss[3] && !Covers(ss[3][2].mask, ss[2][1].mask)
  {
    var s0: State := map[1 := Masks(0, 0)];
    var e0, e1, e2 := Call(1, SYS_SETFILTER_CHILD, 4, false), Call(1, SYS_SETFILTER, 0x100, false), Fork(1, 2);
    NothingBlocked();
    var s1, s2 := Next(s0, e0), map[1 := Masks(0x100, 4)];
    assert s1[1] == Masks(0, 4);
    assert Next(s1, e1) == s2;
    var s3 := Next(s2, e2);
    var ss, es := [s0, s1, s2, s3], [e0, e1, e2];
    assert Run(ss, es);
    assert s3[2].mask == 4 && !Covers(4, 0x100);
  }

  lemma NothingBlocked()
    ensures !Blocks(0, SYS_SETFILTER_CHILD) && !Blocks(0, SYS_SETFILTER) && !Blocks(0x100, SYS_FORK)
  {
  }
}
