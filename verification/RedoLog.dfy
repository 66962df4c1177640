/** The physical redo log of kernel/log.c: what the disk holds after every single block
    write of a commit and of a recovery, and why a crash between any two of them is atomic. */
module RedoLog {
  import opened Basics

  const LOGBLOCKS: nat := MAXOPBLOCKS * 3
  const WORDS: nat := 256

  /** A disk block as the sequence of its 32-bit words; the log looks no deeper than that. */
  type Block = b: seq<Uint> | |b| == WORDS witness seq(WORDS, _ => 0)

  type Disk = seq<Block>

  /** The header block and the LOGBLOCKS data blocks of the log. */
  predicate InLog(start: nat, b: nat) {
    start <= b <= start + LOGBLOCKS
  }

  /** Block numbers a transaction may carry: on the disk and outside the log area. */
  predicate Homes(size: nat, start: nat, nums: seq<Uint>) {
    |nums| <= LOGBLOCKS && forall i :: 0 <= i < |nums| ==> nums[i] < size && !InLog(start, nums[i])
  }

  function Count(d: Disk, start: nat): Uint
    requires start < |d|
  {
    d[start][0]
  }

  /** The block numbers recorded by the on-disk header. */
  function Header(d: Disk, start: nat): seq<Uint>
    requires start < |d| && Count(d, start) <= LOGBLOCKS
  {
    seq(Count(d, start), i requires 0 <= i < Count(d, start) => d[start][i + 1])
  }

  predicate Formatted(d: Disk, start: nat) {
    start + LOGBLOCKS < |d| && Count(d, start) <= LOGBLOCKS && Homes(|d|, start, Header(d, start))
  }

  /** Equal on every block outside the log area. */
  ghost predicate HomeEq(d: Disk, e: Disk, start: nat) {
    |d| == |e| && forall b :: 0 <= b < |d| && !InLog(start, b) ==> d[b] == e[b]
  }

  /** The disk a reader sees through the cache: pinned buffers hide the blocks under them. */
  function Overlay(d: Disk, cache: map<Uint, Block>): (r: Disk)
    ensures |r| == |d|
  {
    seq(|d|, b requires 0 <= b < |d| => if b < 0x1_0000_0000 && b in cache then cache[b] else d[b])
  }

  // ---- The disk after k block writes of each phase ----

  /** Header block `b` after n and the first k block numbers are stored; the rest keeps its bytes. */
  function HeadWords(b: Block, nums: seq<Uint>, k: nat): (r: Block)
    requires k <= |nums| <= LOGBLOCKS
    ensures r[0] == |nums|
    ensures forall i :: 0 <= i < k ==> r[i + 1] == nums[i]
  {
    if k == 0 then b[0 := |nums|] else HeadWords(b, nums, k - 1)[k := nums[k - 1]]
  }

  function Headed(d: Disk, start: nat, nums: seq<Uint>): (r: Disk)
    requires start < |d| && |nums| <= LOGBLOCKS
    ensures |r| == |d| && Count(r, start) == |nums| && Header(r, start) == nums
  {
    d[start := HeadWords(d[start], nums, |nums|)]
  }

  function Logged(d: Disk, start: nat, nums: seq<Uint>, cache: map<Uint, Block>, k: nat): (r: Disk)
    requires start + LOGBLOCKS < |d| && k <= |nums| <= LOGBLOCKS
    requires forall i :: 0 <= i < |nums| ==> nums[i] in cache
    ensures |r| == |d|
  {
    if k == 0 then d else Logged(d, start, nums, cache, k - 1)[start + k := cache[nums[k - 1]]]
  }

  function Installed(d: Disk, start: nat, nums: seq<Uint>, k: nat): (r: Disk)
    requires start + LOGBLOCKS < |d| && Homes(|d|, start, nums) && k <= |nums|
    ensures |r| == |d|
  {
    if k == 0 then d
    else
      var e := Installed(d, start, nums, k - 1);
      e[nums[k - 1] := e[start + k]]
  }

  /** The disk after c of the 2n+2 block writes of a commit. */
  function CommitDisk(d: Disk, start: nat, nums: seq<Uint>, cache: map<Uint, Block>, c: nat): (r: Disk)
    requires start + LOGBLOCKS < |d| && Homes(|d|, start, nums) && c <= 2 * |nums| + 2
    requires forall i :: 0 <= i < |nums| ==> nums[i] in cache
  {
    var n := |nums|;
    if c <= n then Logged(d, start, nums, cache, c)
    else
      var h := Headed(Logged(d, start, nums, cache, n), start, nums);
      if c <= 2 * n + 1 then Installed(h, start, nums, c - n - 1)
      else Headed(Installed(h, start, nums, n), start, [])
  }

  /** The disk after k of the n+1 block writes of a recovery. */
  function RecoverDisk(d: Disk, start: nat, k: nat): (r: Disk)
    requires Formatted(d, start) && k <= |Header(d, start)| + 1
    ensures |r| == |d|
  {
    var nums := Header(d, start);
    if k <= |nums| then Installed(d, start, nums, k)
    else Headed(Installed(d, start, nums, |nums|), start, [])
  }

  function Recovered(d: Disk, start: nat): (r: Disk)
    requires Formatted(d, start)
    ensures |r| == |d| && Formatted(r, start) && Header(r, start) == []
  {
    RecoverDisk(d, start, |Header(d, start)| + 1)
  }

  // ---- The successive disks of a phase, one per block write ----

  function LogStates(d: Disk, start: nat, nums: seq<Uint>, cache: map<Uint, Block>, k: nat): (r: seq<Disk>)
    requires start + LOGBLOCKS < |d| && k <= |nums| <= LOGBLOCKS
    requires forall i :: 0 <= i < |nums| ==> nums[i] in cache
    ensures |r| == k
  {
    if k == 0 then [] else LogStates(d, start, nums, cache, k - 1) + [Logged(d, start, nums, cache, k)]
  }

  function InstallStates(d: Disk, start: nat, nums: seq<Uint>, k: nat): (r: seq<Disk>)
    requires start + LOGBLOCKS < |d| && Homes(|d|, start, nums) && k <= |nums|
    ensures |r| == k
  {
    if k == 0 then [] else InstallStates(d, start, nums, k - 1) + [Installed(d, start, nums, k)]
  }

  /** The pinned buffers left once the first k of a transaction's blocks are unpinned. */
  function Unpinned(cache: map<Uint, Block>, nums: seq<Uint>, k: nat): map<Uint, Block>
    requires k <= |nums|
  {
    if k == 0 then cache else Unpinned(cache, nums, k - 1) - {nums[k - 1]}
  }

  function CommitStates(d: Disk, start: nat, nums: seq<Uint>, cache: map<Uint, Block>): (r: seq<Disk>)
    requires start + LOGBLOCKS < |d| && Homes(|d|, start, nums)
    requires forall i :: 0 <= i < |nums| ==> nums[i] in cache
  {
    var h := Headed(Logged(d, start, nums, cache, |nums|), start, nums);
    LogStates(d, start, nums, cache, |nums|) + [h] + InstallStates(h, start, nums, |nums|)
    + [Headed(Installed(h, start, nums, |nums|), start, [])]
  }

  function RecoverStates(d: Disk, start: nat): (r: seq<Disk>)
    requires Formatted(d, start)
  {
    var nums := Header(d, start);
    InstallStates(d, start, nums, |nums|) + [Recovered(d, start)]
  }

  // ---- Crash atomicity ----

  /** Logging k blocks copies them into the log area and changes nothing else. */
  lemma {:induction false} LoggedValues(d: Disk, start: nat, nums: seq<Uint>, cache: map<Uint, Block>, k: nat)
    requires start + LOGBLOCKS < |d| && k <= |nums| <= LOGBLOCKS
    requires forall i :: 0 <= i < |nums| ==> nums[i] in cache
    ensures var r := Logged(d, start, nums, cache, k);
            && (forall i :: 0 <= i < k ==> r[start + 1 + i] == cache[nums[i]])
            && (forall b :: 0 <= b < |d| && !(start < b <= start + k) ==> r[b] == d[b])
  {
    if k > 0 { LoggedValues(d, start, nums, cache, k - 1); }
  }

  /** Installing k blocks changes only the first k home blocks, never the log area. */
  lemma {:induction false} InstalledOthers(d: Disk, start: nat, nums: seq<Uint>, k: nat)
    requires start + LOGBLOCKS < |d| && Homes(|d|, start, nums) && k <= |nums|
    ensures forall b :: 0 <= b < |d| && b !in nums[..k] ==> Installed(d, start, nums, k)[b] == d[b]
  {
    if k > 0 {
      InstalledOthers(d, start, nums, k - 1);
      assert nums[..k] == nums[..k - 1] + [nums[k - 1]];
    }
  }

  lemma InstalledKeepsLog(d: Disk, start: nat, nums: seq<Uint>, k: nat)
    requires start + LOGBLOCKS < |d| && Homes(|d|, start, nums) && k <= |nums|
    ensures forall b :: start <= b <= start + LOGBLOCKS ==> Installed(d, start, nums, k)[b] == d[b]
  {
    InstalledOthers(d, start, nums, k);
  }

  /** What installing k blocks yields depends only on the log area and on the blocks it does not overwrite. */
  lemma {:induction false} InstalledAgrees(d: Disk, e: Disk, start: nat, nums: seq<Uint>, k: nat)
    requires |d| == |e| && start + LOGBLOCKS < |d| && Homes(|d|, start, nums) && k <= |nums|
    requires forall b :: start < b <= start + LOGBLOCKS ==> d[b] == e[b]
    ensures forall b :: 0 <= b < |d| && (d[b] == e[b] || b in nums[..k]) ==>
              Installed(d, start, nums, k)[b] == Installed(e, start, nums, k)[b]
  {
    if k > 0 {
      InstalledAgrees(d, e, start, nums, k - 1);
      InstalledKeepsLog(d, start, nums, k - 1);
      InstalledKeepsLog(e, start, nums, k - 1);
      assert nums[..k] == nums[..k - 1] + [nums[k - 1]];
    }
  }

  /** A recovery that crashes after k writes leaves a disk that recovers to the same home blocks. */
  lemma RecoveryRestarts(d: Disk, start: nat, k: nat)
    requires Formatted(d, start) && k <= |Header(d, start)| + 1
    ensures Formatted(RecoverDisk(d, start, k), start)
    ensures HomeEq(Recovered(RecoverDisk(d, start, k), start), Recovered(d, start), start)
  {
    var nums, e := Header(d, start), RecoverDisk(d, start, k);
    if k <= |nums| {
      InstalledKeepsLog(d, start, nums, k);
      assert Header(e, start) == nums;
      InstalledOthers(d, start, nums, k);
      InstalledAgrees(d, e, start, nums, |nums|);
      assert nums[..|nums|] == nums;
      forall b | 0 <= b < |d| && d[b] != e[b] ensures b in nums {
        assert b in nums[..k];
      }
    }
  }

  /** The disk left by a sequence of recoveries, the i-th of which crashes after crashes[i] writes. */
  ghost predicate CrashedRecoveries(d: Disk, start: nat, crashes: seq<nat>, e: Disk)
    decreases |crashes|
  {
    if crashes == [] then d == e
    else
      && Formatted(d, start)
      && crashes[0] <= |Header(d, start)| + 1
      && CrashedRecoveries(RecoverDisk(d, start, crashes[0]), start, crashes[1..], e)
  }

  /** Any number of crashes inside recovery do not change what recovery finally yields. */
  lemma {:induction false} RecoverySurvivesCrashes(d: Disk, start: nat, crashes: seq<nat>, e: Disk)
    requires Formatted(d, start) && CrashedRecoveries(d, start, crashes, e)
    ensures Formatted(e, start) && HomeEq(Recovered(e, start), Recovered(d, start), start)
    decreases |crashes|
  {
    if crashes != [] {
      RecoveryRestarts(d, start, crashes[0]);
      RecoverySurvivesCrashes(RecoverDisk(d, start, crashes[0]), start, crashes[1..], e);
    }
  }

  /** Installing a whole logged transaction puts every logged value at home. */
  lemma {:induction false} InstalledValues(d: Disk, start: nat, nums: seq<Uint>, cache: map<Uint, Block>, k: nat)
    requires start + LOGBLOCKS < |d| && Homes(|d|, start, nums) && k <= |nums|
    requires forall i :: 0 <= i < |nums| ==> nums[i] in cache && d[start + 1 + i] == cache[nums[i]]
    ensures forall b: Uint :: b in nums[..k] ==> Installed(d, start, nums, k)[b] == cache[b]
  {
    if k > 0 {
      InstalledValues(d, start, nums, cache, k - 1);
      InstalledKeepsLog(d, start, nums, k - 1);
      assert nums[..k] == nums[..k - 1] + [nums[k - 1]];
    }
  }

  /** The header write is the commit point: from it on the logged values are what recovery yields. */
  lemma HeaderCommits(d: Disk, start: nat, nums: seq<Uint>, cache: map<Uint, Block>)
    requires start + LOGBLOCKS < |d| && Homes(|d|, start, nums)
    requires forall b: Uint :: b in cache <==> b in nums
    ensures var h := Headed(Logged(d, start, nums, cache, |nums|), start, nums);
            Formatted(h, start) && HomeEq(Recovered(h, start), Overlay(d, cache), start)
  {
    var n, l := |nums|, Logged(d, start, nums, cache, |nums|);
    var h := Headed(l, start, nums);
    LoggedValues(d, start, nums, cache, n);
    InstalledValues(h, start, nums, cache, n);
    InstalledOthers(h, start, nums, n);
    assert nums[..n] == nums;
    var r := Installed(h, start, nums, n);
    forall b | 0 <= b < |d| && !InLog(start, b) ensures r[b] == Overlay(d, cache)[b] {
      if b !in nums { assert r[b] == h[b] == l[b] == d[b]; }
    }
  }

  /** Until the header is written the logged copies are invisible to recovery. */
  lemma LoggedInvisible(d: Disk, start: nat, nums: seq<Uint>, cache: map<Uint, Block>, c: nat)
    requires Formatted(d, start) && Header(d, start) == [] && c <= |nums| <= LOGBLOCKS
    requires forall i :: 0 <= i < |nums| ==> nums[i] in cache
    ensures Formatted(Logged(d, start, nums, cache, c), start)
    ensures HomeEq(Recovered(Logged(d, start, nums, cache, c), start), d, start)
  {
    var e := Logged(d, start, nums, cache, c);
    LoggedValues(d, start, nums, cache, c);
    assert e[start] == d[start] && Header(e, start) == [];
    assert Recovered(e, start) == Headed(e, start, []);
  }

  /** After c writes of a commit the disk recovers to the old home blocks before the
      header write (c <= n), and to the new ones from that write on. */
  lemma CommitPoint(d: Disk, start: nat, nums: seq<Uint>, cache: map<Uint, Block>, c: nat)
    requires Formatted(d, start) && Header(d, start) == [] && Homes(|d|, start, nums)
    requires forall b: Uint :: b in cache <==> b in nums
    requires c <= 2 * |nums| + 2
    ensures var e := CommitDisk(d, start, nums, cache, c);
            && |e| == |d| && Formatted(e, start)
            && HomeEq(Recovered(e, start), if c <= |nums| then d else Overlay(d, cache), start)
  {
    hide HomeEq, Formatted, Homes, Logged, Installed, Recovered, Overlay, HeadWords, InLog;
    assert start + LOGBLOCKS < |d| && |nums| <= LOGBLOCKS by { SizesFit(d, start, nums); }
    if c <= |nums| {
      LoggedInvisible(d, start, nums, cache, c);
    } else {
      var h := Headed(Logged(d, start, nums, cache, |nums|), start, nums);
      HeaderCommits(d, start, nums, cache);
      RecoveryRestarts(h, start, c - |nums| - 1);
      var e := RecoverDisk(h, start, c - |nums| - 1);
      assert CommitDisk(d, start, nums, cache, c) == e;
      HomeTrans(Recovered(e, start), Recovered(h, start), Overlay(d, cache), start);
    }
  }

  lemma SizesFit(d: Disk, start: nat, nums: seq<Uint>)
    requires Formatted(d, start) && Homes(|d|, start, nums)
    ensures start + LOGBLOCKS < |d| && |nums| <= LOGBLOCKS
  {
  }

  lemma HomeTrans(d: Disk, e: Disk, f: Disk, start: nat)
    requires HomeEq(d, e, start) && HomeEq(e, f, start)
    ensures HomeEq(d, f, start)
  {
  }

  lemma {:induction false} LogStateAt(d: Disk, start: nat, nums: seq<Uint>, cache: map<Uint, Block>, k: nat, i: nat)
    requires start + LOGBLOCKS < |d| && i < k <= |nums| <= LOGBLOCKS
    requires forall i :: 0 <= i < |nums| ==> nums[i] in cache
    ensures LogStates(d, start, nums, cache, k)[i] == Logged(d, start, nums, cache, i + 1)
  {
    if i < k - 1 { LogStateAt(d, start, nums, cache, k - 1, i); }
  }

  lemma {:induction false} InstallStateAt(d: Disk, start: nat, nums: seq<Uint>, k: nat, i: nat)
    requires start + LOGBLOCKS < |d| && Homes(|d|, start, nums) && i < k <= |nums|
    ensures InstallStates(d, start, nums, k)[i] == Installed(d, start, nums, i + 1)
  {
    if i < k - 1 { InstallStateAt(d, start, nums, k - 1, i); }
  }

  /** The states a commit exposes to a crash are CommitDisk's, in order. */
  lemma CommitStateAt(d: Disk, start: nat, nums: seq<Uint>, cache: map<Uint, Block>, c: nat)
    requires start + LOGBLOCKS < |d| && Homes(|d|, start, nums) && 1 <= c <= 2 * |nums| + 2
    requires forall i :: 0 <= i < |nums| ==> nums[i] in cache
    ensures |CommitStates(d, start, nums, cache)| == 2 * |nums| + 2
    ensures CommitStates(d, start, nums, cache)[c - 1] == CommitDisk(d, start, nums, cache, c)
  {
    var n := |nums|;
    if c <= n { LogStateAt(d, start, nums, cache, n, c - 1); }
    var h := Headed(Logged(d, start, nums, cache, n), start, nums);
    if n + 1 < c <= 2 * n + 1 { InstallStateAt(h, start, nums, n, c - n - 2); }
  }

  /** The states a recovery exposes to a crash are RecoverDisk's, in order. */
  lemma RecoverStateAt(d: Disk, start: nat, k: nat)
    requires Formatted(d, start) && 1 <= k <= |Header(d, start)| + 1
    ensures |RecoverStates(d, start)| == |Header(d, start)| + 1
    ensures RecoverStates(d, start)[k - 1] == RecoverDisk(d, start, k)
  {
    var nums := Header(d, start);
    if k <= |nums| { InstallStateAt(d, start, nums, |nums|, k - 1); }
  }

  lemma Regroup<T>(a: seq<T>, b: seq<T>, c: seq<T>, d: seq<T>, e: seq<T>)
    ensures a + b + c + d + e == a + (b + c + d + e)
  {
    assert a + b + c + d == a + (b + c + d);
  }

  lemma {:induction false} UnpinnedKeys(cache: map<Uint, Block>, nums: seq<Uint>, k: nat)
    requires k <= |nums|
    ensures forall b :: b in Unpinned(cache, nums, k) <==> b in cache && b !in nums[..k]
  {
    if k > 0 {
      UnpinnedKeys(cache, nums, k - 1);
      assert nums[..k] == nums[..k - 1] + [nums[k - 1]];
    }
  }

  lemma UnpinnedAll(cache: map<Uint, Block>, nums: seq<Uint>)
    requires forall b: Uint :: b in cache <==> b in nums
    ensures Unpinned(cache, nums, |nums|) == map[]
  {
    UnpinnedKeys(cache, nums, |nums|);
    assert nums[..|nums|] == nums;
  }

  /** Where a complete commit ends. */
  lemma CommitEnds(d: Disk, start: nat, nums: seq<Uint>, cache: map<Uint, Block>)
    requires Formatted(d, start) && Header(d, start) == [] && Homes(|d|, start, nums)
    requires forall b: Uint :: b in cache <==> b in nums
    ensures var h := Headed(Logged(d, start, nums, cache, |nums|), start, nums);
            var e := Headed(Installed(h, start, nums, |nums|), start, []);
            Formatted(e, start) && Header(e, start) == [] && HomeEq(e, Overlay(d, cache), start)
  {
    HeaderCommits(d, start, nums, cache);
  }

  /** Crash atomicity: a commit cut off after any number c of its block writes, followed by any
      number of recoveries themselves cut off anywhere, followed by one complete recovery, leaves
      the home blocks exactly as before the transaction (c <= n) or exactly as after it (c > n). */
  lemma CrashAtomicity(d: Disk, start: nat, nums: seq<Uint>, cache: map<Uint, Block>, c: nat, crashes: seq<nat>,
                       e: Disk)
    requires Formatted(d, start) && Header(d, start) == [] && Homes(|d|, start, nums)
    requires forall b: Uint :: b in cache <==> b in nums
    requires c <= 2 * |nums| + 2
    requires CrashedRecoveries(CommitDisk(d, start, nums, cache, c), start, crashes, e)
    ensures Formatted(e, start) && Header(Recovered(e, start), start) == []
    ensures HomeEq(Recovered(e, start), if c <= |nums| then d else Overlay(d, cache), start)
  {
    CommitPoint(d, start, nums, cache, c);
    RecoverySurvivesCrashes(CommitDisk(d, start, nums, cache, c), start, crashes, e);
  }

  // ---- Whole histories ----

  /** One attempted transaction: its commit stops after c block writes; unless that is all it makes
      and the machine stays up, recoveries that crash after crashes[i] writes follow, leaving
      `left`, and then a recovery completes. */
  datatype Attempt = Attempt(nums: seq<Uint>, cache: map<Uint, Block>, c: nat, up: bool, crashes: seq<nat>, left: Disk)

  /** How many disk writes a commit makes; an empty transaction makes none. */
  function Writes(nums: seq<Uint>): nat {
    if nums == [] then 0 else 2 * |nums| + 2
  }

  ghost predicate Attempted(d: Disk, start: nat, a: Attempt, e: Disk) {
    && start + LOGBLOCKS < |d| && Homes(|d|, start, a.nums)
    && (forall b: Uint :: b in a.cache <==> b in a.nums)
    && a.c <= Writes(a.nums)
    && CrashedRecoveries(CommitDisk(d, start, a.nums, a.cache, a.c), start, a.crashes, a.left)
    && if a.up then a.c == Writes(a.nums) && a.crashes == [] && e == a.left
       else Formatted(a.left, start) && e == Recovered(a.left, start)
  }

  /** disks[i] is the disk before the i-th attempt. */
  ghost predicate History(disks: seq<Disk>, start: nat, h: seq<Attempt>) {
    |disks| == |h| + 1 && forall i :: 0 <= i < |h| ==> Attempted(disks[i], start, h[i], disks[i + 1])
  }

  /** The first n attempts' transactions whose header write happened, applied in order. */
  function Durable(d: Disk, h: seq<Attempt>, n: nat): (r: Disk)
    requires n <= |h|
    ensures |r| == |d|
  {
    if n == 0 then d
    else
      var e, a := Durable(d, h, n - 1), h[n - 1];
      if a.c <= |a.nums| then e else Overlay(e, a.cache)
  }

  /** From a disk with an empty log, the attempt applied its transaction whole or not at all. */
  ghost predicate AllOrNothing(d: Disk, start: nat, a: Attempt, e: Disk) {
    Formatted(d, start) && Header(d, start) == [] ==>
      && Formatted(e, start) && Header(e, start) == []
      && HomeEq(e, if a.c <= |a.nums| then d else Overlay(d, a.cache), start)
  }

  lemma AttemptOutcome(d: Disk, start: nat, a: Attempt, e: Disk)
    requires Attempted(d, start, a, e)
    ensures AllOrNothing(d, start, a, e)
  {
    if Formatted(d, start) && Header(d, start) == [] {
      CrashAtomicity(d, start, a.nums, a.cache, a.c, a.crashes, a.left);
      if a.up {
        if a.nums == [] {
          assert CommitDisk(d, start, a.nums, a.cache, 0) == d && Overlay(d, a.cache) == d;
        } else {
          CommitEnds(d, start, a.nums, a.cache);
        }
      }
    }
  }

  lemma OverlayHome(d: Disk, e: Disk, f: Disk, start: nat, cache: map<Uint, Block>)
    requires HomeEq(d, e, start)
    ensures HomeEq(f, d, start) ==> HomeEq(f, e, start)
    ensures HomeEq(f, Overlay(d, cache), start) ==> HomeEq(f, Overlay(e, cache), start)
  {
  }

  lemma {:induction false} OutcomesAddUp(disks: seq<Disk>, start: nat, h: seq<Attempt>, n: nat)
    requires n <= |h| && |disks| == |h| + 1
    requires forall i :: 0 <= i < |h| ==> AllOrNothing(disks[i], start, h[i], disks[i + 1])
    requires Formatted(disks[0], start) && Header(disks[0], start) == []
    ensures Formatted(disks[n], start) && Header(disks[n], start) == []
    ensures HomeEq(disks[n], Durable(disks[0], h, n), start)
  {
    if n > 0 {
      OutcomesAddUp(disks, start, h, n - 1);
      assert AllOrNothing(disks[n - 1], start, h[n - 1], disks[n - 1 + 1]);
      OverlayHome(disks[n - 1], Durable(disks[0], h, n - 1), disks[n], start, h[n - 1].cache);
    }
  }

  /** Over any history of commits, crashes and recoveries the home blocks are always the initial
      ones with exactly the committed transactions applied, whole and in order. */
  lemma DurableHistory(disks: seq<Disk>, start: nat, h: seq<Attempt>, n: nat)
    requires History(disks, start, h) && n <= |h|
    requires Formatted(disks[0], start) && Header(disks[0], start) == []
    ensures Formatted(disks[n], start) && Header(disks[n], start) == []
    ensures HomeEq(disks[n], Durable(disks[0], h, n), start)
  {
    forall i | 0 <= i < |h| ensures AllOrNothing(disks[i], start, h[i], disks[i + 1]) {
      AttemptOutcome(disks[i], start, h[i], disks[i + 1]);
    }
    OutcomesAddUp(disks, start, h, n);
  }

  // ---- The kernel's log, updated in place ----

  /** begin_op's test: the operation may start without risking the space others have reserved. */
  predicate Admits(n: nat, outstanding: nat, committing: bool) {
    !committing && n + (outstanding + 1) * MAXOPBLOCKS <= LOGBLOCKS
  }

  /** Log absorption: a block number is recorded once. */
  function Absorb(lh: seq<Uint>, b: Uint): seq<Uint> {
    if b in lh then lh else lh + [b]
  }

  datatype LogResult = Done | TooBig | OutsideTrans | CommittingPanic

  lemma OverlayWrite(d: Disk, cache: map<Uint, Block>, b: Uint, data: Block)
    requires b < |d|
    ensures Overlay(d, cache[b := data]) == Overlay(d, cache)[b := data]
  {
  }

  lemma NothingPinned(d: Disk, start: nat, cache: map<Uint, Block>)
    requires forall b: Uint :: b !in cache
    ensures HomeEq(d, Overlay(d, cache), start)
  {
  }

  /** `trace` records the disk after each bwrite, oldest first: the states a crash can expose. */
  class Log {
    const start: nat
    var disk: Disk
    var lh: seq<Uint>              // log.lh.block[0 .. log.lh.n]
    var cache: map<Uint, Block>    // contents of the buffers the log has pinned
    var outstanding: nat           // operations between begin_op and end_op
    var committing: bool
    ghost var trace: seq<Disk>

    ghost predicate Valid()
      reads this
    {
      && start + LOGBLOCKS < |disk|
      && Homes(|disk|, start, lh)
      && (forall i, j :: 0 <= i < j < |lh| ==> lh[i] != lh[j])
      && (forall b: Uint :: b in cache <==> b in lh)
    }

    method Bread(b: nat) returns (data: Block)
      requires b < |disk|
      ensures data == Overlay(disk, cache)[b]
    {
      data := if b < 0x1_0000_0000 && b in cache then cache[b] else disk[b];
    }

    method Bwrite(b: nat, data: Block)
      requires b < |disk|
      modifies this`disk, this`trace
      ensures disk == old(disk)[b := data] && trace == old(trace) + [disk]
    {
      disk := disk[b := data];
      trace := trace + [disk];
    }

    /** One turn of begin_op's loop under log.lock; when it is not admitted the caller sleeps. */
    method BeginOp() returns (admitted: bool)
      modifies this`outstanding
      ensures admitted == Admits(|lh|, old(outstanding), committing)
      ensures outstanding == old(outstanding) + if admitted then 1 else 0
    {
      if committing {
        admitted := false;
      } else if |lh| + (outstanding + 1) * MAXOPBLOCKS > LOGBLOCKS {
        admitted := false;
      } else {
        outstanding := outstanding + 1;
        admitted := true;
      }
    }

    /** end_op up to its release of log.lock; doCommit tells the caller to commit. */
    method EndOp() returns (r: LogResult, doCommit: bool)
      requires outstanding > 0
      modifies this`outstanding, this`committing
      ensures outstanding == old(outstanding) - 1
      ensures r == if old(committing) then CommittingPanic else Done
      ensures doCommit == (r == Done && outstanding == 0)
      ensures committing == (old(committing) || doCommit)
    {
      doCommit := false;
      outstanding := outstanding - 1;
      if committing { return CommittingPanic, false; }
      if outstanding == 0 {
        doCommit := true;
        committing := true;
      }
      r := Done;
    }

    /** log_write: keep the modified block pinned and record its number once. It panics when
        the header is full, even for a number it already holds. */
    method LogWrite(b: Uint, data: Block) returns (r: LogResult)
      requires Valid() && b < |disk| && !InLog(start, b)
      modifies this`lh, this`cache
      ensures Valid()
      ensures r == if |old(lh)| >= LOGBLOCKS then TooBig else if outstanding < 1 then OutsideTrans else Done
      ensures r != Done ==> lh == old(lh) && cache == old(cache)
      ensures r == Done ==> lh == Absorb(old(lh), b)
      ensures r == Done ==> Overlay(disk, cache) == Overlay(disk, old(cache))[b := data]
    {
      if |lh| >= LOGBLOCKS { return TooBig; }
      if outstanding < 1 { return OutsideTrans; }
      var i := 0;
      while i < |lh|
        invariant 0 <= i <= |lh| && b !in lh[..i]
      {
        if lh[i] == b { break; }
        i := i + 1;
      }
      if i == |lh| { lh := lh + [b]; }
      OverlayWrite(disk, cache, b, data);
      cache := cache[b := data];
      return Done;
    }

    method WriteLog()
      requires Valid()
      modifies this`disk, this`trace
      ensures disk == Logged(old(disk), start, lh, cache, |lh|)
      ensures trace == old(trace) + LogStates(old(disk), start, lh, cache, |lh|)
    {
      var tail := 0;
      while tail < |lh|
        invariant 0 <= tail <= |lh|
        invariant disk == Logged(old(disk), start, lh, cache, tail)
        invariant trace == old(trace) + LogStates(old(disk), start, lh, cache, tail)
      {
        var data := Bread(lh[tail]);
        Bwrite(start + tail + 1, data);
        tail := tail + 1;
      }
    }

    method WriteHead()
      requires start < |disk| && |lh| <= LOGBLOCKS
      modifies this`disk, this`trace
      ensures disk == Headed(old(disk), start, lh) && trace == old(trace) + [disk]
    {
      var hb := disk[start][0 := |lh|];
      var i := 0;
      while i < |lh|
        invariant 0 <= i <= |lh|
        invariant hb == HeadWords(disk[start], lh, i)
      {
        hb := hb[i + 1 := lh[i]];
        i := i + 1;
      }
      Bwrite(start, hb);
    }

    /** Copies every logged block home; unless recovering, unpins each one it has copied. */
    method InstallTrans(recovering: bool)
      requires start + LOGBLOCKS < |disk| && Homes(|disk|, start, lh)
      modifies this`disk, this`trace, this`cache
      ensures disk == Installed(old(disk), start, lh, |lh|)
      ensures trace == old(trace) + InstallStates(old(disk), start, lh, |lh|)
      ensures cache == if recovering then old(cache) else Unpinned(old(cache), lh, |lh|)
    {
      var tail := 0;
      while tail < |lh|
        invariant 0 <= tail <= |lh|
        invariant disk == Installed(old(disk), start, lh, tail)
        invariant trace == old(trace) + InstallStates(old(disk), start, lh, tail)
        invariant cache == if recovering then old(cache) else Unpinned(old(cache), lh, tail)
      {
        Bwrite(lh[tail], disk[start + tail + 1]);
        if !recovering { cache := cache - {lh[tail]}; }
        tail := tail + 1;
      }
    }

    /** commit: when it returns, the disk holds what readers saw, nothing is pinned and the log is
        empty; meanwhile the disk went through exactly the 2n+2 states of CommitDisk. */
    method Commit()
      requires Valid() && Formatted(disk, start) && Header(disk, start) == []
      modifies this`disk, this`lh, this`cache, this`trace
      ensures Valid() && lh == [] && cache == map[]
      ensures Formatted(disk, start) && Header(disk, start) == []
      ensures HomeEq(disk, old(Overlay(disk, cache)), start)
      ensures trace == old(trace) + if old(lh) == [] then [] else CommitStates(old(disk), start, old(lh), old(cache))
    {
      hide Logged, Installed, LogStates, InstallStates, Overlay, HomeEq, Unpinned, HeadWords;
      ghost var d, nums, c := disk, lh, cache;
      CommitEnds(d, start, nums, c);
      UnpinnedAll(c, nums);
      if |lh| > 0 {
        WriteLog();
        WriteHead();
        ghost var h := disk;
        InstallTrans(false);
        lh := [];
        WriteHead();
        Regroup(old(trace), LogStates(d, start, nums, c, |nums|), [h], InstallStates(h, start, nums, |nums|), [disk]);
      } else {
        NothingPinned(d, start, c);
      }
    }

    method ReadHead()
      requires start < |disk| && Count(disk, start) <= LOGBLOCKS
      modifies this`lh
      ensures lh == Header(disk, start)
    {
      var n, i := disk[start][0], 0;
      lh := [];
      while i < n
        invariant 0 <= i <= n && lh == Header(disk, start)[..i]
      {
        lh := lh + [disk[start][i + 1]];
        i := i + 1;
      }
    }

    /** recover_from_log, on a machine that has just booted: the disk goes through exactly the
        states of RecoverDisk and ends recovered, with an empty log. */
    method Recover()
      requires Formatted(disk, start) && cache == map[]
      modifies this`disk, this`lh, this`cache, this`trace
      ensures disk == Recovered(old(disk), start) && Valid() && lh == [] && cache == map[]
      ensures trace == old(trace) + RecoverStates(old(disk), start)
    {
      ReadHead();
      InstallTrans(true);
      lh := [];
      WriteHead();
    }
  }
}
