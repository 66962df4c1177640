/** The file system on top of the log: operations of kernel/fs.c grouped into transactions of kernel/log.c,
    with crashes and recoveries anywhere. What a boot finds is always a consistent file system at a
    transaction boundary. */
module FsCrash {
  import opened Basics
  import opened Blocks
  import opened FsModel
  import opened Dinodes
  import opened FileSystem
  import R = RedoLog

  // ---- Blocks as the log sees them ----

  function Words(b: Block): R.Block {
    seq(WORDS, k requires 0 <= k < WORDS => Word(b, k))
  }

  lemma LowDigit(x: Byte, y: Byte, a: nat, b: nat)
    requires x + 256 * a == y + 256 * b
    ensures x == y && a == b
  {
  }

  lemma {:induction false} DigitsInjective(s: seq<Byte>, t: seq<Byte>, i: nat, n: nat, k: nat)
    requires i + n <= |s| == |t| && Digits(s, i, n) == Digits(t, i, n) && i <= k < i + n
    ensures s[k] == t[k]
    decreases n
  {
    var a, b := Digits(s, i + 1, n - 1), Digits(t, i + 1, n - 1);
    LowDigit(s[i], t[i], a, b);
    if k > i { DigitsInjective(s, t, i + 1, n - 1, k); }
  }

  /** A block is its words. */
  lemma WordsInjective(a: Block, b: Block)
    requires Words(a) == Words(b)
    ensures a == b
  {
    forall k | 0 <= k < BSIZE ensures a[k] == b[k] {
      assert Words(a)[k / 4] == Words(b)[k / 4];
      DigitsInjective(a, b, 4 * (k / 4), 4, k);
    }
  }

  /** The disk's blocks outside the log are `blocks`. */
  ghost predicate Stores(d: R.Disk, start: nat, blocks: seq<Block>) {
    |d| == |blocks| && forall x :: 0 <= x < |d| && !R.InLog(start, x) ==> d[x] == Words(blocks[x])
  }

  // ---- Operations between two commits ----

  /** Blocks whose contents the invariant depends on: inodes, bitmap and indirect blocks. */
  ghost predicate Meta(L: Layout, fs: Fs, x: nat) {
    L.inodestart <= x < L.size && (x < L.datastart || (x < 0x1_0000_0000 && x in fs.owner && fs.owner[x].k == NDIRECT))
  }

  /** What one or more operations do to the file system in memory: it stays consistent, only logged blocks
      change, and what changes otherwise is file data. */
  ghost predicate Operated(L: Layout, fs: Fs, fs': Fs, logged: set<nat>, stray: set<nat>) {
    && Consistent(L, fs') && Tracked(fs, fs', logged, stray)
    && forall x :: x in stray && x !in logged ==> !Meta(L, fs', x)
  }

  /** One operation, as FileSys promises it. */
  lemma OneOperation(L: Layout, fs: Fs, fs': Fs, logged: set<nat>, stray: set<nat>)
    requires Consistent(L, fs') && Tracked(fs, fs', logged, stray) && DataBlocksOnly(fs', stray)
    ensures Operated(L, fs, fs', logged, stray)
  {
    hide Tracked, Synced;
    forall x | x in stray ensures !Meta(L, fs', x) { assert OwnerOk(L, fs', x); }
  }

  /** Operations that share a transaction. */
  lemma MoreOperations(L: Layout, fs: Fs, fs1: Fs, fs2: Fs, l1: set<nat>, l2: set<nat>, s1: set<nat>, s2: set<nat>)
    requires Operated(L, fs, fs1, l1, s1) && Operated(L, fs1, fs2, l2, s2)
    ensures Operated(L, fs, fs2, l1 + l2, s1 + s2)
  {
    hide Consistent;
  }

  // ---- Memory and disk ----

  /** Same files and same metadata; file data may differ. */
  ghost predicate MetaEq(L: Layout, a: Fs, b: Fs) {
    && |a.blocks| == |b.blocks| && a.inodes == b.inodes && a.owner == b.owner
    && forall x: nat {:trigger Meta(L, a, x)} :: Meta(L, a, x) && x < |a.blocks| ==> b.blocks[x] == a.blocks[x]
  }

  lemma MetaSlots(L: Layout, a: Fs, b: Fs, m: Loc)
    requires Inv(L, a) && MetaEq(L, a, b) && IsLoc(L, m)
    ensures Sized(L, b) && Slot(b, m) == Slot(a, m)
  {
    hide Word, UsedIn;
    IndirectInside(L, a, m.inum);
    var ind := a.inodes[m.inum].addrs[NDIRECT];
    if ind != 0 { assert Meta(L, a, ind); }
  }

  lemma MetaBits(L: Layout, a: Fs, b: Fs, c: nat)
    requires Inv(L, a) && MetaEq(L, a, b) && c < L.size
    ensures Sized(L, b) && UsedIn(L, b.blocks, c) == UsedIn(L, a.blocks, c)
  {
    BitmapInside(L, c);
    assert Meta(L, a, BBlock(L, c));
  }

  lemma MetaSynced(L: Layout, a: Fs, b: Fs)
    requires Consistent(L, a) && MetaEq(L, a, b)
    ensures Synced(L, b.blocks, b.inodes, {})
  {
    hide GetInode, Slot, UsedIn;
    forall i | 0 <= i < L.ninodes ensures SyncedAt(L, b.blocks, b.inodes, i) {
      assert SyncedAt(L, a.blocks, a.inodes, i);
      IBlockInside(L, i);
      assert Meta(L, a, IBlock(L, i));
    }
  }

  /** Consistency is a matter of metadata. */
  lemma MetaConsistent(L: Layout, a: Fs, b: Fs)
    requires Consistent(L, a) && MetaEq(L, a, b)
    ensures Consistent(L, b)
  {
    hide Inv, Slot, UsedIn, Synced, MetaEq;
    MetaSynced(L, a, b);
    MetaSized(L, a, b);
    forall m | IsLoc(L, m) ensures Slot(b, m) == Slot(a, m) { MetaSlots(L, a, b, m); }
    forall c | 0 <= c < L.size ensures UsedIn(L, b.blocks, c) == UsedIn(L, a.blocks, c) { MetaBits(L, a, b, c); }
    SameSlotsInv(L, a, b);
  }

  lemma MetaSized(L: Layout, a: Fs, b: Fs)
    requires Inv(L, a) && MetaEq(L, a, b)
    ensures Sized(L, a) && Sized(L, b) && b.inodes == a.inodes && b.owner == a.owner
  {
  }

  /** The durable file system once a transaction has committed. */
  function Applied(dur: Fs, fs: Fs, logged: set<nat>): Fs
    requires |dur.blocks| == |fs.blocks|
  {
    Fs(seq(|dur.blocks|, x requires 0 <= x < |dur.blocks| => if x in logged then fs.blocks[x] else dur.blocks[x]),
       fs.inodes, fs.owner)
  }

  /** Committing what memory has logged brings the disk's metadata in step with memory's. */
  lemma AppliedMeta(L: Layout, mem: Fs, dur: Fs, fs: Fs, logged: set<nat>, stray: set<nat>)
    requires MetaEq(L, mem, dur) && Operated(L, mem, fs, logged, stray)
    ensures |dur.blocks| == |fs.blocks| && MetaEq(L, fs, Applied(dur, fs, logged))
  {
    hide Consistent;
    var d := Applied(dur, fs, logged);
    forall x: nat | Meta(L, fs, x) && x < |fs.blocks| ensures d.blocks[x] == fs.blocks[x] {
      if x !in logged {
        assert x !in stray;
        assert Meta(L, mem, x);
      }
    }
  }

  // ---- Histories ----

  /** The operations of one commit: the file system in memory after them, the blocks they logged, and the
      blocks that changed in memory without being logged: a faulting copy leaves such a block, and so does
      the cache when it drops the buffer of one and reads it back. */
  datatype Transaction = Transaction(fs: Fs, logged: set<nat>, stray: set<nat>)

  /** What commit writes is what memory holds of the logged blocks. */
  ghost predicate Commits(t: Transaction, a: R.Attempt) {
    && (forall b: Uint :: b in a.nums <==> b in t.logged)
    && (forall b: Uint :: b in a.cache ==> b < |t.fs.blocks| && a.cache[b] == Words(t.fs.blocks[b]))
  }

  /** The header write happened, or there was nothing to write. */
  predicate Committed(a: R.Attempt) { a.nums == [] || a.c > |a.nums| }

  /** The initial file system with the committed ones of the first n transactions applied. */
  ghost function DurableFs(fs0: Fs, h: seq<R.Attempt>, ts: seq<Transaction>, n: nat): (r: Fs)
    requires n <= |h| == |ts|
  {
    if n == 0 then fs0
    else
      var e, t := DurableFs(fs0, h, ts, n - 1), ts[n - 1];
      if Committed(h[n - 1]) && |e.blocks| == |t.fs.blocks| then Applied(e, t.fs, t.logged) else e
  }

  /** What a boot reads: the blocks, and the inodes in them. The owners are what the proof keeps track of. */
  ghost predicate Booted(L: Layout, start: nat, d: R.Disk, mem: Fs, owner: map<Uint, Loc>) {
    && Laid(L) && |mem.blocks| == L.size && Stores(d, start, mem.blocks)
    && mem.inodes == Decoded(L, mem.blocks) && mem.owner == owner
  }

  /** One transaction, committed or cut off; after a crash and recovery the machine boots. An operation that a
      crash interrupts never reaches a commit: that is a crash in a transaction without it. */
  ghost predicate Step(L: Layout, start: nat, d: R.Disk, a: R.Attempt, t: Transaction, mem: Fs, mem': Fs,
                       owner: map<Uint, Loc>) {
    && Operated(L, mem, t.fs, t.logged, t.stray) && Commits(t, a)
    && if a.up then mem' == t.fs else Booted(L, start, d, mem', owner)
  }

  ghost predicate FsHistory(L: Layout, start: nat, fs0: Fs, disks: seq<R.Disk>, h: seq<R.Attempt>, ts: seq<Transaction>,
                            mems: seq<Fs>) {
    && R.History(disks, start, h) && |ts| == |h| && |mems| == |h| + 1 && mems[0] == fs0
    && start + R.LOGBLOCKS < L.inodestart
    && (forall k :: 0 <= k < |h| ==>
          Step(L, start, disks[k + 1], h[k], ts[k], mems[k], mems[k + 1], DurableFs(fs0, h, ts, k + 1).owner))
    && R.Formatted(disks[0], start) && R.Header(disks[0], start) == [] && Stores(disks[0], start, fs0.blocks)
    && Consistent(L, fs0)
  }

  /** Where history stands: the disk holds a consistent file system, and memory has its metadata. */
  ghost predicate Stands(L: Layout, start: nat, d: R.Disk, mem: Fs, dur: Fs) {
    && R.Formatted(d, start) && R.Header(d, start) == [] && Stores(d, start, dur.blocks)
    && Consistent(L, mem) && Consistent(L, dur) && MetaEq(L, mem, dur)
  }

  /** The log's guarantee, block by block. */
  lemma StoresOn(start: nat, d: R.Disk, a: R.Attempt, e: R.Disk, t: Transaction, dur: Fs)
    requires Stores(d, start, dur.blocks) && |dur.blocks| == |t.fs.blocks| <= 0x1_0000_0000 && Commits(t, a)
    requires (forall b: Uint :: b in a.cache <==> b in a.nums)
    requires R.HomeEq(e, if Committed(a) then R.Overlay(d, a.cache) else d, start)
    ensures Stores(e, start, if Committed(a) then Applied(dur, t.fs, t.logged).blocks else dur.blocks)
  {
    hide Words;
  }

  /** Equal beyond the log, except at the blocks in `stray`. */
  ghost predicate SameBlocks(L: Layout, a: Fs, b: Fs, stray: set<nat>) {
    && |a.blocks| == |b.blocks| == L.size
    && forall x :: L.inodestart <= x < L.size && x !in stray ==> a.blocks[x] == b.blocks[x]
  }

  lemma BootedBlocks(L: Layout, start: nat, d: R.Disk, mem: Fs, dur: Fs)
    requires Stores(d, start, mem.blocks) && Stores(d, start, dur.blocks) && |mem.blocks| == L.size
    requires start + R.LOGBLOCKS < L.inodestart
    ensures SameBlocks(L, mem, dur, {})
  {
    hide Words;
    forall x | L.inodestart <= x < L.size ensures mem.blocks[x] == dur.blocks[x] {
      assert d[x] == Words(mem.blocks[x]) && d[x] == Words(dur.blocks[x]);
      WordsInjective(mem.blocks[x], dur.blocks[x]);
    }
  }

  lemma SameDecoded(L: Layout, a: Fs, b: Fs)
    requires Laid(L) && SameBlocks(L, a, b, {})
    ensures Decoded(L, a.blocks) == Decoded(L, b.blocks)
  {
    hide GetInode;
    var x, y := Decoded(L, a.blocks), Decoded(L, b.blocks);
    forall i | 0 <= i < L.ninodes ensures x[i] == y[i] { IBlockInside(L, i); }
    assert x == y;
  }

  lemma BootedMeta(L: Layout, start: nat, d: R.Disk, mem: Fs, dur: Fs)
    requires Booted(L, start, d, mem, dur.owner) && Stores(d, start, dur.blocks) && Consistent(L, dur)
    requires start + R.LOGBLOCKS < L.inodestart
    ensures SameBlocks(L, mem, dur, {}) && MetaEq(L, dur, mem) && MetaEq(L, mem, dur)
  {
    hide Inv, Synced, Stores, Decoded;
    InvSized(L, dur);
    BootedBlocks(L, start, d, mem, dur);
    SameDecoded(L, mem, dur);
    DecodedSynced(L, dur.blocks, dur.inodes);
  }

  lemma StepStands(L: Layout, start: nat, d: R.Disk, a: R.Attempt, e: R.Disk, t: Transaction, mem: Fs, mem': Fs,
                   dur: Fs, dur': Fs)
    requires Stands(L, start, d, mem, dur) && R.Attempted(d, start, a, e) && start + R.LOGBLOCKS < L.inodestart
    requires dur' == if Committed(a) && |dur.blocks| == |t.fs.blocks| then Applied(dur, t.fs, t.logged) else dur
    requires Step(L, start, e, a, t, mem, mem', dur'.owner)
    ensures Stands(L, start, e, mem', dur')
  {
    hide Inv, Synced, Operated, MetaEq, Booted, Stores, Commits, R.CommitDisk, R.CrashedRecoveries, R.Recovered,
         R.Overlay;
    R.AttemptOutcome(d, start, a, e);
    if a.nums == [] { EmptyOverlay(d, a); }
    AppliedMeta(L, mem, dur, t.fs, t.logged, t.stray);
    OperatedFacts(L, mem, t.fs, t.logged, t.stray);
    StoresOn(start, d, a, e, t, dur);
    if Committed(a) { MetaConsistent(L, t.fs, dur'); }
    if !a.up {
      BootedMeta(L, start, e, mem', dur');
      MetaConsistent(L, dur', mem');
    }
  }

  lemma EmptyOverlay(d: R.Disk, a: R.Attempt)
    requires a.nums == [] && (forall b: Uint :: b in a.cache <==> b in a.nums)
    ensures R.Overlay(d, a.cache) == d
  {
  }

  lemma OperatedFacts(L: Layout, fs: Fs, fs': Fs, logged: set<nat>, stray: set<nat>)
    requires Operated(L, fs, fs', logged, stray)
    ensures Consistent(L, fs') && Sized(L, fs') && |fs.blocks| == |fs'.blocks| <= 0x1_0000_0000
  {
  }

  /** At every point of every history of operations, commits, crashes and recoveries, the disk holds the
      initial file system with exactly the committed transactions applied, and that is consistent: no block
      owned twice, the bitmap exact, no holes, and the inodes in memory those on disk. */
  lemma {:induction false} CrashConsistent(L: Layout, start: nat, fs0: Fs, disks: seq<R.Disk>, h: seq<R.Attempt>,
                                           ts: seq<Transaction>, mems: seq<Fs>, n: nat)
    requires FsHistory(L, start, fs0, disks, h, ts, mems) && n <= |h|
    ensures Stands(L, start, disks[n], mems[n], DurableFs(fs0, h, ts, n))
  {
    hide Consistent, Step, Stores, R.Attempted, R.Formatted, R.Header, Committed, Applied;
    if n == 0 {
      assert MetaEq(L, fs0, fs0);
    } else {
      CrashConsistent(L, start, fs0, disks, h, ts, mems, n - 1);
      assert Step(L, start, disks[n - 1 + 1], h[n - 1], ts[n - 1], mems[n - 1], mems[n - 1 + 1],
                  DurableFs(fs0, h, ts, n - 1 + 1).owner);
      StepStands(L, start, disks[n - 1], h[n - 1], disks[n], ts[n - 1], mems[n - 1], mems[n],
                 DurableFs(fs0, h, ts, n - 1), DurableFs(fs0, h, ts, n));
    }
  }

  /** Whatever a boot reads from the disk can be mounted. */
  lemma BootMounts(L: Layout, start: nat, fs0: Fs, disks: seq<R.Disk>, h: seq<R.Attempt>, ts: seq<Transaction>,
                   mems: seq<Fs>, n: nat, b: seq<Block>)
    requires FsHistory(L, start, fs0, disks, h, ts, mems) && n <= |h| && Laid(L) && |b| == L.size
    requires Stores(disks[n], start, b)
    ensures Consistent(L, Fs(b, Decoded(L, b), DurableFs(fs0, h, ts, n).owner))
  {
    hide Consistent, Step, Stores, DurableFs, R.Attempted;
    CrashConsistent(L, start, fs0, disks, h, ts, mems, n);
    var dur := DurableFs(fs0, h, ts, n);
    var mem := Fs(b, Decoded(L, b), dur.owner);
    BootedMeta(L, start, disks[n], mem, dur);
    MetaConsistent(L, dur, mem);
  }

  // ---- File contents ----

  /** The blocks in which the disk may be behind memory after a transaction that found `stray` behind. */
  function Behind(stray: set<nat>, a: R.Attempt, t: Transaction): set<nat> {
    if Committed(a) then (stray + t.stray) - t.logged else stray
  }

  /** The blocks in which the disk may be behind memory before transaction n: changed without being logged
      since the last boot, and not logged since. */
  function Strays(h: seq<R.Attempt>, ts: seq<Transaction>, n: nat): set<nat>
    requires n <= |h| == |ts|
  {
    if n == 0 || !h[n - 1].up then {} else Behind(Strays(h, ts, n - 1), h[n - 1], ts[n - 1])
  }

  lemma AppliedSame(L: Layout, mem: Fs, dur: Fs, t: Transaction, stray: set<nat>)
    requires SameBlocks(L, mem, dur, stray) && Tracked(mem, t.fs, t.logged, t.stray)
    ensures |dur.blocks| == |t.fs.blocks|
    ensures SameBlocks(L, t.fs, Applied(dur, t.fs, t.logged), (stray + t.stray) - t.logged)
  {
  }

  lemma {:induction false} StraysOnly(L: Layout, start: nat, fs0: Fs, disks: seq<R.Disk>, h: seq<R.Attempt>,
                                      ts: seq<Transaction>, mems: seq<Fs>, n: nat)
    requires FsHistory(L, start, fs0, disks, h, ts, mems) && n <= |h|
    ensures SameBlocks(L, mems[n], DurableFs(fs0, h, ts, n), Strays(h, ts, n))
  {
    hide Consistent, Stores, R.Formatted, R.Header, R.CommitDisk, R.CrashedRecoveries, R.Recovered, Applied, Meta,
         Booted;
    CrashConsistent(L, start, fs0, disks, h, ts, mems, n);
    var dur := DurableFs(fs0, h, ts, n);
    ConsistentSized(L, dur);
    ConsistentSized(L, mems[n]);
    if n > 0 {
      var t := ts[n - 1];
      assert Step(L, start, disks[n - 1 + 1], h[n - 1], t, mems[n - 1], mems[n - 1 + 1],
                  DurableFs(fs0, h, ts, n - 1 + 1).owner);
      if h[n - 1].up {
        StraysOnly(L, start, fs0, disks, h, ts, mems, n - 1);
        AppliedSame(L, mems[n - 1], DurableFs(fs0, h, ts, n - 1), t, Strays(h, ts, n - 1));
        assert R.Attempted(disks[n - 1], start, h[n - 1], disks[n - 1 + 1]);
      } else {
        BootedMeta(L, start, disks[n], mems[n], dur);
      }
    }
  }

  lemma ConsistentSized(L: Layout, fs: Fs)
    requires Consistent(L, fs)
    ensures Sized(L, fs)
  {
  }

  /** File i reads as c, but for the bytes it keeps in the blocks of `stray`. */
  ghost predicate Reads(L: Layout, fs: Fs, i: nat, c: seq<Byte>, stray: set<nat>)
    requires Inv(L, fs) && i < L.ninodes
  {
    && |Contents(L, fs, i)| == |c|
    && forall p :: 0 <= p < |c| && Slot(fs, DataLoc(i, p / BSIZE)) !in stray ==> Contents(L, fs, i)[p] == c[p]
  }

  lemma SameFile(L: Layout, a: Fs, b: Fs, i: nat, stray: set<nat>)
    requires Inv(L, a) && Inv(L, b) && MetaEq(L, a, b) && SameBlocks(L, a, b, stray) && i < L.ninodes
    ensures Reads(L, b, i, Contents(L, a, i), stray)
  {
    hide Inv, Slot, MetaEq;
    MetaSized(L, a, b);
    var c, d := Contents(L, a, i), Contents(L, b, i);
    forall p | 0 <= p < |c|
      ensures p / BSIZE < MAXFILE && (Slot(b, DataLoc(i, p / BSIZE)) !in stray ==> d[p] == c[p])
    {
      SlotThere(L, a, i, p);
      MetaSlots(L, a, b, DataLoc(i, p / BSIZE));
      SlotFits(L, a, DataLoc(i, p / BSIZE));
    }
  }

  /** Every file on disk, all together, is at a transaction boundary: as memory had it before transaction n,
      if its commit did not happen, or after it; except in the blocks of a file that a faulted copy left
      in memory only. */
  lemma FilesAtomic(L: Layout, start: nat, fs0: Fs, disks: seq<R.Disk>, h: seq<R.Attempt>, ts: seq<Transaction>,
                    mems: seq<Fs>, n: nat, i: nat)
    requires FsHistory(L, start, fs0, disks, h, ts, mems) && n < |h| && i < L.ninodes
    ensures var dur, now := DurableFs(fs0, h, ts, n + 1), if Committed(h[n]) then ts[n].fs else mems[n];
            && Inv(L, dur) && Inv(L, now)
            && Reads(L, dur, i, Contents(L, now, i), Behind(Strays(h, ts, n), h[n], ts[n]))
  {
    hide Inv, Synced, Stores, R.Formatted, R.Header, R.Attempted, Meta, Booted, MetaEq, SameBlocks, Contents, Reads,
         Strays;
    CrashConsistent(L, start, fs0, disks, h, ts, mems, n);
    CrashConsistent(L, start, fs0, disks, h, ts, mems, n + 1);
    StraysOnly(L, start, fs0, disks, h, ts, mems, n);
    var dur, t, stray := DurableFs(fs0, h, ts, n), ts[n], Strays(h, ts, n);
    assert Step(L, start, disks[n + 1], h[n], t, mems[n], mems[n + 1], DurableFs(fs0, h, ts, n + 1).owner);
    AppliedMeta(L, mems[n], dur, t.fs, t.logged, t.stray);
    AppliedSame(L, mems[n], dur, t, stray);
    if Committed(h[n]) {
      SameFile(L, t.fs, Applied(dur, t.fs, t.logged), i, (stray + t.stray) - t.logged);
    } else {
      SameFile(L, mems[n], dur, i, stray);
    }
  }

  /** A file that keeps nothing in such a block is at the boundary as a whole. */
  lemma ReadsWhole(L: Layout, fs: Fs, i: nat, c: seq<Byte>, stray: set<nat>)
    requires Inv(L, fs) && i < L.ninodes && Reads(L, fs, i, c, stray)
    requires forall bn :: 0 <= bn < MAXFILE && Slot(fs, DataLoc(i, bn)) != 0 ==> Slot(fs, DataLoc(i, bn)) !in stray
    ensures Contents(L, fs, i) == c
  {
    hide Inv, Slot, Contents;
    MetaSized(L, fs, fs);
    forall p | 0 <= p < |c| ensures Contents(L, fs, i)[p] == c[p] { SlotThere(L, fs, i, p); }
  }

  /** What a file holds after a write that is a transaction of its own, if it commits, and before it. */
  ghost function AfterWrite(L: Layout, fs: Fs, i: nat, off: nat, src: seq<Byte>, j: nat, committed: bool): seq<Byte>
    requires Inv(L, fs) && j < L.ninodes && (j == i ==> off <= |Contents(L, fs, i)|)
  {
    if j == i && committed then Splice(Contents(L, fs, j), off, src) else Contents(L, fs, j)
  }

  /** Such a write is on disk entirely or not at all, whatever crashes. */
  lemma WriteAtomic(L: Layout, start: nat, fs0: Fs, disks: seq<R.Disk>, h: seq<R.Attempt>, ts: seq<Transaction>,
                    mems: seq<Fs>, n: nat, i: nat, off: nat, src: seq<Byte>, j: nat)
    requires FsHistory(L, start, fs0, disks, h, ts, mems) && n < |h| && j < L.ninodes
    requires Spliced(L, mems[n], ts[n].fs, i, off, src, |src|)
    ensures var dur := DurableFs(fs0, h, ts, n + 1);
            && Inv(L, dur) && Inv(L, mems[n])
            && Reads(L, dur, j, AfterWrite(L, mems[n], i, off, src, j, Committed(h[n])),
                     Behind(Strays(h, ts, n), h[n], ts[n]))
  {
    hide Step, R.Attempted, DurableFs, Inv, Contents, Overlay, Strays, Behind, Reads;
    FilesAtomic(L, start, fs0, disks, h, ts, mems, n, j);
    OverlayAll(Contents(L, mems[n], i), off, src);
  }
}
