/** Writes whose source faults half way (kernel/fs.c's writei, kernel/file.c's filewrite): how much they report,
    what they leave in the cached block beyond that, and exactly when it shows. */
module WriteFaults {
  import opened Basics
  import opened Blocks
  import opened FsModel
  import opened Dinodes
  import opened FileSystem

  // ---- How much is reported ----

  /** What writei reports of n bytes at off when `have` of them can be read: all, or those up to the last block
      boundary before the fault. */
  function Counted(off: nat, have: nat, n: nat): nat {
    if have >= n then n else if (off + have) / BSIZE * BSIZE <= off then 0 else (off + have) / BSIZE * BSIZE - off
  }

  /** What is copied. */
  function Copied(have: nat, n: nat): nat { if have >= n then n else have }

  /** Where the transaction of filewrite begins in which byte `have` lies. */
  function Start(have: nat): (s: nat)
    ensures s <= have < s + 3 * BSIZE && s % (3 * BSIZE) == 0
  {
    have - have % 3072
  }

  /** filewrite adds up transactions of CHUNK, three blocks'. */
  function FileCounted(off: nat, have: nat, n: nat): nat {
    if have >= n then n else Start(have) + Counted(off + Start(have), have - Start(have), CHUNK)
  }

  /** The last block boundary at or before a fault inside a block. */
  lemma Boundary(p: nat, q: nat)
    requires p <= q < p + (BSIZE - p % BSIZE)
    ensures q / BSIZE * BSIZE <= p && (p % BSIZE == 0 ==> q / BSIZE * BSIZE == p)
  {
    assert q / BSIZE == p / BSIZE;
  }

  lemma CountExact(off: nat, r: nat, have: nat, n: nat)
    requires Faults(off, r, have, n) && ChunkStart(off, r, n) && r <= have
    ensures r == Counted(off, have, n)
  {
    Boundary(off + r, off + have);
  }

  /** A write that does not run out of disk reports and copies exactly this much. */
  lemma ReportExact(L: Layout, fs: Fs, i: nat, off: nat, r: nat, w: nat, have: nat, n: nat)
    requires Stopped(L, fs, i, off, r, w, have, n) && ChunkStart(off, r, n) && r <= w <= have && r <= n
    ensures (r < n && w == r && Stuck(L, fs, i, off + r)) || (r == Counted(off, have, n) && w == Copied(have, n))
  {
    hide Stuck;
    if r < n && Faults(off, r, have, n) { CountExact(off, r, have, n); }
  }

  /** The same for filewrite, whose last transaction began at a multiple of CHUNK. */
  lemma FileReportExact(L: Layout, fs: Fs, i: nat, off: nat, done: nat, w: nat, have: nat, n: nat, k: nat)
    requires FileStopped(L, fs, i, off, done, w, have, n, Begin(k)) && w <= have && done <= n
    ensures (done < n && w == done && Stuck(L, fs, i, off + done))
            || (done == FileCounted(off, have, n) && w == Copied(have, n))
  {
    hide Stuck, Counted, Stopped, ChunkStart;
    var t := Begin(k);
    ReportExact(L, fs, i, off + t, done - t, w - t, have - t, Chunk(n - t));
    assert off + t + (done - t) == off + done;
    BeginFits(k);
    if have - t < Chunk(n - t) { StartIs(have, t); ShortCount(off + t, have - t, Chunk(n - t), CHUNK); }
    CountedAll(off + t, have - t, Chunk(n - t));
  }

  lemma BeginFits(k: nat)
    ensures Begin(k) % (3 * BSIZE) == 0 && CHUNK == 3 * BSIZE
  {
    assert CHUNK == 3072;
  }

  lemma StartIs(have: nat, t: nat)
    requires t % (3 * BSIZE) == 0 && t <= have < t + 3 * BSIZE
    ensures Start(have) == t
  {
  }

  lemma ShortCount(off: nat, have: nat, n: nat, m: nat)
    requires have < n && have < m
    ensures Counted(off, have, n) == Counted(off, have, m)
  {
  }

  lemma CountedAll(off: nat, have: nat, n: nat)
    ensures have >= n ==> Counted(off, have, n) == n
  {
  }

  // ---- What shows ----

  /** The file shows no more than is reported: r bytes of src, although w were copied. */
  predicate Honest(c: seq<Byte>, off: nat, src: seq<Byte>, r: nat, w: nat)
    requires off <= |c| && r <= w <= |src|
  {
    Overlay(c, off, src[..w], r) == Splice(c, off, src[..r])
  }

  /** Whatever the source holds. */
  ghost predicate AlwaysHonest(c: seq<Byte>, off: nat, have: nat, r: nat, w: nat)
    requires off <= |c| && r <= w <= have
  {
    forall src: seq<Byte> :: |src| == have ==> Honest(c, off, src, r, w)
  }

  lemma HonestIf(c: seq<Byte>, off: nat, src: seq<Byte>, r: nat, w: nat)
    requires off <= |c| && r <= w <= |src| && (r == w || off + r >= |c|)
    ensures Honest(c, off, src, r, w)
  {
    assert src[..w][..r] == src[..r];
    OverlayShows(c, off, src[..w], r);
  }

  /** A source that gives it away. */
  lemma Dishonest(c: seq<Byte>, off: nat, have: nat, r: nat, w: nat) returns (src: seq<Byte>)
    requires off <= |c| && r < w <= have && off + r < |c|
    ensures |src| == have && !Honest(c, off, src, r, w)
  {
    var b: Byte := if c[off + r] == 0 then 1 else 0;
    src := seq(have, _ => b);
    assert src[..w][..r] == src[..r];
    assert src[..w][r] == b != c[off + r];
    OverlayShows(c, off, src[..w], r);
  }

  lemma HonestExactly(c: seq<Byte>, off: nat, have: nat, r: nat, w: nat)
    requires off <= |c| && r <= w <= have
    ensures AlwaysHonest(c, off, have, r, w) <==> r == w || off + r >= |c|
  {
    if r == w || off + r >= |c| {
      forall src: seq<Byte> | |src| == have ensures Honest(c, off, src, r, w) { HonestIf(c, off, src, r, w); }
    } else {
      var src := Dishonest(c, off, have, r, w);
      assert |src| == have && !Honest(c, off, src, r, w);
    }
  }

  lemma CountedFits(off: nat, have: nat, n: nat)
    ensures Counted(off, have, n) <= Copied(have, n) <= have
  {
  }

  /** writei shows only what it reports, whatever its source holds, if and only if the source can be read to the
      end, or the fault falls on a block boundary, or what is reported reaches the end of the file. */
  lemma WriteiHonest(c: seq<Byte>, off: nat, have: nat, n: nat)
    requires off <= |c|
    ensures Counted(off, have, n) <= Copied(have, n) <= have
    ensures AlwaysHonest(c, off, have, Counted(off, have, n), Copied(have, n)) <==>
              have >= n || Counted(off, have, n) == have || off + Counted(off, have, n) >= |c|
  {
    CountedFits(off, have, n);
    HonestExactly(c, off, have, Counted(off, have, n), Copied(have, n));
  }

  /** The same for filewrite. */
  lemma FilewriteHonest(c: seq<Byte>, off: nat, have: nat, n: nat)
    requires off <= |c|
    ensures FileCounted(off, have, n) <= Copied(have, n) <= have
    ensures AlwaysHonest(c, off, have, FileCounted(off, have, n), Copied(have, n)) <==>
              have >= n || FileCounted(off, have, n) == have || off + FileCounted(off, have, n) >= |c|
  {
    if have < n { CountedFits(off + Start(have), have - Start(have), CHUNK); }
    HonestExactly(c, off, have, FileCounted(off, have, n), Copied(have, n));
  }

  // ---- On files ----

  /** What writei promises of a write that it does not refuse. */
  ghost predicate Written(L: Layout, fs0: Fs, fs: Fs, i: nat, src: seq<Byte>, off: nat, n: nat, r: nat, w: nat) {
    && r <= n && r <= w <= |src| && Spliced(L, fs0, fs, i, off, src[..w], r)
    && Stopped(L, fs, i, off, r, w, |src|, n) && ChunkStart(off, r, n) && SlotsKept(L, fs0, fs)
  }

  /** Under that condition, checked on the file as it is before the call, writei changes exactly what it reports. */
  lemma WriteShows(L: Layout, fs0: Fs, fs: Fs, i: nat, src: seq<Byte>, off: nat, n: nat, r: nat, w: nat)
    requires Written(L, fs0, fs, i, src, off, n, r, w)
    requires var x := Counted(off, |src|, n); |src| >= n || x == |src| || off + x >= fs0.inodes[i].size
    ensures Contents(L, fs, i) == Splice(Contents(L, fs0, i), off, src[..r])
  {
    hide Inv, Contents, Stuck, SlotsKept, Overlay, Splice, Stopped, ChunkStart, Counted;
    ReportExact(L, fs, i, off, r, w, |src|, n);
    CountedAll(off, |src|, n);
    HonestIf(Contents(L, fs0, i), off, src, r, w);
  }

  /** Without it: two bytes are to be written over a file of two, one can be read, and the fault shows although
      nothing is reported. */
  lemma FaultShows(L: Layout, fs0: Fs, fs: Fs, i: nat, r: nat, w: nat)
    requires Written(L, fs0, fs, i, [2], 0, 2, r, w) && Contents(L, fs0, i) == [1, 1]
    ensures r == 0 && Contents(L, fs, i) == [2, 1]
  {
    hide Inv, Contents, SlotsKept, Stopped, ChunkStart, Overlay;
    ReportExact(L, fs, i, 0, r, w, 1, 2);
    NotStuck(L, fs0, fs, i, r);
    assert [2][..1] == [2];
    assert Overlay([1, 1], 0, [2], 0) == [2, 1] by { FaultBytes(); }
  }

  lemma FaultBytes()
    ensures Overlay([1, 1], 0, [2], 0) == [2, 1]
  {
  }

  /** A block that the file had is still there. */
  lemma NotStuck(L: Layout, fs0: Fs, fs: Fs, i: nat, p: nat)
    requires Inv(L, fs0) && SlotsKept(L, fs0, fs) && i < L.ninodes && p < fs0.inodes[i].size
    ensures !Stuck(L, fs, i, p)
  {
    hide Slot, UsedIn;
    SlotThere(L, fs0, i, p);
  }

  // ---- A run in which it happens ----

  /** A disk of eight blocks: boot, one of inodes, one of bitmap, five of data. */
  const SMALL: Layout := Layout(8, 1, 1, 2, 3)

  function SmallDisk(): (b: seq<Block>)
    ensures |b| == 8 && b[1] == Zeros()
  {
    var z := Zeros();
    [z, z, z[0 := 7], z, z, z, z, z]
  }

  lemma SmallBits(b: nat)
    requires b < 8
    ensures Bit(7, b) <==> b < 3
  {
    assert b > 0 ==> Bit(7, b) == Bit(3, b - 1);
    assert b > 1 ==> Bit(3, b - 1) == Bit(1, b - 2);
    assert b > 2 ==> Bit(1, b - 2) == Bit(0, b - 3);
    if b > 2 { ZeroBits(b - 3); }
  }

  lemma {:induction false} ZeroBits(k: nat)
    ensures !Bit(0, k)
  {
    if k > 0 { ZeroBits(k - 1); }
  }

  lemma SmallFresh()
    ensures Laid(SMALL) && Inv(SMALL, Fs(SmallDisk(), Decoded(SMALL, SmallDisk()), map[]))
    ensures Decoded(SMALL, SmallDisk())[0].size == 0
  {
    hide Inv, Bit, GetInode;
    var b := SmallDisk();
    forall c | 0 <= c < 8 ensures UsedIn(SMALL, b, c) == (c < 3) { SmallBits(c); }
    FreshInv(SMALL, b);
    ZeroInode(0);
  }

  lemma OwnersDiffer(fs: Fs, b: Uint, c: Uint)
    requires Inv(SMALL, fs) && b != c
    ensures b in fs.owner && c in fs.owner ==> fs.owner[b] != fs.owner[c]
  {
    hide Slot, UsedIn;
    assert b in fs.owner ==> OwnerOk(SMALL, fs, b);
    assert c in fs.owner ==> OwnerOk(SMALL, fs, c);
  }

  /** One file block and an indirect block do not fill it. */
  lemma SmallRoom(fs0: Fs, fs: Fs)
    requires Inv(SMALL, fs) && fs0.owner == map[] && Allotted(fs0, fs, 0, 0, 1)
    ensures !Full(SMALL, fs.blocks)
  {
    hide Slot, UsedIn;
    OwnersDiffer(fs, 3, 4);
    OwnersDiffer(fs, 4, 5);
    OwnersDiffer(fs, 3, 5);
    assert forall b: Uint :: b in fs.owner ==> fs.owner[b] == Loc(0, 0) || fs.owner[b] == Loc(0, NDIRECT);
    assert BitOk(SMALL, fs, 3) && BitOk(SMALL, fs, 4) && BitOk(SMALL, fs, 5);
  }

  /** A file of two bytes. */
  method SmallFile() returns (r: int, fs: FileSys)
    ensures fs.Valid() && fs.L == SMALL && r == 2 && Contents(SMALL, fs.Value(), 0) == [1, 1]
    ensures fresh(fs)
  {
    hide Inv, Synced, Contents, Spliced, Stopped, ChunkStart, SlotsKept, Allotted, Tracked, DataBlocksOnly, Touched,
         Bits, Overlay, UsedIn, SmallDisk, Decoded;
    SmallFresh();
    fs := new FileSys.Mount(SMALL, SmallDisk(), map[]);
    ghost var fs0 := fs.Value();
    InvSized(SMALL, fs0);
    ghost var w, stray;
    r, w, stray := fs.Writei(0, [1, 1], 0, 2);
    FirstWrite(fs0, fs.Value(), r, w);
  }

  /** Two bytes are written over them, of which one can be read. */
  method FaultRun() returns (r: int, fs: FileSys)
    ensures fs.Valid() && fs.L == SMALL && r == 0 && Contents(SMALL, fs.Value(), 0) == [2, 1]
  {
    hide Inv, Synced, Contents, Spliced, Stopped, ChunkStart, SlotsKept, Allotted, Tracked, DataBlocksOnly, Touched,
         Bits, Overlay, UsedIn;
    r, fs := SmallFile();
    ghost var fs1 := fs.Value();
    InvSized(SMALL, fs1);
    ghost var w, stray;
    r, w, stray := fs.Writei(0, [2], 0, 2);
    FaultShows(SMALL, fs1, fs.Value(), 0, r, w);
  }

  lemma FirstWrite(fs0: Fs, fs: Fs, r: nat, w: nat)
    requires Inv(SMALL, fs0) && fs0.owner == map[] && fs0.inodes[0].size == 0 && Allotted(fs0, fs, 0, 0, End(0, 2))
    requires r <= 2 && r <= w <= 2
    requires Spliced(SMALL, fs0, fs, 0, 0, [1, 1][..w], r) && Stopped(SMALL, fs, 0, 0, r, w, 2, 2)
    ensures r == 2 && Contents(SMALL, fs, 0) == [1, 1]
  {
    hide Inv, Contents, Slot, UsedIn;
    assert End(0, 2) == 1;
    SmallRoom(fs0, fs);
    assert [1, 1][..2] == [1, 1];
  }
}
