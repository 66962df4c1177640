/** What the blocks, the free bitmap and the inodes of kernel/fs.c mean together: which block belongs
    to which slot of which inode, and what bytes a file holds. */
module FsModel {
  import opened Basics
  import opened Blocks

  const NDIRECT: nat := 12
  const NINDIRECT: nat := 256
  const MAXFILE: nat := NDIRECT + NINDIRECT
  const SLOTS: nat := MAXFILE + 1
  const BPB: nat := BSIZE * 8
  const IPB: nat := 16

  type Half = x: int | 0 <= x < 0x1_0000
  type Addrs = a: seq<Uint> | |a| == NDIRECT + 1 witness seq(NDIRECT + 1, _ => 0)

  datatype Inode = Inode(kind: Half, major: Half, minor: Half, nlink: Half, size: Uint, addrs: Addrs)

  /** The superblock: boot, super and log blocks, then inode blocks, bitmap blocks and data blocks. */
  datatype Layout = Layout(size: nat, ninodes: nat, inodestart: nat, bmapstart: nat, datastart: nat)

  predicate Laid(L: Layout) {
    && 0 < L.inodestart && L.inodestart + L.ninodes / IPB < L.bmapstart
    && 0 < L.size < 0x1_0000_0000
    && L.bmapstart + (L.size - 1) / BPB < L.datastart <= L.size
  }

  /** Slots 0..11 are direct blocks, 12 is the indirect block, 13.. are its entries. */
  datatype Loc = Loc(inum: nat, k: nat)

  /** The home blocks as bread returns them, the in-memory inodes, and the slot that owns each data block. */
  datatype Fs = Fs(blocks: seq<Block>, inodes: seq<Inode>, owner: map<Uint, Loc>)

  /** The block number in a slot, 0 if there is none. */
  function Slot(fs: Fs, l: Loc): Uint
    requires l.inum < |fs.inodes| && l.k < SLOTS
  {
    var a := fs.inodes[l.inum].addrs;
    if l.k <= NDIRECT then a[l.k]
    else if a[NDIRECT] == 0 || a[NDIRECT] >= |fs.blocks| then 0
    else Word(fs.blocks[a[NDIRECT]], l.k - NDIRECT - 1)
  }

  /** The slot of a file's bn-th data block. */
  function DataLoc(inum: nat, bn: nat): Loc {
    Loc(inum, if bn < NDIRECT then bn else bn + 1)
  }

  // ---- The free bitmap ----

  function BBlock(L: Layout, b: nat): nat {
    b / BPB + L.bmapstart
  }

  predicate Used(L: Layout, blocks: seq<Block>, b: nat)
    requires BBlock(L, b) < |blocks|
  {
    Bit(blocks[BBlock(L, b)][b % BPB / 8], b % BPB % 8)
  }

  function Mark(L: Layout, blocks: seq<Block>, b: nat, v: bool): (r: seq<Block>)
    requires BBlock(L, b) < |blocks|
  {
    var bb, i := BBlock(L, b), b % BPB / 8;
    blocks[bb := blocks[bb][i := ByteWithBit(blocks[bb][i], b % BPB % 8, v)]]
  }

  lemma MarkOne(L: Layout, blocks: seq<Block>, b: nat, v: bool, c: nat)
    requires BBlock(L, b) < |blocks| && BBlock(L, c) < |blocks|
    ensures Used(L, Mark(L, blocks, b, v), c) == if c == b then v else Used(L, blocks, c)
  {
    var bb, i := BBlock(L, b), b % BPB / 8;
    WithBitOne(blocks[bb][i], b % BPB % 8, v, c % BPB % 8);
    if BBlock(L, c) == bb && c % BPB / 8 == i && c % BPB % 8 == b % BPB % 8 { SameBit(b, c); }
  }

  lemma MarkElsewhere(L: Layout, blocks: seq<Block>, b: nat, v: bool)
    requires BBlock(L, b) < |blocks|
    ensures |Mark(L, blocks, b, v)| == |blocks|
    ensures forall x :: 0 <= x < |blocks| && x != BBlock(L, b) ==> Mark(L, blocks, b, v)[x] == blocks[x]
  {
  }

  lemma SameBit(b: nat, c: nat)
    requires b / BPB == c / BPB && b % BPB / 8 == c % BPB / 8 && b % BPB % 8 == c % BPB % 8
    ensures b == c
  {
    assert b % BPB == c % BPB;
  }

  // ---- The invariant ----

  predicate Sized(L: Layout, fs: Fs) {
    Laid(L) && |fs.blocks| == L.size && |fs.inodes| == L.ninodes
  }

  predicate IsLoc(L: Layout, l: Loc) {
    l.inum < L.ninodes && l.k < SLOTS
  }

  ghost predicate SlotOk(L: Layout, fs: Fs, l: Loc)
    requires Sized(L, fs) && IsLoc(L, l)
  {
    Slot(fs, l) != 0 ==> Slot(fs, l) in fs.owner && fs.owner[Slot(fs, l)] == l
  }

  ghost predicate OwnerOk(L: Layout, fs: Fs, b: Uint)
    requires Sized(L, fs) && b in fs.owner
  {
    L.datastart <= b < L.size && IsLoc(L, fs.owner[b]) && Slot(fs, fs.owner[b]) == b
  }

  /** Every filled slot holds a data block that it alone owns. */
  ghost predicate Owned(L: Layout, fs: Fs)
    requires Sized(L, fs)
  {
    && (forall l {:trigger SlotOk(L, fs, l)} :: IsLoc(L, l) ==> SlotOk(L, fs, l))
    && (forall b {:trigger OwnerOk(L, fs, b)} :: b in fs.owner ==> OwnerOk(L, fs, b))
  }

  lemma BitmapInside(L: Layout, b: nat)
    requires Laid(L) && b < L.size
    ensures L.bmapstart <= BBlock(L, b) < L.datastart
  {
    assert b / BPB <= (L.size - 1) / BPB;
  }

  /** Block b's bit is set exactly when b is metadata or owned. */
  ghost predicate BitOk(L: Layout, fs: Fs, b: nat)
    requires Sized(L, fs) && b < L.size
  {
    UsedIn(L, fs.blocks, b) == (b < L.datastart || b in fs.owner)
  }

  /** Every block below the end of the file is there. */
  ghost predicate NoHoles(L: Layout, fs: Fs)
    requires Sized(L, fs)
  {
    forall i, bn :: 0 <= i < L.ninodes && 0 <= bn < MAXFILE && bn * BSIZE < fs.inodes[i].size ==>
      Slot(fs, DataLoc(i, bn)) != 0
  }

  ghost predicate Inv(L: Layout, fs: Fs) {
    && Sized(L, fs) && Owned(L, fs) && NoHoles(L, fs)
    && (forall b :: 0 <= b < L.size ==> BitOk(L, fs, b))
    && (forall i :: 0 <= i < L.ninodes ==> fs.inodes[i].size <= MAXFILE * BSIZE)
  }

  lemma InvSized(L: Layout, fs: Fs)
    requires Inv(L, fs)
    ensures Sized(L, fs)
  {
  }

  lemma SlotInside(L: Layout, fs: Fs, l: Loc)
    requires Sized(L, fs) && Owned(L, fs) && IsLoc(L, l)
    ensures Slot(fs, l) < L.size
    ensures Slot(fs, l) != 0 ==> L.datastart <= Slot(fs, l) && Slot(fs, l) in fs.owner && fs.owner[Slot(fs, l)] == l
  {
    assert SlotOk(L, fs, l);
    if Slot(fs, l) != 0 { assert OwnerOk(L, fs, Slot(fs, l)); }
  }

  /** The byte at position p of a file's blocks (meaningful where the block exists). */
  ghost function FileByte(L: Layout, fs: Fs, i: nat, p: nat): Byte
    requires Inv(L, fs) && i < L.ninodes && p < MAXFILE * BSIZE
  {
    SlotInside(L, fs, DataLoc(i, p / BSIZE));
    fs.blocks[Slot(fs, DataLoc(i, p / BSIZE))][p % BSIZE]
  }

  /** The file's contents. */
  ghost function Contents(L: Layout, fs: Fs, i: nat): (r: seq<Byte>)
    requires Inv(L, fs) && i < L.ninodes
    ensures |r| == fs.inodes[i].size
  {
    seq(fs.inodes[i].size, p requires 0 <= p < fs.inodes[i].size => FileByte(L, fs, i, p))
  }

  /** What the invariant says in plain terms: no block is owned twice, and the bitmap marks exactly
      the metadata blocks and the blocks some inode owns. */
  lemma OwnershipExact(L: Layout, fs: Fs, l: Loc, m: Loc, b: Uint)
    requires Inv(L, fs) && IsLoc(L, l) && IsLoc(L, m) && b < L.size
    ensures l != m && Slot(fs, l) != 0 ==> Slot(fs, l) != Slot(fs, m)
    ensures UsedIn(L, fs.blocks, b) <==> b < L.datastart || exists o :: IsLoc(L, o) && Slot(fs, o) == b
  {
    hide Word, UsedIn;
    SlotInside(L, fs, l);
    SlotInside(L, fs, m);
    assert BitOk(L, fs, b);
    if b >= L.datastart {
      if b in fs.owner {
        assert OwnerOk(L, fs, b) && IsLoc(L, fs.owner[b]) && Slot(fs, fs.owner[b]) == b;
      } else {
        forall o | IsLoc(L, o) ensures Slot(fs, o) != b { SlotInside(L, fs, o); }
      }
    }
  }

  /** Empty inodes and a bitmap that marks the metadata only. */
  lemma NoFiles(L: Layout, fs: Fs)
    requires Sized(L, fs) && fs.owner == map[]
    requires forall i :: 0 <= i < L.ninodes ==> fs.inodes[i].size == 0 && fs.inodes[i].addrs == seq(NDIRECT + 1, _ => 0)
    requires forall b :: 0 <= b < L.size ==> UsedIn(L, fs.blocks, b) == (b < L.datastart)
    ensures Inv(L, fs)
  {
    hide Word, UsedIn;
    forall m | IsLoc(L, m) ensures SlotOk(L, fs, m) {}
    forall b | 0 <= b < L.size ensures BitOk(L, fs, b) {}
  }

  // ---- Allocating a block into a slot ----

  /** balloc's effect: block b's bit set, the block zeroed, all else as it was. */
  ghost predicate Took(L: Layout, blocks: seq<Block>, taken: seq<Block>, b: Uint) {
    && Laid(L) && |blocks| == |taken| == L.size && L.datastart <= b < L.size
    && taken[b] == Zeros()
    && (forall x :: 0 <= x < L.size && x != b && x != BBlock(L, b) ==> taken[x] == blocks[x])
    && (forall c :: 0 <= c < L.size ==> UsedIn(L, taken, c) == (c == b || UsedIn(L, blocks, c)))
  }

  ghost predicate UsedIn(L: Layout, blocks: seq<Block>, b: nat)
    requires Laid(L) && b < L.size && |blocks| == L.size
  {
    BitmapInside(L, b);
    Used(L, blocks, b)
  }

  /** Block b, taken as in `taken`, entered into slot l. */
  function Linked(fs: Fs, taken: seq<Block>, l: Loc, b: Uint): Fs
    requires l.inum < |fs.inodes| && l.k < SLOTS && fs.inodes[l.inum].addrs[NDIRECT] < |taken|
  {
    var ip := fs.inodes[l.inum];
    if l.k <= NDIRECT then
      Fs(taken, fs.inodes[l.inum := ip.(addrs := ip.addrs[l.k := b])], fs.owner[b := l])
    else
      var ind := ip.addrs[NDIRECT];
      Fs(taken[ind := SetWord(taken[ind], l.k - NDIRECT - 1, b)], fs.inodes, fs.owner[b := l])
  }

  /** What bmap needs before it links a fresh block into an empty slot. */
  ghost predicate Linkable(L: Layout, fs: Fs, taken: seq<Block>, l: Loc, b: Uint) {
    && Inv(L, fs) && IsLoc(L, l) && Slot(fs, l) == 0
    && Took(L, fs.blocks, taken, b) && b !in fs.owner
    && fs.inodes[l.inum].addrs[NDIRECT] < L.size
    && (l.k > NDIRECT ==> fs.inodes[l.inum].addrs[NDIRECT] != 0)
  }

  lemma IndirectInside(L: Layout, fs: Fs, i: nat)
    requires Inv(L, fs) && i < L.ninodes
    ensures var ind := fs.inodes[i].addrs[NDIRECT];
            ind < L.size && (ind != 0 ==> L.datastart <= ind && ind in fs.owner && fs.owner[ind] == Loc(i, NDIRECT))
  {
    SlotInside(L, fs, Loc(i, NDIRECT));
  }

  lemma TookElsewhere(L: Layout, blocks: seq<Block>, taken: seq<Block>, b: Uint, x: nat)
    requires Took(L, blocks, taken, b) && L.datastart <= x < L.size && x != b
    ensures taken[x] == blocks[x]
  {
    BitmapInside(L, b);
  }

  lemma LinkedDirect(fs: Fs, taken: seq<Block>, l: Loc, b: Uint, m: Loc)
    requires l.inum < |fs.inodes| && m.inum < |fs.inodes| && l.k <= NDIRECT && m.k < SLOTS && |taken| == |fs.blocks|
    requires fs.inodes[l.inum].addrs[NDIRECT] < |taken|
    requires var ind := fs.inodes[m.inum].addrs[NDIRECT]; ind == 0 || (ind < |taken| && taken[ind] == fs.blocks[ind])
    requires l.k == NDIRECT ==> fs.inodes[l.inum].addrs[NDIRECT] == 0 && b < |taken| && taken[b] == Zeros()
    ensures Slot(Linked(fs, taken, l, b), m) == if m == l then b else Slot(fs, m)
  {
    hide Word;
    if m.k > NDIRECT && l == Loc(m.inum, NDIRECT) {
      ZeroWord(m.k - NDIRECT - 1);
    }
  }

  lemma LinkedEntry(fs: Fs, taken: seq<Block>, l: Loc, b: Uint, m: Loc)
    requires l.inum < |fs.inodes| && m.inum < |fs.inodes| && NDIRECT < l.k < SLOTS && m.k < SLOTS
    requires |taken| == |fs.blocks|
    requires var ind := fs.inodes[m.inum].addrs[NDIRECT]; ind == 0 || (ind < |taken| && taken[ind] == fs.blocks[ind])
    requires var ind := fs.inodes[l.inum].addrs[NDIRECT];
             0 < ind < |taken| && (fs.inodes[m.inum].addrs[NDIRECT] == ind ==> m.inum == l.inum)
    ensures Slot(Linked(fs, taken, l, b), m) == if m == l then b else Slot(fs, m)
  {
    var ind := fs.inodes[l.inum].addrs[NDIRECT];
    if m.k > NDIRECT && l.inum == m.inum {
      SetWordOne(taken[ind], l.k - NDIRECT - 1, b, m.k - NDIRECT - 1);
    }
  }

  /** Linking fills its slot and leaves every other slot of every inode alone. */
  lemma LinkedSlot(L: Layout, fs: Fs, taken: seq<Block>, l: Loc, b: Uint, m: Loc)
    requires Linkable(L, fs, taken, l, b) && IsLoc(L, m)
    ensures Slot(Linked(fs, taken, l, b), m) == if m == l then b else Slot(fs, m)
  {
    IndirectInside(L, fs, m.inum);
    IndirectInside(L, fs, l.inum);
    var ind := fs.inodes[m.inum].addrs[NDIRECT];
    if ind != 0 { TookElsewhere(L, fs.blocks, taken, b, ind); }
    if l.k <= NDIRECT { LinkedDirect(fs, taken, l, b, m); } else { LinkedEntry(fs, taken, l, b, m); }
  }

  lemma UsedFrame(L: Layout, blocks: seq<Block>, blocks': seq<Block>, x: nat, data: Block)
    requires Laid(L) && |blocks| == L.size && L.datastart <= x < L.size && blocks' == blocks[x := data]
    ensures forall c :: 0 <= c < L.size ==> UsedIn(L, blocks', c) == UsedIn(L, blocks, c)
  {
    forall c | 0 <= c < L.size ensures UsedIn(L, blocks', c) == UsedIn(L, blocks, c) {
      BitmapInside(L, c);
    }
  }

  lemma LinkedBits(L: Layout, fs: Fs, taken: seq<Block>, l: Loc, b: Uint)
    requires Linkable(L, fs, taken, l, b)
    ensures forall c :: 0 <= c < L.size ==> BitOk(L, Linked(fs, taken, l, b), c)
  {
    var fs' := Linked(fs, taken, l, b);
    var ind := fs.inodes[l.inum].addrs[NDIRECT];
    IndirectInside(L, fs, l.inum);
    if l.k > NDIRECT { UsedFrame(L, taken, fs'.blocks, ind, fs'.blocks[ind]); }
    forall c | 0 <= c < L.size ensures BitOk(L, fs', c) {
      assert BitOk(L, fs, c);
    }
  }

  /** bmap's allocation keeps the whole invariant. */
  lemma LinkedInv(L: Layout, fs: Fs, taken: seq<Block>, l: Loc, b: Uint)
    requires Linkable(L, fs, taken, l, b)
    ensures Inv(L, Linked(fs, taken, l, b))
  {
    hide Word;
    var fs' := Linked(fs, taken, l, b);
    assert Sized(L, fs');
    forall m | IsLoc(L, m) ensures Slot(fs', m) == if m == l then b else Slot(fs, m) {
      LinkedSlot(L, fs, taken, l, b, m);
    }
    assert Owned(L, fs') by { LinkedOwned(L, fs, fs', l, b); }
    LinkedBits(L, fs, taken, l, b);
  }

  lemma LinkedOwned(L: Layout, fs: Fs, fs': Fs, l: Loc, b: Uint)
    requires Sized(L, fs) && Owned(L, fs) && Sized(L, fs') && IsLoc(L, l) && Slot(fs, l) == 0
    requires L.datastart <= b < L.size && b !in fs.owner && fs'.owner == fs.owner[b := l]
    requires forall m :: IsLoc(L, m) ==> Slot(fs', m) == if m == l then b else Slot(fs, m)
    ensures Owned(L, fs')
  {
    hide Slot;
    forall m | IsLoc(L, m) ensures SlotOk(L, fs', m) { assert SlotOk(L, fs, m); }
    forall c | c in fs'.owner ensures OwnerOk(L, fs', c) { assert c != b ==> OwnerOk(L, fs, c); }
  }

  // ---- What leaves a file's bytes alone ----

  /** If each block a file had is in its place and unchanged, so are its bytes. */
  lemma SameContents(L: Layout, fs: Fs, fs': Fs, i: nat)
    requires Inv(L, fs) && Inv(L, fs') && i < L.ninodes && fs'.inodes[i].size == fs.inodes[i].size
    requires forall bn :: 0 <= bn < MAXFILE && Slot(fs, DataLoc(i, bn)) != 0 ==>
               && Slot(fs', DataLoc(i, bn)) == Slot(fs, DataLoc(i, bn)) < L.size
               && fs'.blocks[Slot(fs, DataLoc(i, bn))] == fs.blocks[Slot(fs, DataLoc(i, bn))]
    ensures Contents(L, fs', i) == Contents(L, fs, i)
  {
    hide Slot;
    var c, c' := Contents(L, fs, i), Contents(L, fs', i);
    forall p | 0 <= p < |c| ensures c'[p] == c[p] {
      assert p / BSIZE * BSIZE < fs.inodes[i].size && p / BSIZE < MAXFILE;
      assert Slot(fs, DataLoc(i, p / BSIZE)) != 0;
    }
  }

  /** Only inode i's block addresses may differ. */
  ghost predicate SameInodes(L: Layout, fs0: Fs, fs: Fs, i: nat) {
    && |fs0.inodes| == |fs.inodes| == L.ninodes && i < L.ninodes
    && (forall j :: 0 <= j < L.ninodes && j != i ==> fs.inodes[j] == fs0.inodes[j])
    && fs.inodes[i] == fs0.inodes[i].(addrs := fs.inodes[i].addrs)
  }

  ghost predicate SameBlock(fs: Fs, fs': Fs, b: nat) {
    b < |fs.blocks| && b < |fs'.blocks| && fs'.blocks[b] == fs.blocks[b]
  }

  /** All that bmap may do to file i: fill empty slots. */
  ghost predicate Grown(L: Layout, fs: Fs, fs': Fs, i: nat) {
    && Inv(L, fs) && Inv(L, fs') && SameInodes(L, fs, fs', i)
    && (forall m :: IsLoc(L, m) && Slot(fs, m) != 0 ==> Slot(fs', m) == Slot(fs, m))
    && (forall m :: IsLoc(L, m) && Slot(fs, m) != 0 && m.k != NDIRECT ==> SameBlock(fs, fs', Slot(fs, m)))
  }

  lemma LinkedGrown(L: Layout, fs: Fs, taken: seq<Block>, l: Loc, b: Uint)
    requires Linkable(L, fs, taken, l, b)
    ensures Grown(L, fs, Linked(fs, taken, l, b), l.inum)
  {
    hide Word;
    var fs' := Linked(fs, taken, l, b);
    LinkedInv(L, fs, taken, l, b);
    IndirectInside(L, fs, l.inum);
    forall m | IsLoc(L, m) && Slot(fs, m) != 0
      ensures Slot(fs', m) == Slot(fs, m)
      ensures m.k != NDIRECT ==> SameBlock(fs, fs', Slot(fs, m))
    {
      LinkedSlot(L, fs, taken, l, b, m);
      SlotInside(L, fs, m);
      TookElsewhere(L, fs.blocks, taken, b, Slot(fs, m));
    }
  }

  lemma GrownContents(L: Layout, fs: Fs, fs': Fs, i: nat, j: nat)
    requires Grown(L, fs, fs', i) && j < L.ninodes
    ensures Contents(L, fs', j) == Contents(L, fs, j)
  {
    hide Slot;
    forall bn | 0 <= bn < MAXFILE && Slot(fs, DataLoc(j, bn)) != 0
      ensures && Slot(fs', DataLoc(j, bn)) == Slot(fs, DataLoc(j, bn)) < L.size
              && fs'.blocks[Slot(fs, DataLoc(j, bn))] == fs.blocks[Slot(fs, DataLoc(j, bn))]
    {
      SlotInside(L, fs, DataLoc(j, bn));
      assert SameBlock(fs, fs', Slot(fs, DataLoc(j, bn)));
    }
    SameContents(L, fs, fs', j);
  }

  lemma GrownTwice(L: Layout, fs0: Fs, fs1: Fs, fs2: Fs, i: nat)
    requires Grown(L, fs0, fs1, i) && Grown(L, fs1, fs2, i)
    ensures Grown(L, fs0, fs2, i)
  {
    hide Slot;
  }

  // ---- Storing into a file's block ----

  function Stored(fs: Fs, i: nat, bn: nat, data: Block): Fs
    requires i < |fs.inodes| && bn < MAXFILE && Slot(fs, DataLoc(i, bn)) < |fs.blocks|
  {
    fs.(blocks := fs.blocks[Slot(fs, DataLoc(i, bn)) := data])
  }

  /** Writing a file's data block touches no slot, no bitmap bit and no other block. */
  lemma StoredInv(L: Layout, fs: Fs, i: nat, bn: nat, data: Block)
    requires Inv(L, fs) && i < L.ninodes && bn < MAXFILE && L.size > Slot(fs, DataLoc(i, bn)) != 0
    ensures Inv(L, Stored(fs, i, bn, data))
    ensures forall m :: IsLoc(L, m) ==> Slot(Stored(fs, i, bn, data), m) == Slot(fs, m)
  {
    hide Word;
    var x, fs' := Slot(fs, DataLoc(i, bn)), Stored(fs, i, bn, data);
    SlotInside(L, fs, DataLoc(i, bn));
    forall m | IsLoc(L, m) ensures Slot(fs', m) == Slot(fs, m) {
      IndirectInside(L, fs, m.inum);
    }
    StoredRest(L, fs, fs', x, data);
  }

  lemma StoredRest(L: Layout, fs: Fs, fs': Fs, x: nat, data: Block)
    requires Inv(L, fs) && L.datastart <= x < L.size && fs' == fs.(blocks := fs.blocks[x := data])
    requires forall m :: IsLoc(L, m) ==> Slot(fs', m) == Slot(fs, m)
    ensures Inv(L, fs')
  {
    hide Slot;
    UsedFrame(L, fs.blocks, fs'.blocks, x, data);
    forall c | 0 <= c < L.size ensures BitOk(L, fs', c) { assert BitOk(L, fs, c); }
    forall m | IsLoc(L, m) ensures SlotOk(L, fs', m) { assert SlotOk(L, fs, m); }
    forall c | c in fs'.owner ensures OwnerOk(L, fs', c) { assert OwnerOk(L, fs, c); }
    assert NoHoles(L, fs');
  }

  lemma StoredByte(L: Layout, fs: Fs, i: nat, bn: nat, data: Block, j: nat, p: nat)
    requires Inv(L, fs) && i < L.ninodes && bn < MAXFILE && L.size > Slot(fs, DataLoc(i, bn)) != 0
    requires j < L.ninodes && p < MAXFILE * BSIZE && Slot(fs, DataLoc(j, p / BSIZE)) != 0
    ensures Inv(L, Stored(fs, i, bn, data))
    ensures FileByte(L, Stored(fs, i, bn, data), j, p)
            == if j == i && p / BSIZE == bn then data[p % BSIZE] else FileByte(L, fs, j, p)
  {
    hide Slot;
    StoredInv(L, fs, i, bn, data);
    var l, m := DataLoc(i, bn), DataLoc(j, p / BSIZE);
    SlotInside(L, fs, l);
    SlotInside(L, fs, m);
  }

  // ---- A write in progress ----

  /** Bytes [off, off+tot) of file i have been replaced by src, and nothing else has changed. */
  ghost predicate Writing(L: Layout, fs0: Fs, fs: Fs, i: nat, off: nat, src: seq<Byte>, tot: nat) {
    && Inv(L, fs0) && Inv(L, fs) && i < L.ninodes && off <= fs0.inodes[i].size
    && tot <= |src| && off + tot <= MAXFILE * BSIZE
    && SameInodes(L, fs0, fs, i)
    && (forall j :: 0 <= j < L.ninodes && j != i ==> Contents(L, fs, j) == Contents(L, fs0, j))
    && (forall bn :: 0 <= bn < MAXFILE && bn * BSIZE < off + tot ==> Slot(fs, DataLoc(i, bn)) != 0)
    && (forall p {:trigger ByteOk(L, fs0, fs, i, off, src, tot, p)} ::
          0 <= p < MAXFILE * BSIZE && (p < fs0.inodes[i].size || p < off + tot) ==>
            ByteOk(L, fs0, fs, i, off, src, tot, p))
  }

  ghost predicate ByteOk(L: Layout, fs0: Fs, fs: Fs, i: nat, off: nat, src: seq<Byte>, tot: nat, p: nat)
    requires Inv(L, fs0) && Inv(L, fs) && i < L.ninodes && off <= fs0.inodes[i].size && tot <= |src|
    requires p < MAXFILE * BSIZE && (p < fs0.inodes[i].size || p < off + tot)
  {
    FileByte(L, fs, i, p) == NewByte(L, fs0, i, off, src, tot, p)
  }

  ghost function NewByte(L: Layout, fs0: Fs, i: nat, off: nat, src: seq<Byte>, tot: nat, p: nat): Byte
    requires Inv(L, fs0) && i < L.ninodes && tot <= |src|
    requires p < fs0.inodes[i].size || off <= p < off + tot
  {
    if off <= p < off + tot then src[p - off] else Contents(L, fs0, i)[p]
  }

  lemma WritingStarts(L: Layout, fs: Fs, i: nat, off: nat, src: seq<Byte>)
    requires Inv(L, fs) && i < L.ninodes && off <= fs.inodes[i].size
    ensures Writing(L, fs, fs, i, off, src, 0)
  {
    hide Slot;
  }

  lemma WritingGrown(L: Layout, fs0: Fs, fs: Fs, fs': Fs, i: nat, off: nat, src: seq<Byte>, tot: nat)
    requires Writing(L, fs0, fs, i, off, src, tot) && Grown(L, fs, fs', i)
    ensures Writing(L, fs0, fs', i, off, src, tot)
  {
    hide Slot;
    forall j | 0 <= j < L.ninodes && j != i ensures Contents(L, fs', j) == Contents(L, fs0, j) {
      GrownContents(L, fs, fs', i, j);
    }
    forall p | 0 <= p < MAXFILE * BSIZE && (p < fs0.inodes[i].size || p < off + tot)
      ensures ByteOk(L, fs0, fs', i, off, src, tot, p)
    {
      assert ByteOk(L, fs0, fs, i, off, src, tot, p);
      assert Slot(fs, DataLoc(i, p / BSIZE)) != 0;
      assert SameBlock(fs, fs', Slot(fs, DataLoc(i, p / BSIZE)));
    }
  }

  /** The block with m bytes of src copied in at the current position. */
  function Patched(data: Block, o: nat, src: seq<Byte>): (r: Block)
    requires o + |src| <= BSIZE
  {
    data[..o] + src + data[o + |src|..]
  }

  /** Copying the next chunk into its block extends the write by that chunk. */
  lemma WritingStored(L: Layout, fs0: Fs, fs: Fs, i: nat, off: nat, src: seq<Byte>, tot: nat, m: nat)
    requires Writing(L, fs0, fs, i, off, src, tot) && 0 < m && tot + m <= |src| && off + tot + m <= MAXFILE * BSIZE
    requires (off + tot) % BSIZE + m <= BSIZE
    requires var x := Slot(fs, DataLoc(i, (off + tot) / BSIZE)); 0 < x < L.size
    ensures var bn, o := (off + tot) / BSIZE, (off + tot) % BSIZE;
            var data := Patched(fs.blocks[Slot(fs, DataLoc(i, bn))], o, src[tot..tot + m]);
            Writing(L, fs0, Stored(fs, i, bn, data), i, off, src, tot + m)
  {
    hide Slot, FileByte, NewByte, Contents, Patched, ByteOk;
    var bn, o := (off + tot) / BSIZE, (off + tot) % BSIZE;
    var data := Patched(fs.blocks[Slot(fs, DataLoc(i, bn))], o, src[tot..tot + m]);
    var fs' := Stored(fs, i, bn, data);
    StoredInv(L, fs, i, bn, data);
    forall j | 0 <= j < L.ninodes && j != i ensures Contents(L, fs', j) == Contents(L, fs0, j) {
      StoredContents(L, fs, i, bn, data, j);
    }
    var tot' := tot + m;
    forall p | 0 <= p < MAXFILE * BSIZE && (p < fs0.inodes[i].size || p < off + tot')
      ensures ByteOk(L, fs0, fs', i, off, src, tot', p)
    {
      WritingStoredByte(L, fs0, fs, i, off, src, tot, m, p);
    }
  }

  lemma WritingStoredByte(L: Layout, fs0: Fs, fs: Fs, i: nat, off: nat, src: seq<Byte>, tot: nat, m: nat, p: nat)
    requires Writing(L, fs0, fs, i, off, src, tot) && 0 < m && tot + m <= |src| && off + tot + m <= MAXFILE * BSIZE
    requires (off + tot) % BSIZE + m <= BSIZE
    requires var x := Slot(fs, DataLoc(i, (off + tot) / BSIZE)); 0 < x < L.size
    requires p < MAXFILE * BSIZE && (p < fs0.inodes[i].size || p < off + tot + m)
    ensures var bn, o := (off + tot) / BSIZE, (off + tot) % BSIZE;
            var data := Patched(fs.blocks[Slot(fs, DataLoc(i, bn))], o, src[tot..tot + m]);
            Inv(L, Stored(fs, i, bn, data)) && ByteOk(L, fs0, Stored(fs, i, bn, data), i, off, src, tot + m, p)
  {
    hide Slot;
    var f := off + tot;
    var bn, o, q := f / BSIZE, f % BSIZE, p % BSIZE;
    var was := fs.blocks[Slot(fs, DataLoc(i, bn))];
    var data := Patched(was, o, src[tot..tot + m]);
    ChunkPosition(f, m, p);
    if f <= p < f + m {
      assert data[q] == src[tot + (q - o)];
    } else {
      assert ByteOk(L, fs0, fs, i, off, src, tot, p);
      if p / BSIZE == bn { assert data[q] == was[q]; } else { assert Slot(fs, DataLoc(i, p / BSIZE)) != 0; }
    }
    StoredByte(L, fs, i, bn, data, i, p);
  }

  /** A chunk that stays within its block covers positions by block number and offset. */
  lemma ChunkPosition(f: nat, m: nat, p: nat)
    requires f % BSIZE + m <= BSIZE
    ensures f <= p < f + m <==> p / BSIZE == f / BSIZE && f % BSIZE <= p % BSIZE < f % BSIZE + m
    ensures p / BSIZE == f / BSIZE ==> p - f == p % BSIZE - f % BSIZE
  {
  }

  lemma StoredContents(L: Layout, fs: Fs, i: nat, bn: nat, data: Block, j: nat)
    requires Inv(L, fs) && i < L.ninodes && bn < MAXFILE && L.size > Slot(fs, DataLoc(i, bn)) != 0
    requires j < L.ninodes && j != i
    ensures Inv(L, Stored(fs, i, bn, data)) && Contents(L, Stored(fs, i, bn, data), j) == Contents(L, fs, j)
  {
    hide Slot;
    StoredInv(L, fs, i, bn, data);
    var fs' := Stored(fs, i, bn, data);
    forall bm | 0 <= bm < MAXFILE && Slot(fs, DataLoc(j, bm)) != 0
      ensures && Slot(fs', DataLoc(j, bm)) == Slot(fs, DataLoc(j, bm)) < L.size
              && fs'.blocks[Slot(fs, DataLoc(j, bm))] == fs.blocks[Slot(fs, DataLoc(j, bm))]
    {
      SlotInside(L, fs, DataLoc(j, bm));
      SlotInside(L, fs, DataLoc(i, bn));
    }
    SameContents(L, fs, fs', j);
  }

  /** The bytes with d written over them from position off on. */
  function Splice(s: seq<Byte>, off: nat, d: seq<Byte>): seq<Byte>
    requires off <= |s|
  {
    s[..off] + d + if off + |d| <= |s| then s[off + |d|..] else []
  }

  /** What was written reads back, and every byte outside it is what it was. */
  lemma SpliceReads(c: seq<Byte>, off: nat, d: seq<Byte>)
    requires off <= |c|
    ensures var e := Splice(c, off, d);
            && |e| == (if off + |d| > |c| then off + |d| else |c|)
            && e[off..off + |d|] == d && e[..off] == c[..off]
            && forall p :: off + |d| <= p < |c| ==> e[p] == c[p]
  {
  }

  /** d written over the bytes from off on, while the file grows to hold only the first r bytes of it. */
  function Overlay(c: seq<Byte>, off: nat, d: seq<Byte>, r: nat): seq<Byte>
    requires off <= |c| && r <= |d|
  {
    Splice(c, off, d)[..if off + r > |c| then off + r else |c|]
  }

  lemma OverlaySize(c: seq<Byte>, off: nat, d: seq<Byte>, r: nat)
    requires off <= |c| && r <= |d|
    ensures |Overlay(c, off, d, r)| == if off + r > |c| then off + r else |c|
  {
  }

  lemma OverlayAt(c: seq<Byte>, off: nat, d: seq<Byte>, r: nat, p: nat)
    requires off <= |c| && r <= |d| && p < |Overlay(c, off, d, r)|
    ensures off <= p < off + |d| || p < |c|
    ensures Overlay(c, off, d, r)[p] == if off <= p < off + |d| then d[p - off] else c[p]
  {
  }

  /** When all of d counts, that is a splice. */
  lemma OverlayAll(c: seq<Byte>, off: nat, d: seq<Byte>)
    requires off <= |c|
    ensures Overlay(c, off, d, |d|) == Splice(c, off, d)
  {
  }

  /** Bytes of d beyond the first r show exactly if they lie inside the old file and differ from it. */
  lemma OverlayShows(c: seq<Byte>, off: nat, d: seq<Byte>, r: nat)
    requires off <= |c| && r <= |d|
    ensures Overlay(c, off, d, r) == Splice(c, off, d[..r]) <==>
            forall p :: r <= p < |d| && off + p < |c| ==> d[p] == c[off + p]
  {
    var a, b := Overlay(c, off, d, r), Splice(c, off, d[..r]);
    if forall p :: r <= p < |d| && off + p < |c| ==> d[p] == c[off + p] {
      forall q | 0 <= q < |a| ensures a[q] == b[q] {
        if off + r <= q < off + |d| { assert d[q - off] == c[off + (q - off)]; }
      }
    }
    if a == b {
      forall p | r <= p < |d| && off + p < |c| ensures d[p] == c[off + p] { assert a[off + p] == b[off + p]; }
    }
  }

  /** File i is its old contents with d written over it at off, r bytes of d counting; every other file is
      what it was. */
  ghost predicate Spliced(L: Layout, fs0: Fs, fs: Fs, i: nat, off: nat, d: seq<Byte>, r: nat) {
    && Inv(L, fs0) && Inv(L, fs) && i < L.ninodes && off <= fs0.inodes[i].size && r <= |d|
    && Contents(L, fs, i) == Overlay(Contents(L, fs0, i), off, d, r)
    && forall j :: 0 <= j < L.ninodes && j != i ==> Contents(L, fs, j) == Contents(L, fs0, j)
  }

  /** From fs to fs' only logged blocks change, apart from `stray`, and a block gets an owner only if logged. */
  ghost predicate Tracked(fs: Fs, fs': Fs, logged: set<nat>, stray: set<nat>) {
    && |fs.blocks| == |fs'.blocks|
    && (forall x :: 0 <= x < |fs.blocks| && x !in logged && x !in stray ==> fs'.blocks[x] == fs.blocks[x])
    && (forall b: Uint :: b in fs'.owner && b !in logged ==> b in fs.owner && fs'.owner[b] == fs.owner[b])
  }

  lemma TrackedOn(fs: Fs, fs1: Fs, fs2: Fs, l1: set<nat>, l2: set<nat>, stray: set<nat>)
    requires Tracked(fs, fs1, l1, {}) && Tracked(fs1, fs2, l2, stray) && l1 <= l2
    ensures Tracked(fs, fs2, l2, stray)
  {
  }

  function Resized(fs: Fs, i: nat, size: Uint): Fs
    requires i < |fs.inodes|
  {
    fs.(inodes := fs.inodes[i := fs.inodes[i].(size := size)])
  }

  /** Once the size covers the first r bytes, the file is its old contents with what was copied over it. */
  lemma WritingEnds(L: Layout, fs0: Fs, fs: Fs, i: nat, off: nat, src: seq<Byte>, tot: nat, r: nat)
    requires Writing(L, fs0, fs, i, off, src, tot) && r <= tot
    ensures var fs' := Resized(fs, i, if off + r > fs.inodes[i].size then off + r else fs.inodes[i].size);
            Inv(L, fs') && Spliced(L, fs0, fs', i, off, src[..tot], r)
  {
    hide Slot, Overlay, Splice;
    var size := if off + r > fs.inodes[i].size then off + r else fs.inodes[i].size;
    var fs' := Resized(fs, i, size);
    ResizedInv(L, fs, i, size);
    var c, e := Contents(L, fs', i), Overlay(Contents(L, fs0, i), off, src[..tot], r);
    OverlaySize(Contents(L, fs0, i), off, src[..tot], r);
    forall p | 0 <= p < |c| ensures c[p] == e[p] {
      assert FileByte(L, fs', i, p) == FileByte(L, fs, i, p);
      assert ByteOk(L, fs0, fs, i, off, src, tot, p);
      OverlayAt(Contents(L, fs0, i), off, src[..tot], r, p);
    }
    forall j | 0 <= j < L.ninodes && j != i ensures Contents(L, fs', j) == Contents(L, fs0, j) {
      ResizedContents(L, fs, i, size, j);
    }
  }

  lemma ResizedInv(L: Layout, fs: Fs, i: nat, size: Uint)
    requires Inv(L, fs) && i < L.ninodes && size <= MAXFILE * BSIZE
    requires forall bn :: 0 <= bn < MAXFILE && bn * BSIZE < size ==> Slot(fs, DataLoc(i, bn)) != 0
    ensures Inv(L, Resized(fs, i, size))
    ensures forall m :: IsLoc(L, m) ==> Slot(Resized(fs, i, size), m) == Slot(fs, m)
  {
    hide Word;
    var fs' := Resized(fs, i, size);
    assert forall m :: IsLoc(L, m) ==> Slot(fs', m) == Slot(fs, m);
    forall m | IsLoc(L, m) ensures SlotOk(L, fs', m) { assert SlotOk(L, fs, m); }
    forall c | c in fs'.owner ensures OwnerOk(L, fs', c) { assert OwnerOk(L, fs, c); }
    forall c | 0 <= c < L.size ensures BitOk(L, fs', c) { assert BitOk(L, fs, c); }
  }

  lemma ResizedContents(L: Layout, fs: Fs, i: nat, size: Uint, j: nat)
    requires Inv(L, fs) && i < L.ninodes && size <= MAXFILE * BSIZE && j < L.ninodes && j != i
    requires forall bn :: 0 <= bn < MAXFILE && bn * BSIZE < size ==> Slot(fs, DataLoc(i, bn)) != 0
    ensures Inv(L, Resized(fs, i, size)) && Contents(L, Resized(fs, i, size), j) == Contents(L, fs, j)
  {
    hide Slot;
    ResizedInv(L, fs, i, size);
    forall bn | 0 <= bn < MAXFILE && Slot(fs, DataLoc(j, bn)) != 0 ensures Slot(fs, DataLoc(j, bn)) < L.size {
      SlotInside(L, fs, DataLoc(j, bn));
    }
    SameContents(L, fs, Resized(fs, i, size), j);
  }

  // ---- Truncation ----

  /** The slots itrunc has freed once it has done the first n addresses and the first j indirect entries. */
  predicate Gone(l: Loc, i: nat, n: nat, j: nat) {
    l.inum == i && (l.k < n || NDIRECT < l.k < NDIRECT + 1 + j)
  }

  ghost predicate BitGone(L: Layout, fs0: Fs, blocks: seq<Block>, i: nat, n: nat, j: nat, c: Uint)
    requires Sized(L, fs0) && |blocks| == L.size && c < L.size
  {
    UsedIn(L, blocks, c) == (UsedIn(L, fs0.blocks, c) && !(c in fs0.owner && Gone(fs0.owner[c], i, n, j)))
  }

  /** Exactly the bits of the freed slots have been cleared; no other block has changed. */
  ghost predicate Truncating(L: Layout, fs0: Fs, blocks: seq<Block>, i: nat, n: nat, j: nat) {
    && Inv(L, fs0) && |blocks| == L.size && i < L.ninodes
    && (forall x :: 0 <= x < L.size && !(L.bmapstart <= x < L.datastart) ==> blocks[x] == fs0.blocks[x])
    && (forall c {:trigger BitGone(L, fs0, blocks, i, n, j, c)} :: 0 <= c < L.size ==>
          BitGone(L, fs0, blocks, i, n, j, c))
  }

  /** The next block to free is still marked in use: bfree's panic cannot happen. */
  lemma StillUsed(L: Layout, fs0: Fs, blocks: seq<Block>, i: nat, n: nat, j: nat, k: nat)
    requires Truncating(L, fs0, blocks, i, n, j) && k < SLOTS && !Gone(Loc(i, k), i, n, j)
    ensures var b := Slot(fs0, Loc(i, k)); b != 0 ==> L.datastart <= b < L.size && UsedIn(L, blocks, b)
  {
    hide Slot;
    SlotInside(L, fs0, Loc(i, k));
    var b := Slot(fs0, Loc(i, k));
    if b != 0 { assert BitGone(L, fs0, blocks, i, n, j, b) && BitOk(L, fs0, b); }
  }

  /** Freeing slot k's block, or skipping it when it is empty, moves on to (n', j'). */
  lemma TruncatingStep(L: Layout, fs0: Fs, blocks: seq<Block>, blocks': seq<Block>, i: nat, n: nat, j: nat, k: nat,
                       n': nat, j': nat)
    requires Truncating(L, fs0, blocks, i, n, j) && k < SLOTS
    requires forall l: Loc {:trigger Gone(l, i, n', j')} :: l.k < SLOTS ==>
              (Gone(l, i, n', j') <==> Gone(l, i, n, j) || l == Loc(i, k))
    requires var b := Slot(fs0, Loc(i, k));
             if b == 0 then blocks' == blocks
             else L.datastart <= b < L.size && BBlock(L, b) < L.datastart && blocks' == Mark(L, blocks, b, false)
    ensures Truncating(L, fs0, blocks', i, n', j')
  {
    hide Slot, Used, UsedIn, Mark, Gone, BitGone, Inv;
    InvSized(L, fs0);
    var b := Slot(fs0, Loc(i, k));
    if b != 0 { MarkElsewhere(L, blocks, b, false); }
    forall c: Uint | 0 <= c < L.size ensures |blocks'| == L.size && BitGone(L, fs0, blocks', i, n', j', c) {
      assert BitGone(L, fs0, blocks, i, n, j, c);
      TruncatingBit(L, fs0, blocks, blocks', i, n, j, k, n', j', c);
    }
    assert BitGone(L, fs0, blocks', i, n', j', 0);
  }

  lemma TruncatingBit(L: Layout, fs0: Fs, blocks: seq<Block>, blocks': seq<Block>, i: nat, n: nat, j: nat, k: nat,
                      n': nat, j': nat, c: Uint)
    requires Inv(L, fs0) && |blocks| == L.size && i < L.ninodes && k < SLOTS && c < L.size
    requires BitGone(L, fs0, blocks, i, n, j, c)
    requires forall l: Loc {:trigger Gone(l, i, n', j')} :: l.k < SLOTS ==>
              (Gone(l, i, n', j') <==> Gone(l, i, n, j) || l == Loc(i, k))
    requires var b := Slot(fs0, Loc(i, k));
             if b == 0 then blocks' == blocks
             else L.datastart <= b < L.size && BBlock(L, b) < L.datastart && blocks' == Mark(L, blocks, b, false)
    ensures |blocks'| == L.size && BitGone(L, fs0, blocks', i, n', j', c)
  {
    hide Slot, Used, Mark, Gone;
    var b := Slot(fs0, Loc(i, k));
    SlotInside(L, fs0, Loc(i, k));
    if b != 0 { MarkElsewhere(L, blocks, b, false); }
    BitmapInside(L, c);
    if c in fs0.owner { assert OwnerOk(L, fs0, c); }
    if b != 0 { MarkOne(L, blocks, b, false, c); }
  }

  function Emptied(fs: Fs, blocks: seq<Block>, i: nat): Fs
    requires i < |fs.inodes|
  {
    Fs(blocks, fs.inodes[i := fs.inodes[i].(size := 0, addrs := seq(NDIRECT + 1, _ => 0))],
       map b | b in fs.owner && fs.owner[b].inum != i :: fs.owner[b])
  }

  /** A finished truncation gave back every block of the file, and only those. */
  lemma TruncatedInv(L: Layout, fs0: Fs, blocks: seq<Block>, i: nat)
    requires Truncating(L, fs0, blocks, i, NDIRECT + 1, NINDIRECT)
    ensures Inv(L, Emptied(fs0, blocks, i)) && Contents(L, Emptied(fs0, blocks, i), i) == []
    ensures forall j :: 0 <= j < L.ninodes && j != i ==> Contents(L, Emptied(fs0, blocks, i), j) == Contents(L, fs0, j)
  {
    hide Word;
    var fs' := Emptied(fs0, blocks, i);
    forall m | IsLoc(L, m) ensures Slot(fs', m) == if m.inum == i then 0 else Slot(fs0, m) {
      IndirectInside(L, fs0, m.inum);
    }
    forall m | IsLoc(L, m) ensures SlotOk(L, fs', m) { assert SlotOk(L, fs0, m); }
    forall c | c in fs'.owner ensures OwnerOk(L, fs', c) { assert OwnerOk(L, fs0, c); }
    forall c: Uint | 0 <= c < L.size ensures BitOk(L, fs', c) {
      assert BitOk(L, fs0, c) && BitGone(L, fs0, blocks, i, NDIRECT + 1, NINDIRECT, c);
      if c in fs0.owner { assert OwnerOk(L, fs0, c); }
    }
    assert NoHoles(L, fs');
    forall j | 0 <= j < L.ninodes && j != i ensures Contents(L, fs', j) == Contents(L, fs0, j) {
      forall bn | 0 <= bn < MAXFILE && Slot(fs0, DataLoc(j, bn)) != 0
        ensures && Slot(fs', DataLoc(j, bn)) == Slot(fs0, DataLoc(j, bn)) < L.size
                && fs'.blocks[Slot(fs0, DataLoc(j, bn))] == fs0.blocks[Slot(fs0, DataLoc(j, bn))]
      {
        SlotInside(L, fs0, DataLoc(j, bn));
      }
      SameContents(L, fs0, fs', j);
    }
  }
}
