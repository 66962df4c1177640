/** The on-disk inode of kernel/fs.h: sixteen to a block, sixteen words each. */
module Dinodes {
  import opened Basics
  import opened Blocks
  import opened FsModel

  /** The w-th 32-bit word of struct dinode. */
  function Field(ip: Inode, w: nat): Uint
    requires w < 16
  {
    if w == 0 then ip.kind + 65536 * ip.major as int
    else if w == 1 then ip.minor + 65536 * ip.nlink as int
    else if w == 2 then ip.size
    else ip.addrs[w - 3]
  }

  /** The block with the first n words of an inode stored from word `base` on. */
  function PutFields(b: Block, base: nat, ip: Inode, n: nat): Block
    requires n <= 16 && base + 16 <= WORDS
  {
    if n == 0 then b else SetWord(PutFields(b, base, ip, n - 1), base + n - 1, Field(ip, n - 1))
  }

  /** iupdate's copy into slot s of an inode block. */
  function PutInode(b: Block, s: nat, ip: Inode): Block
    requires s < IPB
  {
    PutFields(b, 16 * s, ip, 16)
  }

  function GetAddrs(b: Block, base: nat, n: nat): (r: seq<Uint>)
    requires base + n <= WORDS
    ensures |r| == n && forall k :: 0 <= k < n ==> r[k] == Word(b, base + k)
  {
    if n == 0 then [] else GetAddrs(b, base, n - 1) + [Word(b, base + n - 1)]
  }

  /** ilock's copy out of slot s of an inode block. */
  function GetInode(b: Block, s: nat): Inode
    requires s < IPB
  {
    Inode(Word(b, 16 * s) % 65536, Word(b, 16 * s) / 65536, Word(b, 16 * s + 1) % 65536, Word(b, 16 * s + 1) / 65536,
          Word(b, 16 * s + 2), GetAddrs(b, 16 * s + 3, NDIRECT + 1))
  }

  lemma {:induction false} PutFieldsWord(b: Block, base: nat, ip: Inode, n: nat, j: nat)
    requires n <= 16 && base + 16 <= WORDS && j < WORDS
    ensures Word(PutFields(b, base, ip, n), j) == if base <= j < base + n then Field(ip, j - base) else Word(b, j)
  {
    hide Word, SetWord;
    if n > 0 {
      PutFieldsWord(b, base, ip, n - 1, j);
      SetWordOne(PutFields(b, base, ip, n - 1), base + n - 1, Field(ip, n - 1), j);
    }
  }

  /** Reading back the slot just written gives that inode; the block's other inodes are untouched. */
  lemma InodeRoundTrip(b: Block, s: nat, ip: Inode, t: nat)
    requires s < IPB && t < IPB
    ensures GetInode(PutInode(b, s, ip), t) == if t == s then ip else GetInode(b, t)
  {
    hide Word, PutFields;
    var r := PutInode(b, s, ip);
    FieldRoundTrip(b, s, ip, t, 0);
    FieldRoundTrip(b, s, ip, t, 1);
    FieldRoundTrip(b, s, ip, t, 2);
    var x, y := GetAddrs(r, 16 * t + 3, NDIRECT + 1), GetAddrs(b, 16 * t + 3, NDIRECT + 1);
    forall k | 0 <= k < NDIRECT + 1 ensures x[k] == if t == s then ip.addrs[k] else y[k] {
      FieldRoundTrip(b, s, ip, t, 3 + k);
      assert 16 * t + (3 + k) == 16 * t + 3 + k;
    }
    if t == s { assert x == ip.addrs; } else { assert x == y; }
  }

  lemma FieldRoundTrip(b: Block, s: nat, ip: Inode, t: nat, w: nat)
    requires s < IPB && t < IPB && w < 16
    ensures Word(PutInode(b, s, ip), 16 * t + w) == if t == s then Field(ip, w) else Word(b, 16 * t + w)
  {
    hide Word, PutFields;
    PutFieldsWord(b, 16 * s, ip, 16, 16 * t + w);
  }

  // ---- The inode table on disk ----

  function IBlock(L: Layout, i: nat): nat {
    i / IPB + L.inodestart
  }

  ghost predicate SyncedAt(L: Layout, blocks: seq<Block>, inodes: seq<Inode>, i: nat) {
    IBlock(L, i) < |blocks| && i < |inodes| && GetInode(blocks[IBlock(L, i)], i % IPB) == inodes[i]
  }

  /** Every inode but those in `except` is on disk as it is in memory. */
  ghost predicate Synced(L: Layout, blocks: seq<Block>, inodes: seq<Inode>, except: set<nat>) {
    forall i {:trigger SyncedAt(L, blocks, inodes, i)} :: 0 <= i < L.ninodes && i !in except ==>
      SyncedAt(L, blocks, inodes, i)
  }

  lemma IBlockInside(L: Layout, i: nat)
    requires Laid(L) && i < L.ninodes
    ensures L.inodestart <= IBlock(L, i) < L.bmapstart
  {
    assert i / IPB <= L.ninodes / IPB;
  }

  /** Changes outside the inode blocks, and to the inodes in `except`, leave the rest synced. */
  lemma SyncedFrame(L: Layout, blocks: seq<Block>, inodes: seq<Inode>, blocks': seq<Block>, inodes': seq<Inode>,
                    except: set<nat>)
    requires Laid(L) && L.size == |blocks| == |blocks'| && |inodes| == |inodes'| == L.ninodes
    requires Synced(L, blocks, inodes, except)
    requires forall x :: 0 <= x < L.bmapstart ==> blocks'[x] == blocks[x]
    requires forall i :: 0 <= i < L.ninodes && i !in except ==> inodes'[i] == inodes[i]
    ensures Synced(L, blocks', inodes', except)
  {
    hide GetInode;
    forall i | 0 <= i < L.ninodes && i !in except ensures SyncedAt(L, blocks', inodes', i) {
      assert SyncedAt(L, blocks, inodes, i);
      IBlockInside(L, i);
    }
  }

  /** iupdate brings the inode it writes into step and keeps the others there. */
  lemma SyncedUpdate(L: Layout, blocks: seq<Block>, inodes: seq<Inode>, i: nat)
    requires Laid(L) && |blocks| == L.size && |inodes| == L.ninodes && i < L.ninodes && IBlock(L, i) < L.size
    requires Synced(L, blocks, inodes, {i})
    ensures Synced(L, blocks[IBlock(L, i) := PutInode(blocks[IBlock(L, i)], i % IPB, inodes[i])], inodes, {})
  {
    hide GetInode, PutInode;
    var x := IBlock(L, i);
    var blocks' := blocks[x := PutInode(blocks[x], i % IPB, inodes[i])];
    forall j | 0 <= j < L.ninodes ensures SyncedAt(L, blocks', inodes, j) {
      InodeRoundTrip(blocks[x], i % IPB, inodes[i], j % IPB);
      if j != i {
        assert SyncedAt(L, blocks, inodes, j);
        if IBlock(L, j) == x { assert j % IPB != i % IPB; }
      }
    }
  }

  /** The inodes as the disk has them. */
  function Decoded(L: Layout, blocks: seq<Block>): (r: seq<Inode>)
    requires Laid(L) && |blocks| == L.size
    ensures |r| == L.ninodes
  {
    seq(L.ninodes, i requires 0 <= i < L.ninodes =>
      IBlockInside(L, i);
      GetInode(blocks[IBlock(L, i)], i % IPB))
  }

  /** Inodes are in step with the disk exactly if they are what the disk has. */
  lemma DecodedSynced(L: Layout, blocks: seq<Block>, inodes: seq<Inode>)
    requires Laid(L) && |blocks| == L.size && |inodes| == L.ninodes
    ensures Synced(L, blocks, inodes, {}) <==> inodes == Decoded(L, blocks)
  {
    hide GetInode;
    var d := Decoded(L, blocks);
    if Synced(L, blocks, inodes, {}) {
      forall i | 0 <= i < L.ninodes ensures inodes[i] == d[i] { assert SyncedAt(L, blocks, inodes, i); }
      assert inodes == d;
    }
    if inodes == d {
      forall i | 0 <= i < L.ninodes ensures SyncedAt(L, blocks, inodes, i) { IBlockInside(L, i); }
    }
  }

  lemma ZeroInode(s: nat)
    requires s < IPB
    ensures GetInode(Zeros(), s) == Inode(0, 0, 0, 0, 0, seq(NDIRECT + 1, _ => 0))
  {
    hide Word;
    ZeroWord(16 * s);
    ZeroWord(16 * s + 1);
    ZeroWord(16 * s + 2);
    var a := GetAddrs(Zeros(), 16 * s + 3, NDIRECT + 1);
    forall k | 0 <= k < NDIRECT + 1 ensures a[k] == 0 { ZeroWord(16 * s + 3 + k); }
    assert a == seq(NDIRECT + 1, _ => 0);
  }

  /** A fresh disk, its bitmap marking the metadata and its inode blocks zeroed, is where it all starts. */
  lemma FreshInv(L: Layout, blocks: seq<Block>)
    requires Laid(L) && |blocks| == L.size
    requires forall i :: 0 <= i < L.ninodes ==> IBlock(L, i) < L.size && blocks[IBlock(L, i)] == Zeros()
    requires forall b :: 0 <= b < L.size ==> UsedIn(L, blocks, b) == (b < L.datastart)
    ensures var inodes := Decoded(L, blocks); Inv(L, Fs(blocks, inodes, map[])) && Synced(L, blocks, inodes, {})
  {
    hide Word, UsedIn, GetInode;
    var inodes := Decoded(L, blocks);
    DecodedSynced(L, blocks, inodes);
    forall i | 0 <= i < L.ninodes ensures inodes[i] == Inode(0, 0, 0, 0, 0, seq(NDIRECT + 1, _ => 0)) {
      ZeroInode(i % IPB);
    }
    NoFiles(L, Fs(blocks, inodes, map[]));
  }
}
