/** The block allocator and the inode layer of kernel/fs.c, and filewrite's chunking of kernel/file.c,
    working in place on the home blocks and the in-memory inodes. */
module FileSystem {
  import opened Basics
  import opened Blocks
  import opened FsModel
  import opened Dinodes

  class FileSys {
    const L: Layout
    var blocks: seq<Block>           // the home blocks as bread returns them
    var inodes: seq<Inode>           // the in-memory inodes, by inode number
    ghost var owner: map<Uint, Loc>  // the slot that owns each data block
    ghost var logged: set<nat>       // the blocks the current transaction has passed to log_write

    ghost function Value(): Fs
      reads this
    {
      Fs(blocks, inodes, owner)
    }

    /** Between operations: the invariant holds and every inode is on disk as in memory. */
    ghost predicate Valid()
      reads this
    {
      Inv(L, Value()) && Synced(L, blocks, inodes, {})
    }

    /** What a boot finds: the inodes as they are on disk. */
    constructor Mount(l: Layout, b: seq<Block>, ghost o: map<Uint, Loc>)
      requires Laid(l) && |b| == l.size && Inv(l, Fs(b, Decoded(l, b), o))
      ensures Valid() && L == l && blocks == b && owner == o && inodes == Decoded(l, b) && logged == {}
    {
      L, blocks, inodes, owner, logged := l, b, Decoded(l, b), o, {};
      DecodedSynced(l, b, Decoded(l, b));
    }

    method LogWrite(x: nat, data: Block)
      requires x < |blocks|
      modifies this`blocks, this`logged
      ensures blocks == old(blocks)[x := data] && logged == old(logged) + {x}
    {
      blocks := blocks[x := data];
      logged := logged + {x};
    }

    /** Marks a free block in use and zeroes it. */
    method TakeBlock(b: Uint)
      requires Sized(L, Value()) && L.datastart <= b < L.size
      modifies this`blocks, this`logged
      ensures Took(L, old(blocks), blocks, b) && logged == old(logged) + {BBlock(L, b), b}
    {
      BitmapInside(L, b);
      TookBlock(L, blocks, b);
      var bb, bi := b / BPB + L.bmapstart, b % BPB;
      LogWrite(bb, blocks[bb][bi / 8 := ByteWithBit(blocks[bb][bi / 8], bi % 8, true)]);
      LogWrite(b, Zeros());     // bzero
    }

    /** The first clear bit of the bitmap block that starts at `base`, or where its bits end. */
    method ScanBlock(base: nat) returns (bi: nat)
      requires Sized(L, Value()) && base % BPB == 0 && base < L.size
      ensures bi <= BPB && base + bi <= L.size
      ensures forall c :: base <= c < base + bi ==> UsedIn(L, blocks, c)
      ensures if bi < BPB && base + bi < L.size then !UsedIn(L, blocks, base + bi) else bi == BPB || base + bi == L.size
    {
      hide Bit, UsedIn;
      var bb := base / BPB + L.bmapstart;
      bi := 0;
      while bi < BPB && base + bi < L.size
        invariant bi <= BPB && base + bi <= L.size
        invariant forall c :: base <= c < base + bi ==> UsedIn(L, blocks, c)
      {
        BitPosition(L, blocks, base, bi);
        if !Bit(blocks[bb][bi / 8], bi % 8) { return; }
        bi := bi + 1;
      }
    }

    /** Takes the lowest free block and zeroes it; 0 means the disk is full. */
    method Balloc() returns (b: Uint)
      requires Inv(L, Value())
      modifies this`blocks, this`logged
      ensures b == 0 ==> blocks == old(blocks) && logged == old(logged) && Full(L, blocks)
      ensures b != 0 ==> Took(L, old(blocks), blocks, b) && b !in owner && logged == old(logged) + {BBlock(L, b), b}
      ensures b != 0 ==> forall c :: 0 <= c < b ==> UsedIn(L, old(blocks), c)
      ensures old(logged) <= logged && Tracked(old(Value()), Value(), logged, {})
    {
      hide UsedIn, Owned, NoHoles, Tracked, Took;
      TrackedSelf(Value(), logged);
      var base := 0;
      while base < L.size
        invariant base % BPB == 0 && blocks == old(blocks) && logged == old(logged)
        invariant forall c :: 0 <= c < base && c < L.size ==> UsedIn(L, blocks, c)
      {
        var bi := ScanBlock(base);
        if bi < BPB && base + bi < L.size {
          assert BitOk(L, Value(), base + bi);
          ghost var fs := Value();
          TakeBlock(base + bi);
          TookTracked(L, fs, Value(), base + bi, logged);
          return base + bi;
        }
        base := base + BPB;
      }
      return 0;
    }

    /** Clears block b's bit; `ok` is false where the kernel panics with "freeing free block". */
    method Bfree(b: Uint) returns (ok: bool)
      requires Sized(L, Value()) && b < L.size
      modifies this`blocks, this`logged
      ensures ok == UsedIn(L, old(blocks), b) && BBlock(L, b) < L.datastart
      ensures blocks == if ok then Mark(L, old(blocks), b, false) else old(blocks)
      ensures logged == old(logged) + (if ok then {BBlock(L, b)} else {}) <= old(logged) + Bitmap(L)
      ensures old(logged) <= logged && Tracked(old(Value()), Value(), logged, {})
    {
      BitmapInside(L, b);
      var bb, bi := b / BPB + L.bmapstart, b % BPB;
      IntervalHas(L.bmapstart, L.datastart, bb);
      if !Bit(blocks[bb][bi / 8], bi % 8) { return false; }
      LogWrite(bb, blocks[bb][bi / 8 := ByteWithBit(blocks[bb][bi / 8], bi % 8, false)]);
      return true;
    }

    /** iupdate: inode i on disk becomes what it is in memory. */
    method Iupdate(i: nat)
      requires Inv(L, Value()) && i < L.ninodes && Synced(L, blocks, inodes, {i})
      modifies this`blocks, this`logged
      ensures Valid() && logged == old(logged) + {IBlock(L, i)}
      ensures SameFiles(L, old(Value()), Value())
      ensures forall m :: IsLoc(L, m) ==> Slot(Value(), m) == old(Slot(Value(), m))
      ensures forall c :: 0 <= c < L.size ==> UsedIn(L, blocks, c) == UsedIn(L, old(blocks), c)
      ensures old(logged) <= logged && Tracked(old(Value()), Value(), logged, {})
    {
      hide PutInode;
      IBlockInside(L, i);
      SyncedUpdate(L, blocks, inodes, i);
      var x := IBlock(L, i);
      var data := PutInode(blocks[x], i % IPB, inodes[i]);
      MetaWrite(L, Value(), x, data);
      forall j | 0 <= j < L.ninodes
        ensures Contents(L, Value().(blocks := blocks[x := data]), j) == Contents(L, Value(), j)
      {
        MetaContents(L, Value(), x, data, j);
      }
      LogWrite(x, data);
    }

    /** ilock on an inode that is not in memory: what it reads is the inode last updated. `ok` is false
        exactly where the kernel panics with "no type". */
    method Ilock(i: nat) returns (ok: bool, ip: Inode)
      requires Valid() && i < L.ninodes
      ensures ip == inodes[i] && ok == (inodes[i].kind != 0)
    {
      IBlockInside(L, i);
      assert SyncedAt(L, blocks, inodes, i);
      ip := GetInode(blocks[i / IPB + L.inodestart], i % IPB);
      ok := ip.kind != 0;
    }

    /** balloc followed by entering the block into an empty slot: the step bmap takes up to twice. */
    method AllocInto(l: Loc) returns (b: Uint)
      requires Inv(L, Value()) && IsLoc(L, l) && Slot(Value(), l) == 0
      requires l.k > NDIRECT ==> inodes[l.inum].addrs[NDIRECT] != 0
      modifies this`blocks, this`inodes, this`owner, this`logged
      ensures Sized(L, Value()) && b == Slot(Value(), l) < L.size
      ensures b == 0 ==> Value() == old(Value()) && logged == old(logged) && Full(L, blocks)
      ensures l.k > NDIRECT ==> inodes == old(inodes)
      ensures forall x :: 0 <= x < L.bmapstart ==> blocks[x] == old(blocks)[x]
      ensures logged <= old(logged) + Bits(L, old(Value()), Value()) + One(b)
                        + if l.k > NDIRECT then One(inodes[l.inum].addrs[NDIRECT]) else {}
      ensures Grown(L, old(Value()), Value(), l.inum) && AllottedTo(old(Value()), Value(), l)
      ensures old(logged) <= logged && Tracked(old(Value()), Value(), logged, {})
    {
      hide Word, SetWord, BBlock, Bits, UsedIn;
      ghost var fs := Value();
      IndirectInside(L, fs, l.inum);
      b := Balloc();
      if b == 0 { GrownSelf(L, fs, l.inum); return; }
      ghost var taken := blocks;
      BitmapInside(L, b);
      LinkedGrown(L, fs, taken, l, b);
      LinkedSlot(L, fs, taken, l, b, l);
      owner := owner[b := l];
      if l.k <= NDIRECT {
        inodes := inodes[l.inum := inodes[l.inum].(addrs := inodes[l.inum].addrs[l.k := b])];
      } else {
        var ind := inodes[l.inum].addrs[NDIRECT];
        LogWrite(ind, SetWord(blocks[ind], l.k - NDIRECT - 1, b));
      }
      assert Value() == Linked(fs, taken, l, b);
      AllotOne(L, fs, Value(), l, b);
    }

    /** The address of file block bn, allocating it, and the indirect block before it, if need be;
        0 means the disk is full. A block that is there already is found without any change. */
    method Bmap(i: nat, bn: nat) returns (addr: Uint)
      requires Inv(L, Value()) && i < L.ninodes && bn < MAXFILE
      modifies this`blocks, this`inodes, this`owner, this`logged
      ensures Sized(L, Value()) && addr == Slot(Value(), DataLoc(i, bn)) < L.size
      ensures old(Slot(Value(), DataLoc(i, bn))) != 0 ==> Value() == old(Value()) && logged == old(logged)
      ensures addr == 0 ==> Full(L, blocks)
      ensures forall x :: 0 <= x < L.bmapstart ==> blocks[x] == old(blocks)[x]
      ensures logged <= old(logged) + Bits(L, old(Value()), Value()) + One(addr)
                        + if bn < NDIRECT then {} else One(inodes[i].addrs[NDIRECT])
      ensures Grown(L, old(Value()), Value(), i) && Allotted(old(Value()), Value(), i, bn, bn + 1)
      ensures old(logged) <= logged && Tracked(old(Value()), Value(), logged, {})
    {
      hide Word, Inv, Tracked, Grown, UsedIn, Bits, Allotted, AllottedTo;
      ghost var fs := Value();
      InvSized(L, fs);
      SlotFits(L, fs, DataLoc(i, bn));
      TrackedSelf(fs, logged);
      AllottedNone(fs, i, bn, bn + 1);
      if bn < NDIRECT {
        addr := inodes[i].addrs[bn];
        if addr == 0 {
          addr := AllocInto(Loc(i, bn));
          AllottedSlot(fs, Value(), Loc(i, bn), i, bn, bn + 1);
        } else {
          GrownSelf(L, fs, i);
        }
      } else {
        addr := BmapIndirect(i, bn);
      }
    }

    /** bmap beyond the direct blocks. */
    method BmapIndirect(i: nat, bn: nat) returns (addr: Uint)
      requires Inv(L, Value()) && i < L.ninodes && NDIRECT <= bn < MAXFILE
      modifies this`blocks, this`inodes, this`owner, this`logged
      ensures Sized(L, Value()) && addr == Slot(Value(), DataLoc(i, bn)) < L.size
      ensures old(Slot(Value(), DataLoc(i, bn))) != 0 ==> Value() == old(Value()) && logged == old(logged)
      ensures addr == 0 ==> Full(L, blocks)
      ensures forall x :: 0 <= x < L.bmapstart ==> blocks[x] == old(blocks)[x]
      ensures logged <= old(logged) + Bits(L, old(Value()), Value()) + One(addr) + One(inodes[i].addrs[NDIRECT])
      ensures Grown(L, old(Value()), Value(), i) && Allotted(old(Value()), Value(), i, bn, bn + 1)
      ensures old(logged) <= logged && Tracked(old(Value()), Value(), logged, {})
    {
      hide Word, Inv, Tracked, Grown, UsedIn, Bits, Allotted, AllottedTo;
      ghost var fs := Value();
      InvSized(L, fs);
      SlotFits(L, fs, DataLoc(i, bn));
      TrackedSelf(fs, logged);
      AllottedNone(fs, i, bn, bn + 1);
      SlotFits(L, fs, Loc(i, NDIRECT));
      addr := inodes[i].addrs[NDIRECT];
      if addr == 0 {
        addr := AllocInto(Loc(i, NDIRECT));
        AllottedSlot(fs, Value(), Loc(i, NDIRECT), i, bn, bn + 1);
        if addr == 0 { return; }
      } else {
        GrownSelf(L, fs, i);
      }
      ghost var fs1, lg := Value(), logged;
      GrownInv(L, fs, fs1, i);
      InvSized(L, fs1);
      addr := Word(blocks[addr], bn - NDIRECT);
      SlotFits(L, fs1, DataLoc(i, bn));
      if addr == 0 {
        addr := AllocInto(Loc(i, bn + 1));
        AllottedSlot(fs1, Value(), Loc(i, bn + 1), i, bn, bn + 1);
        GrownTwice(L, fs, fs1, Value(), i);
        TrackedOn(fs, fs1, Value(), lg, logged, {});
        AllottedOn(L, fs, fs1, Value(), i, bn, bn + 1, bn, bn + 1);
      }
    }

    /** itrunc: gives back every block of the file and nothing else; bfree never meets a free block. */
    method Itrunc(i: nat) returns (ok: bool)
      requires Valid() && i < L.ninodes
      modifies this`blocks, this`inodes, this`owner, this`logged
      ensures ok && Valid()
      ensures Contents(L, Value(), i) == []
      ensures forall j :: 0 <= j < L.ninodes && j != i ==> Contents(L, Value(), j) == old(Contents(L, Value(), j))
      ensures inodes == old(inodes)[i := old(inodes)[i].(size := 0, addrs := seq(NDIRECT + 1, _ => 0))]
      ensures owner == map b | b in old(owner) && old(owner)[b].inum != i :: old(owner)[b]
      ensures old(logged) <= logged <= old(logged) + Bitmap(L) + {IBlock(L, i)}
      ensures Tracked(old(Value()), Value(), logged, {})
    {
      hide Word, Inv, Truncating, Mark, UsedIn;
      ghost var fs0 := Value();
      InvSized(L, fs0);
      TruncatingStart(L, fs0, i);
      ok := FreeDirect(i, fs0);
      ok := FreeIndirect(i, fs0);
      TruncatedInv(L, fs0, blocks, i);
      TruncatedSynced(L, fs0, blocks, i);
      inodes := inodes[i := inodes[i].(size := 0)];
      assert Cleared(fs0.inodes[i].addrs, NDIRECT + 1) == seq(NDIRECT + 1, _ => 0);
      owner := map b | b in owner && owner[b].inum != i :: owner[b];
      assert Value() == Emptied(fs0, blocks, i) by {
        assert inodes[i] == Emptied(fs0, blocks, i).inodes[i];
        assert inodes == Emptied(fs0, blocks, i).inodes;
      }
      Iupdate(i);
    }

    /** itrunc's loop over the direct addresses. */
    method FreeDirect(i: nat, ghost fs0: Fs) returns (ok: bool)
      requires Truncating(L, fs0, blocks, i, 0, 0) && inodes == fs0.inodes && i < |inodes|
      modifies this`blocks, this`inodes, this`logged
      ensures ok && Truncating(L, fs0, blocks, i, NDIRECT, 0)
      ensures inodes == fs0.inodes[i := fs0.inodes[i].(addrs := Cleared(fs0.inodes[i].addrs, NDIRECT))]
      ensures old(logged) <= logged && Tracked(old(Value()), Value(), logged, {}) && logged <= old(logged) + Bitmap(L)
    {
      hide Word, Inv, Truncating, Mark, UsedIn, Bitmap, Interval;
      var k := 0;
      assert Cleared(inodes[i].addrs, 0) == inodes[i].addrs;
      while k < NDIRECT
        invariant 0 <= k <= NDIRECT && i < |fs0.inodes|
        invariant Truncating(L, fs0, blocks, i, k, 0)
        invariant old(logged) <= logged <= old(logged) + Bitmap(L) && Tracked(old(Value()), Value(), logged, {})
        invariant inodes == fs0.inodes[i := fs0.inodes[i].(addrs := Cleared(fs0.inodes[i].addrs, k))]
      {
        TruncatingFacts(L, fs0, blocks, i, k, 0, k);
        ghost var was := blocks;
        if inodes[i].addrs[k] != 0 {
          ok := Bfree(inodes[i].addrs[k]);
          if !ok { return; }
          inodes := inodes[i := inodes[i].(addrs := inodes[i].addrs[k := 0])];
        }
        TruncatingStep(L, fs0, was, blocks, i, k, 0, k, k + 1, 0);
        assert inodes[i].addrs == Cleared(fs0.inodes[i].addrs, k + 1);
        k := k + 1;
      }
      ok := true;
    }

    /** itrunc's treatment of the indirect block and its entries. */
    method FreeIndirect(i: nat, ghost fs0: Fs) returns (ok: bool)
      requires Truncating(L, fs0, blocks, i, NDIRECT, 0) && i < |fs0.inodes|
      requires inodes == fs0.inodes[i := fs0.inodes[i].(addrs := Cleared(fs0.inodes[i].addrs, NDIRECT))]
      modifies this`blocks, this`inodes, this`logged
      ensures ok && Truncating(L, fs0, blocks, i, NDIRECT + 1, NINDIRECT)
      ensures inodes == fs0.inodes[i := fs0.inodes[i].(addrs := Cleared(fs0.inodes[i].addrs, NDIRECT + 1))]
      ensures old(logged) <= logged && Tracked(old(Value()), Value(), logged, {}) && logged <= old(logged) + Bitmap(L)
    {
      hide Word, Inv, Truncating, Mark, UsedIn;
      assert Cleared(fs0.inodes[i].addrs, NDIRECT + 1) == inodes[i].addrs[NDIRECT := 0];
      var ind := inodes[i].addrs[NDIRECT];
      if ind == 0 {
        assert inodes[i].addrs[NDIRECT := 0] == inodes[i].addrs;
        TruncatingNone(L, fs0, blocks, i);
        return true;
      }
      TruncatingFacts(L, fs0, blocks, i, NDIRECT, 0, NDIRECT);
      var a := blocks[ind];
      var j := 0;
      while j < NINDIRECT
        invariant 0 <= j <= NINDIRECT && inodes == old(inodes)
        invariant Truncating(L, fs0, blocks, i, NDIRECT, j)
        invariant old(logged) <= logged <= old(logged) + Bitmap(L) && Tracked(old(Value()), Value(), logged, {})
      {
        TruncatingFacts(L, fs0, blocks, i, NDIRECT, j, NDIRECT + 1 + j);
        ghost var was := blocks;
        if Word(a, j) != 0 {
          ok := Bfree(Word(a, j));
          if !ok { return; }
        }
        TruncatingStep(L, fs0, was, blocks, i, NDIRECT, j, NDIRECT + 1 + j, NDIRECT, j + 1);
        j := j + 1;
      }
      TruncatingFacts(L, fs0, blocks, i, NDIRECT, NINDIRECT, NDIRECT);
      ghost var was := blocks;
      ok := Bfree(ind);
      if !ok { return; }
      TruncatingStep(L, fs0, was, blocks, i, NDIRECT, NINDIRECT, NDIRECT, NDIRECT + 1, NINDIRECT);
      inodes := inodes[i := inodes[i].(addrs := inodes[i].addrs[NDIRECT := 0])];
    }

    /** readi into a buffer with room for `cap` bytes: what it delivers is a slice of the file, and
        reading never allocates or changes anything. */
    method Readi(i: nat, off: Uint, n: Uint, cap: nat) returns (r: int, data: seq<Byte>)
      requires Inv(L, Value()) && i < L.ninodes
      modifies this`blocks, this`inodes, this`owner, this`logged
      ensures Value() == old(Value()) && logged == old(logged)
      ensures off > inodes[i].size || Sum(off, n) < off ==> r == 0 && data == []
      ensures off <= inodes[i].size && Sum(off, n) >= off ==>
                var m := if off + n > inodes[i].size then inodes[i].size - off else n;
                if m <= cap then r == m && data == Contents(L, Value(), i)[off..off + m] else r == -1
    {
      hide Inv, Contents;
      InvSized(L, Value());
      data := [];
      if off > inodes[i].size || Sum(off, n) < off { return 0, []; }
      SumFacts(off, n);
      var n' := n;
      if Sum(off, n) > inodes[i].size { n' := inodes[i].size - off; }
      r, data := ReadBlocks(i, off, n', cap);
    }

    /** readi's loop. */
    method ReadBlocks(i: nat, off: nat, n: nat, cap: nat) returns (r: int, data: seq<Byte>)
      requires Inv(L, Value()) && i < L.ninodes && off + n <= inodes[i].size
      modifies this`blocks, this`inodes, this`owner, this`logged
      ensures Value() == old(Value()) && logged == old(logged)
      ensures if n <= cap then r == n && data == Contents(L, Value(), i)[off..off + n] else r == -1
    {
      hide Inv, Contents;
      ghost var fs := Value();
      InvSized(L, fs);
      ghost var c := Contents(L, fs, i);
      data := [];
      var tot := 0;
      while tot < n
        invariant 0 <= tot <= n && tot <= cap && Value() == fs && logged == old(logged)
        invariant data == c[off..off + tot]
      {
        var chunk := ReadChunk(i, off + tot, n - tot);
        if tot + |chunk| > cap { return -1, data; }
        ghost var p := off + tot;
        SliceJoin(c, off, p, p + |chunk|);
        data := data + chunk;
        tot := tot + |chunk|;
      }
      r := tot;
    }

    /** One turn of readi's loop: the bytes up to the end of the block. */
    method ReadChunk(i: nat, p: nat, n: nat) returns (chunk: seq<Byte>)
      requires Inv(L, Value()) && i < L.ninodes && 0 < n && p + n <= inodes[i].size
      modifies this`blocks, this`inodes, this`owner, this`logged
      ensures Value() == old(Value()) && logged == old(logged)
      ensures 0 < |chunk| <= n && chunk == Contents(L, Value(), i)[p..p + |chunk|]
    {
      hide Inv, Slot, UsedIn, Contents, Grown, Tracked, Bits, Allotted;
      var o := p % BSIZE;
      InvSized(L, Value());
      SlotThere(L, Value(), i, p);
      var addr := Bmap(i, p / BSIZE);
      var m := if n < BSIZE - o then n else BSIZE - o;
      ChunkContents(L, Value(), i, p, m);
      chunk := blocks[addr][o..o + m];
    }

    /** writei of n bytes, of which the user's memory provides `src` before it faults: the file becomes its
        old contents with the bytes copied written over it at off, growing to hold the r bytes reported; no
        other file changes. It stops short only when the memory or the disk runs out. A copy that faults
        inside a block leaves the bytes that had arrived in the cached block: w counts them too. */
    method Writei(i: nat, src: seq<Byte>, off: Uint, n: Uint) returns (r: int, ghost w: nat, ghost stray: set<nat>)
      requires Valid() && i < L.ninodes
      modifies this`blocks, this`inodes, this`owner, this`logged
      ensures Valid() && old(logged) <= logged && Tracked(old(Value()), Value(), logged, stray)
      ensures DataBlocksOnly(Value(), stray)
      ensures Refused(old(inodes)[i].size, off, n) ==>
                r == -1 && w == 0 && Value() == old(Value()) && logged == old(logged)
      ensures !Refused(old(inodes)[i].size, off, n) ==>
                && 0 <= r <= n && r <= w <= |src|
                && Stopped(L, Value(), i, off, r, w, |src|, n) && ChunkStart(off, r, n)
                && Spliced(L, old(Value()), Value(), i, off, src[..w], r)
                && logged <= old(logged) + Touched(L, Value(), i, off, n) + Bits(L, old(Value()), Value())
                && Allotted(old(Value()), Value(), i, off / BSIZE, End(off, n)) && SlotsKept(L, old(Value()), Value())
      ensures w == r || r == -1 ==> stray == {}
    {
      hide Word, Inv, Synced, Slot, Touched, Writing, Contents, UsedIn, Spliced, SameFiles, Tracked, DataBlocksOnly,
           Stopped, Bits, Allotted, SlotsKept;
      ghost var fs0 := Value();
      InvSized(L, fs0);
      SumFacts(off, n);
      w, stray := 0, {};
      TrackedSelf(fs0, logged);
      NoStrays(fs0);
      if off > inodes[i].size || Sum(off, n) < off { return -1, w, stray; }
      if Sum(off, n) > MAXFILE * BSIZE { return -1, w, stray; }
      var tot;
      tot, w, stray := WriteBlocks(i, src, off, n);
      ghost var fs1, lg := Value(), logged;
      WritingFacts(L, fs0, fs1, i, off, src, w);
      WritingEnds(L, fs0, fs1, i, off, src, w, tot);
      WritingSynced(L, fs0, fs1, i, off, src, w);
      if off + tot > inodes[i].size { inodes := inodes[i := inodes[i].(size := off + tot)]; }
      ghost var fs2 := Value();
      assert fs2 == Resized(fs1, i, fs2.inodes[i].size);
      InvSized(L, fs2);
      Iupdate(i);
      InvSized(L, Value());
      SplicedKept(L, fs0, fs2, Value(), i, off, src[..w], tot);
      TouchedEnds(L, fs1, fs2, Value(), i, off, n);
      AllottedEnds(L, fs0, fs1, fs2, Value(), i, off / BSIZE, End(off, n));
      StoppedKept(L, fs1, fs2, Value(), i, off, tot, w, |src|, n);
      TrackedSizes(fs0, fs1, fs2, Value(), lg, logged, stray);
      StraysKept(fs1, Value(), stray);
      r := tot;
    }

    /** writei's loop. */
    method WriteBlocks(i: nat, src: seq<Byte>, off: Uint, n: Uint)
      returns (tot: nat, ghost w: nat, ghost stray: set<nat>)
      requires Inv(L, Value()) && i < L.ninodes && off <= inodes[i].size && off + n <= MAXFILE * BSIZE
      modifies this`blocks, this`inodes, this`owner, this`logged
      ensures Writing(L, old(Value()), Value(), i, off, src, w) && tot <= n && tot <= w <= |src|
      ensures Stopped(L, Value(), i, off, tot, w, |src|, n) && ChunkStart(off, tot, n)
      ensures forall x :: 0 <= x < L.bmapstart ==> blocks[x] == old(blocks)[x]
      ensures logged <= old(logged) + Touched(L, Value(), i, off, n) + Bits(L, old(Value()), Value())
      ensures Allotted(old(Value()), Value(), i, off / BSIZE, End(off, n)) && SlotsKept(L, old(Value()), Value())
      ensures old(logged) <= logged && Tracked(old(Value()), Value(), logged, stray) && DataBlocksOnly(Value(), stray)
      ensures w == tot ==> stray == {}
    {
      hide Inv, Slot, Writing, SlotsKept, Touched, Tracked, DataBlocksOnly, Bits, Allotted, Stopped, UsedIn, ChunkStart;
      ChunkStarts(off, n);
      ghost var lg0 := logged;
      ghost var fs0 := Value();
      WritingStarts(L, fs0, i, off, src);
      WritingFacts(L, fs0, fs0, i, off, src, 0);
      TrackedSelf(fs0, logged);
      NoStrays(fs0);
      AllottedNone(fs0, i, off / BSIZE, End(off, n));
      KeptSelf(L, fs0);
      tot, w, stray := 0, 0, {};
      while tot < n
        invariant 0 <= tot <= n && tot <= |src| && Writing(L, fs0, Value(), i, off, src, tot)
        invariant |blocks| == |fs0.blocks| == L.size && ChunkStart(off, tot, n)
        invariant forall x :: 0 <= x < L.bmapstart ==> blocks[x] == fs0.blocks[x]
        invariant i < |inodes| && logged <= lg0 + Touched(L, Value(), i, off, n) + Bits(L, fs0, Value())
        invariant Allotted(fs0, Value(), i, off / BSIZE, End(off, n)) && SlotsKept(L, fs0, Value())
        invariant w == tot && stray == {} && old(logged) <= logged && Tracked(fs0, Value(), logged, {})
        invariant DataBlocksOnly(Value(), {})
      {
        ghost var fs, lg := Value(), logged;
        var m; ghost var k;
        m, k, stray := WriteChunk(i, src, off, n, tot, fs0);
        WritingFacts(L, fs0, Value(), i, off, src, tot + k);
        TouchedGrows(L, fs, Value(), i, off, n);
        AllottedOn(L, fs0, fs, Value(), i, off / BSIZE, End(off, n), off / BSIZE, End(off, n));
        KeptOn(L, fs0, fs, Value());
        LoggedOn(L, fs0, fs, Value(), i, off, n, lg0, lg, logged);
        TrackedOn(fs0, fs, Value(), lg, logged, stray);
        NoStrays(Value());
        w, tot := tot + k, tot + m;
        if m == 0 { return; }
      }
      StoppedEnd(L, Value(), i, off, n, |src|);
    }

    /** One turn of writei's loop: k bytes are copied, and m of them count; m == 0 means it breaks out. */
    method WriteChunk(i: nat, src: seq<Byte>, off: Uint, n: Uint, tot: nat, ghost fs0: Fs)
        returns (m: nat, ghost k: nat, ghost stray: set<nat>)
      requires Writing(L, fs0, Value(), i, off, src, tot) && tot < n && off + n <= MAXFILE * BSIZE
      modifies this`blocks, this`inodes, this`owner, this`logged
      ensures Writing(L, fs0, Value(), i, off, src, tot + k) && tot + m <= n && m <= k
      ensures if m == 0 then Stopped(L, Value(), i, off, tot, tot + k, |src|, n)
              else k == m && ChunkStart(off, tot + m, n)
      ensures forall x :: 0 <= x < L.bmapstart ==> blocks[x] == old(blocks)[x]
      ensures SlotsKept(L, old(Value()), Value())
      ensures logged <= old(logged) + Touched(L, Value(), i, off, n) + Bits(L, old(Value()), Value())
      ensures Allotted(old(Value()), Value(), i, off / BSIZE, End(off, n))
      ensures old(logged) <= logged && Tracked(old(Value()), Value(), logged, stray) && DataBlocksOnly(Value(), stray)
      ensures k == m ==> stray == {}
    {
      hide Inv, Slot, Writing, Grown, SlotsKept, Touched, Tracked, DataBlocksOnly, Bits, Allotted, ChunkStart, Faults,
           UsedIn;
      ghost var fs := Value();
      WritingFacts(L, fs0, fs, i, off, src, tot);
      var bn := (off + tot) / BSIZE;
      BlockInside(off, tot, n);
      var addr := Bmap(i, bn);
      ghost var fs1, lg := Value(), logged;
      WritingGrown(L, fs0, fs, fs1, i, off, src, tot);
      WritingFacts(L, fs0, fs1, i, off, src, tot);
      TouchedHas(L, fs1, i, off, n, bn);
      AllottedWithin(fs, fs1, i, off, n, tot);
      GrownKeeps(L, fs, fs1, i);
      NoStrays(fs1);
      m, k, stray := 0, 0, {};
      if addr == 0 { return; }
      m, k, stray := CopyChunk(i, src, off, n, tot, bn, addr, fs0);
      TouchedGrows(L, fs1, Value(), i, off, n);
      AllottedSame(L, fs, fs1, Value(), i, off / BSIZE, End(off, n));
      KeptOn(L, fs, fs1, Value());
      TrackedOn(fs, fs1, Value(), lg, logged, stray);
    }

    /** The copy of one chunk into the block bmap found, logged if it succeeds. */
    method CopyChunk(i: nat, src: seq<Byte>, off: Uint, n: Uint, tot: nat, bn: nat, addr: Uint, ghost fs0: Fs)
        returns (m: nat, ghost k: nat, ghost stray: set<nat>)
      requires Sized(L, Value()) && i < L.ninodes && bn < MAXFILE && addr == Slot(Value(), DataLoc(i, bn))
      requires 0 < addr < L.size && tot < n && bn == (off + tot) / BSIZE && off + n <= MAXFILE * BSIZE
      requires Writing(L, fs0, Value(), i, off, src, tot)
      modifies this`blocks, this`logged
      ensures Sized(L, Value()) && tot + m <= n && m <= k
      ensures if m == 0 then tot + k == |src| && Faults(off, tot, |src|, n) else k == m && ChunkStart(off, tot + m, n)
      ensures forall x :: 0 <= x < L.bmapstart ==> blocks[x] == old(blocks)[x]
      ensures Writing(L, fs0, Value(), i, off, src, tot + k)
      ensures SlotsKept(L, old(Value()), Value()) && logged <= old(logged) + {addr}
      ensures old(logged) <= logged && Tracked(old(Value()), Value(), logged, stray) && DataBlocksOnly(Value(), stray)
      ensures k == m ==> stray == {}
    {
      hide Inv, Slot, Writing, SlotsKept, Patched, Tracked, DataBlocksOnly, ChunkStart, Faults, UsedIn;
      ghost var fs1 := Value();
      WritingFacts(L, fs0, fs1, i, off, src, tot);
      TrackedSelf(fs1, logged);
      NoStrays(fs1);
      KeptSelf(L, fs1);
      var o := (off + tot) % BSIZE;
      m := if n - tot < BSIZE - o then n - tot else BSIZE - o;
      ChunkEnds(off, tot, n, m, |src|);
      var c := if tot + m > |src| then |src| - tot else m;    // what either_copyin copies
      k, stray := c, {};
      if c < m { m := 0; }
      if c == 0 { return; }
      WritingStored(L, fs0, fs1, i, off, src, tot, c);
      var data := Patched(blocks[addr], o, src[tot..tot + c]);
      StoredKeeps(L, fs1, fs1, i, bn, data);
      SlotFits(L, fs1, DataLoc(i, bn));
      if m == 0 {
        blocks := blocks[addr := data];      // either_copyin fails: the block is released unlogged
        stray := {addr};
        SlotIsData(L, fs1, Value(), i, bn);
      } else {
        LogWrite(addr, data);
        NoStrays(Value());
      }
      TrackedStore(fs1, fs1, Value(), old(logged), logged, addr, data);
    }

    /** filewrite on an inode: n bytes at f->off, in transactions of at most 3 blocks' worth. `done` is
        how far it got and the advance of f->off; `hist` holds the file system before and after every
        transaction and `txs` the blocks each one logged. The chunks are invisible in the result, no
        transaction outgrows the log's allowance, and a short write has a reason. */
    method Filewrite(i: nat, src: seq<Byte>, off: Uint, n: int)
        returns (ret: int, done: nat, ghost w: nat,
                 ghost hist: seq<Fs>, ghost txs: seq<set<nat>>, ghost stray: set<nat>)
      requires Valid() && i < L.ninodes
      modifies this`blocks, this`inodes, this`owner, this`logged
      ensures Valid()
      ensures ret == if done == n then n else -1
      ensures done <= w <= |src| && (n > 0 ==> done <= n) && (n <= 0 ==> done == 0)
      ensures Wrote(L, old(Value()), Value(), i, off, src, done, w)
      ensures done < n ==> off + done < 0x1_0000_0000 && i < |inodes|
      ensures n > 0 ==>
                || (Stopped(L, Value(), i, off, done, w, |src|, n)
                    && FileStopped(L, Value(), i, off, done, w, |src|, n, Begin(|txs|)))
                || (done < n && w == done && Refused(inodes[i].size, off + done, Chunk(n - done)))
      ensures Transactions(L, hist, txs, stray) && hist[0] == old(Value()) && hist[|txs|] == Value()
      ensures |txs| == Chunks(n, done)
      ensures w == done ==> stray == {}
    {
      hide Inv, Synced, Spliced, Refused, Wrote, Transactions, Tracked, DataBlocksOnly, InStep, Chunks, UsedIn, Stopped,
           FileStopped, ChunkStart, Begin;
      FirstStep(n);
      ghost var fs0 := Value();
      WroteNothing(L, fs0, i, off, src);
      done, w, hist, txs, stray := 0, 0, [fs0], [], {};
      TransactionsNone(L, fs0);
      while done < n
        invariant Valid() && done <= |src| && (n > 0 ==> done <= n) && (n <= 0 ==> done == 0)
        invariant w == done && stray == {} && Wrote(L, fs0, Value(), i, off, src, done, done)
        invariant Transactions(L, hist, txs, {}) && |hist| == |txs| + 1 && hist[0] == fs0 && hist[|txs|] == Value()
        invariant InStep(n, done, |txs|)
        invariant done == n > 0 ==> FileStopped(L, Value(), i, off, done, done, |src|, n, Begin(|txs|))
        invariant off + done < 0x1_0000_0000
        decreases n - done
      {
        ghost var fs := Value();
        var n1 := if n - done > CHUNK then CHUNK else n - done;
        var r; ghost var v;
        r, v, stray := WriteTransaction(i, src[done..], off + done, n1);
        InvSized(L, Value());
        TransactionsMore(L, hist, txs, Value(), logged, stray);
        txs, hist := txs + [logged], hist + [Value()];
        WroteOn(L, fs0, fs, Value(), i, off, src, done, r, v);
        w := done + v;
        StepOn(n, done, |txs| - 1, n1, r);
        if 0 <= r < n1 || done + r == n { FileStoppedOn(L, Value(), i, off, done, r, v, |src|, n, |txs| - 1); }
        if r == n1 { StoppedAll(L, Value(), i, off + done, r, v, |src| - done); }
        if 0 <= r < n1 { StoppedOn(L, Value(), i, off, done, r, v, |src|, n); }
        if r > 0 { done := done + r; }
        if r != n1 { return -1, done, w, hist, txs, stray; }
      }
      LastStep(n, done, |txs|);
      if n > 0 { StoppedEnd(L, Value(), i, off, n, |src|); }
      ret := if done == n then n else -1;
    }

    /** begin_op, writei, end_op: one chunk of filewrite. */
    method WriteTransaction(i: nat, src: seq<Byte>, off: Uint, n: Uint)
      returns (r: int, ghost w: nat, ghost stray: set<nat>)
      requires Valid() && i < L.ninodes && n <= CHUNK
      modifies this`blocks, this`inodes, this`owner, this`logged
      ensures Valid() && |logged| <= MAXOPBLOCKS && -1 <= r <= n && r <= w <= |src|
      ensures Tracked(old(Value()), Value(), logged, stray) && DataBlocksOnly(Value(), stray)
      ensures r == -1 <==> Refused(old(inodes)[i].size, off, n)
      ensures r >= 0 ==> off + n <= MAXFILE * BSIZE
      ensures r == -1 ==> Value() == old(Value()) && w == 0
      ensures r >= 0 ==> Spliced(L, old(Value()), Value(), i, off, src[..w], r)
      ensures r >= 0 ==> Stopped(L, Value(), i, off, r, w, |src|, n) && ChunkStart(off, r, n)
      ensures w == r || r == -1 ==> stray == {}
    {
      hide Word, Inv, Synced, Slot, Contents, UsedIn, Spliced, Tracked, DataBlocksOnly, Stopped, Bits, Allotted,
           SlotsKept, Touched;
      ghost var fs0 := Value();
      InvSized(L, Value());
      logged := {};                       // begin_op
      SumFacts(off, n);
      r, w, stray := Writei(i, src, off, n);
      InvSized(L, Value());
      if r >= 0 { TouchedBound(L, fs0, Value(), i, off, n, logged); }
    }

    /** Every sequence of writes, partial ones included, truncations and reads keeps the invariant: no
        block owned twice, the bitmap exact, no holes, inodes in step with the disk. */
    method Run(ops: seq<FsOp>)
      requires Valid()
      modifies this`blocks, this`inodes, this`owner, this`logged
      ensures Valid()
    {
      hide Inv, Synced;
      for k := 0 to |ops|
        invariant Valid()
      {
        if ops[k].i < L.ninodes {
          match ops[k]
          case WriteOp(i, src, off, n) => var r; ghost var w, stray; r, w, stray := Writei(i, src, off, n);
          case ReadOp(i, off, n, cap) => var r, data := Readi(i, off, n, cap);
          case TruncOp(i) => var ok := Itrunc(i);
        }
      }
    }
  }

  datatype FsOp =
    | WriteOp(i: nat, src: seq<Byte>, off: Uint, n: Uint)
    | ReadOp(i: nat, off: Uint, n: Uint, cap: nat)
    | TruncOp(i: nat)

  /** Bytes per transaction of filewrite. */
  const CHUNK: nat := (MAXOPBLOCKS - 1 - 1 - 2) / 2 * BSIZE

  function Chunk(n: nat): nat { if n > CHUNK then CHUNK else n }

  /** The transactions of a write of n bytes that stops after `done`. */
  function Chunks(n: int, done: nat): nat {
    if n <= 0 then 0 else if done == n then (n + CHUNK - 1) / CHUNK else done / CHUNK + 1
  }

  /** After k transactions that all went through. */
  predicate InStep(n: int, done: nat, k: nat) {
    (n > 0 && done == k * CHUNK < n) || (n <= 0 && k == 0 == done) || (done == n > 0 && k == Chunks(n, done))
  }

  lemma FirstStep(n: int)
    ensures InStep(n, 0, 0)
  {
  }

  lemma ChunkOf(a: nat, k: nat, rest: nat)
    requires a == k * CHUNK + rest && rest < CHUNK
    ensures a / CHUNK == k
  {
    assert CHUNK == 3072;
  }

  lemma StepOn(n: int, done: nat, k: nat, n1: nat, r: int)
    requires InStep(n, done, k) && done < n && n1 == Chunk(n - done) && -1 <= r <= n1
    ensures r == n1 ==> InStep(n, done + r, k + 1)
    ensures r != n1 ==> k + 1 == Chunks(n, if r > 0 then done + r else done)
  {
    assert CHUNK == 3072 && done == k * CHUNK;
    if r == n1 {
      if done + r == n { ChunkOf(n + CHUNK - 1, k + 1, n1 - 1); }
    } else {
      ChunkOf(if r > 0 then done + r else done, k, if r > 0 then r else 0);
    }
  }

  lemma LastStep(n: int, done: nat, k: nat)
    requires InStep(n, done, k) && n <= done
    ensures k == Chunks(n, done)
  {
  }

  /** Of the n bytes, the next chunk within its block is not all there: the memory ends after `have`. */
  predicate Faults(off: nat, r: nat, have: nat, n: nat) {
    r < n && have < r + if n - r < BSIZE - (off + r) % BSIZE then n - r else BSIZE - (off + r) % BSIZE
  }

  /** The file has no block for byte p, and the disk is full. */
  ghost predicate Stuck(L: Layout, fs: Fs, i: nat, p: nat) {
    Laid(L) && |fs.blocks| == L.size && Full(L, fs.blocks) && i < |fs.inodes| && p / BSIZE < MAXFILE
    && Slot(fs, DataLoc(i, p / BSIZE)) == 0
  }

  /** Why a write of n bytes ends with r counting and w copied: it is done; or the disk ran out of blocks; or
      the memory ran out, and what there was of the last chunk was copied but does not count. */
  ghost predicate Stopped(L: Layout, fs: Fs, i: nat, off: nat, r: nat, w: nat, have: nat, n: nat) {
    if r == n then w == r else (w == r && Stuck(L, fs, i, off + r)) || (w == have && Faults(off, r, have, n))
  }

  /** Where a chunk of writei may begin: what counts ends there. */
  predicate ChunkStart(off: nat, r: nat, n: nat) { r == n || r == 0 || (off + r) % BSIZE == 0 }

  lemma ChunkStarts(off: nat, n: nat)
    ensures ChunkStart(off, 0, n) && ChunkStart(off, n, n)
  {
  }

  lemma BlockInside(off: nat, tot: nat, n: nat)
    requires tot < n && off + n <= MAXFILE * BSIZE
    ensures var bn := (off + tot) / BSIZE; off / BSIZE <= bn < MAXFILE && bn * BSIZE < off + n
  {
  }

  /** A chunk takes what is left, or reaches the end of its block; or it is not all there. */
  lemma ChunkEnds(off: nat, tot: nat, n: nat, m: nat, have: nat)
    requires tot < n && var o := (off + tot) % BSIZE; m == if n - tot < BSIZE - o then n - tot else BSIZE - o
    ensures ChunkStart(off, tot + m, n) && (have < tot + m <==> Faults(off, tot, have, n))
  {
    if m == BSIZE - (off + tot) % BSIZE { assert off + (tot + m) == ((off + tot) / BSIZE + 1) * BSIZE; }
  }

  /** Where the k-th transaction of filewrite begins. */
  function Begin(k: nat): nat { if k == 0 then 0 else (k - 1) * CHUNK }

  /** Why filewrite ends: what stopped its last transaction, which began at byte t. */
  ghost predicate FileStopped(L: Layout, fs: Fs, i: nat, off: nat, done: nat, w: nat, have: nat, n: nat, t: nat) {
    && t <= done <= w && t <= have && t <= n && (done == n || done - t < Chunk(n - t)) && done - t <= Chunk(n - t)
    && Stopped(L, fs, i, off + t, done - t, w - t, have - t, Chunk(n - t))
    && ChunkStart(off + t, done - t, Chunk(n - t))
  }

  lemma StoppedKept(L: Layout, fs: Fs, fs1: Fs, fs2: Fs, i: nat, off: nat, r: nat, w: nat, have: nat, n: nat)
    requires Stopped(L, fs, i, off, r, w, have, n) && Sized(L, fs) && Sized(L, fs1) && Sized(L, fs2) && i < L.ninodes
    requires fs1 == Resized(fs, i, fs1.inodes[i].size)
    requires forall m :: IsLoc(L, m) ==> Slot(fs2, m) == Slot(fs1, m)
    requires forall c :: 0 <= c < L.size ==> UsedIn(L, fs2.blocks, c) == UsedIn(L, fs.blocks, c)
    ensures Stopped(L, fs2, i, off, r, w, have, n)
  {
    hide UsedIn, Word;
    var p := off + r;
    if p / BSIZE < MAXFILE { assert IsLoc(L, DataLoc(i, p / BSIZE)); }
  }

  /** A chunk that stops short stops the whole write in the same way. */
  lemma StoppedOn(L: Layout, fs: Fs, i: nat, off: nat, done: nat, r: nat, w: nat, have: nat, n: nat)
    requires done < n && r < Chunk(n - done) && done <= have
    requires Stopped(L, fs, i, off + done, r, w, have - done, Chunk(n - done))
    ensures Stopped(L, fs, i, off, done + r, done + w, have, n)
  {
    hide Slot, UsedIn;
    assert off + done + r == off + (done + r);
  }

  lemma FileStoppedOn(L: Layout, fs: Fs, i: nat, off: nat, done: nat, r: nat, w: nat, have: nat, n: nat, k: nat)
    requires InStep(n, done, k) && done < n && done <= have && r <= w && r <= Chunk(n - done)
    requires r < Chunk(n - done) || done + r == n
    requires Stopped(L, fs, i, off + done, r, w, have - done, Chunk(n - done))
    requires ChunkStart(off + done, r, Chunk(n - done))
    ensures FileStopped(L, fs, i, off, done + r, done + w, have, n, Begin(k + 1))
  {
    hide Stopped, ChunkStart, Chunks;
    assert done == k * CHUNK;
  }

  lemma StoppedAll(L: Layout, fs: Fs, i: nat, off: nat, n: nat, w: nat, have: nat)
    requires Stopped(L, fs, i, off, n, w, have, n)
    ensures w == n
  {
  }

  lemma StoppedEnd(L: Layout, fs: Fs, i: nat, off: nat, n: nat, have: nat)
    ensures Stopped(L, fs, i, off, n, n, have, n)
  {
  }

  /** Blocks that hold file data. */
  ghost predicate DataBlocksOnly(fs: Fs, s: set<nat>) {
    forall x :: x in s ==> x < 0x1_0000_0000 && x in fs.owner && fs.owner[x].k != NDIRECT
  }

  lemma NoStrays(fs: Fs)
    ensures DataBlocksOnly(fs, {})
  {
  }

  lemma StraysKept(fs: Fs, fs': Fs, s: set<nat>)
    requires fs'.owner == fs.owner && DataBlocksOnly(fs, s)
    ensures DataBlocksOnly(fs', s)
  {
  }

  lemma SlotIsData(L: Layout, fs: Fs, fs': Fs, i: nat, bn: nat)
    requires Inv(L, fs) && i < L.ninodes && bn < MAXFILE && Slot(fs, DataLoc(i, bn)) != 0 && fs'.owner == fs.owner
    ensures DataBlocksOnly(fs', {Slot(fs, DataLoc(i, bn))})
  {
    hide Slot;
    SlotInside(L, fs, DataLoc(i, bn));
  }

  lemma TrackedSelf(fs: Fs, logged: set<nat>)
    ensures Tracked(fs, fs, logged, {})
  {
  }

  lemma TookTracked(L: Layout, fs: Fs, fs': Fs, b: Uint, logged: set<nat>)
    requires Took(L, fs.blocks, fs'.blocks, b) && fs'.owner == fs.owner && b in logged && BBlock(L, b) in logged
    ensures Tracked(fs, fs', logged, {})
  {
    hide UsedIn;
  }

  lemma TrackedStore(fs: Fs, fs1: Fs, fs2: Fs, l1: set<nat>, l2: set<nat>, x: nat, data: Block)
    requires Tracked(fs, fs1, l1, {}) && l1 <= l2 && x < |fs1.blocks| && fs2.blocks == fs1.blocks[x := data]
    requires fs2.owner == fs1.owner
    ensures Tracked(fs, fs2, l2, {x}) && (x in l2 ==> Tracked(fs, fs2, l2, {}))
  {
  }

  /** What writei does after its loop: a new size, and the inode block. */
  lemma TrackedSizes(fs: Fs, fs1: Fs, fs2: Fs, fs3: Fs, l1: set<nat>, l2: set<nat>, stray: set<nat>)
    requires Tracked(fs, fs1, l1, stray) && fs2.blocks == fs1.blocks && fs2.owner == fs1.owner
    requires Tracked(fs2, fs3, l2, {}) && l1 <= l2
    ensures Tracked(fs, fs3, l2, stray)
  {
  }

  /** Between operations, in memory and on disk. */
  ghost predicate Consistent(L: Layout, fs: Fs) {
    Inv(L, fs) && Synced(L, fs.blocks, fs.inodes, {})
  }

  /** The file system before and after each transaction: consistent every time, each transaction within its
      reservation and accounting for every block it changed. Only the last may leave a stray block. */
  ghost predicate Transactions(L: Layout, hist: seq<Fs>, txs: seq<set<nat>>, stray: set<nat>) {
    && |hist| == |txs| + 1 && (forall t :: 0 <= t < |hist| ==> Consistent(L, hist[t]))
    && (forall t :: 0 <= t < |txs| ==>
          |txs[t]| <= MAXOPBLOCKS && Tracked(hist[t], hist[t + 1], txs[t], if t == |txs| - 1 then stray else {}))
    && DataBlocksOnly(hist[|txs|], stray)
  }

  lemma TransactionsNone(L: Layout, fs: Fs)
    requires Consistent(L, fs)
    ensures Transactions(L, [fs], [], {})
  {
  }

  lemma TransactionsMore(L: Layout, hist: seq<Fs>, txs: seq<set<nat>>, fs: Fs, logged: set<nat>, stray: set<nat>)
    requires Transactions(L, hist, txs, {}) && Consistent(L, fs) && |logged| <= MAXOPBLOCKS
    requires |hist| == |txs| + 1 && Tracked(hist[|txs|], fs, logged, stray) && DataBlocksOnly(fs, stray)
    ensures Transactions(L, hist + [fs], txs + [logged], stray)
  {
    hide Consistent, Tracked;
  }

  /** How far a write at off has got: `done` bytes of src are in and count, w were copied; or off lies beyond
      the end of the file and nothing has happened. */
  ghost predicate Wrote(L: Layout, fs0: Fs, fs: Fs, i: nat, off: nat, src: seq<Byte>, done: nat, w: nat) {
    && i < |fs0.inodes| && done <= w <= |src|
    && if off <= fs0.inodes[i].size then Spliced(L, fs0, fs, i, off, src[..w], done) else w == 0 && fs == fs0
  }

  lemma WroteNothing(L: Layout, fs: Fs, i: nat, off: nat, src: seq<Byte>)
    requires Inv(L, fs) && i < L.ninodes
    ensures Wrote(L, fs, fs, i, off, src, 0, 0)
  {
    if off <= fs.inodes[i].size {
      assert Overlay(Contents(L, fs, i), off, src[..0], 0) == Contents(L, fs, i);
    }
  }

  lemma WroteOn(L: Layout, fs0: Fs, fs: Fs, fs': Fs, i: nat, off: nat, src: seq<Byte>, done: nat, r: int, w: nat)
    requires Wrote(L, fs0, fs, i, off, src, done, done) && -1 <= r <= w <= |src| - done
    requires if r == -1 then fs' == fs && w == 0 else Spliced(L, fs, fs', i, off + done, src[done..][..w], r)
    ensures Wrote(L, fs0, fs', i, off, src, if r > 0 then done + r else done, done + w)
  {
    if r >= 0 && off <= fs0.inodes[i].size { SplicedOn(L, fs0, fs, fs', i, off, src, done, r, w); }
  }

  /** A splice and an overlay right behind it are one overlay. */
  lemma OverlayOn(c: seq<Byte>, off: nat, a: seq<Byte>, b: seq<Byte>, r: nat)
    requires off <= |c| && r <= |b|
    ensures off + |a| <= |Overlay(c, off, a, |a|)|
    ensures Overlay(Overlay(c, off, a, |a|), off + |a|, b, r) == Overlay(c, off, a + b, |a| + r)
  {
    OverlayAll(c, off, a);
    assert Splice(Splice(c, off, a), off + |a|, b) == Splice(c, off, a + b);
  }

  lemma SplicedOn(L: Layout, fs0: Fs, fs: Fs, fs': Fs, i: nat, off: nat, src: seq<Byte>, done: nat, r: nat, w: nat)
    requires done + w <= |src| && Spliced(L, fs0, fs, i, off, src[..done], done)
    requires Spliced(L, fs, fs', i, off + done, src[done..][..w], r)
    ensures Spliced(L, fs0, fs', i, off, src[..done + w], done + r)
  {
    hide Overlay, Inv;
    OverlayOn(Contents(L, fs0, i), off, src[..done], src[done..][..w], r);
    assert src[..done] + src[done..][..w] == src[..done + w];
  }

  lemma {:induction false} DataBlocksSize(fs: Fs, i: nat, lo: nat, hi: nat)
    requires i < |fs.inodes| && lo <= hi
    ensures |DataBlocks(fs, i, lo, hi)| <= hi - lo
    decreases hi - lo
  {
    hide Slot;
    if lo < hi && lo < MAXFILE { DataBlocksSize(fs, i, lo + 1, hi); }
  }

  /** Where the file blocks of n bytes at off end. */
  function End(off: nat, n: nat): nat { (off + n + BSIZE - 1) / BSIZE }

  /** A slot's place among the file's data blocks. */
  function BlockNo(l: Loc): nat { if l.k <= NDIRECT then l.k else l.k - 1 }

  /** Nothing loses its owner; what is new belongs to the indirect block or to file blocks lo .. hi of inode i. */
  ghost predicate Allotted(fs: Fs, fs': Fs, i: nat, lo: nat, hi: nat) {
    && (forall b: Uint :: b in fs.owner ==> b in fs'.owner && fs'.owner[b] == fs.owner[b])
    && (forall b: Uint :: b in fs'.owner && b !in fs.owner ==> NewAt(fs'.owner[b], i, lo, hi))
  }

  predicate NewAt(l: Loc, i: nat, lo: nat, hi: nat) {
    l.inum == i && (l.k == NDIRECT || lo <= BlockNo(l) < hi)
  }

  /** The bitmap blocks of the blocks that are new in fs'. */
  ghost function Bits(L: Layout, fs: Fs, fs': Fs): set<nat> {
    set b: Uint | b in fs'.owner && b !in fs.owner :: BBlock(L, b)
  }

  lemma AllottedNone(fs: Fs, i: nat, lo: nat, hi: nat)
    ensures Allotted(fs, fs, i, lo, hi)
  {
  }

  ghost predicate AllottedTo(fs: Fs, fs': Fs, l: Loc) {
    && (forall b: Uint :: b in fs.owner ==> b in fs'.owner && fs'.owner[b] == fs.owner[b])
    && (forall b: Uint :: b in fs'.owner && b !in fs.owner ==> fs'.owner[b] == l)
  }

  lemma AllotOne(L: Layout, fs: Fs, fs': Fs, l: Loc, b: Uint)
    requires b !in fs.owner && fs'.owner == fs.owner[b := l]
    ensures AllottedTo(fs, fs', l) && BBlock(L, b) in Bits(L, fs, fs')
  {
  }

  lemma AllottedSlot(fs: Fs, fs': Fs, l: Loc, i: nat, lo: nat, hi: nat)
    requires AllottedTo(fs, fs', l) && NewAt(l, i, lo, hi)
    ensures Allotted(fs, fs', i, lo, hi)
  {
  }

  lemma AllottedOn(L: Layout, fs: Fs, fs1: Fs, fs2: Fs, i: nat, lo: nat, hi: nat, lo': nat, hi': nat)
    requires Allotted(fs, fs1, i, lo, hi) && Allotted(fs1, fs2, i, lo', hi') && lo <= lo' && hi' <= hi
    ensures Allotted(fs, fs2, i, lo, hi)
    ensures Bits(L, fs, fs1) + Bits(L, fs1, fs2) <= Bits(L, fs, fs2)
  {
  }

  lemma LoggedOn(L: Layout, fs: Fs, fs1: Fs, fs2: Fs, i: nat, off: nat, n: nat,
                 l0: set<nat>, l1: set<nat>, l2: set<nat>)
    requires i < |fs1.inodes| && i < |fs2.inodes|
    requires Touched(L, fs1, i, off, n) <= Touched(L, fs2, i, off, n)
    requires Bits(L, fs, fs1) + Bits(L, fs1, fs2) <= Bits(L, fs, fs2)
    requires l1 <= l0 + Touched(L, fs1, i, off, n) + Bits(L, fs, fs1)
    requires l2 <= l1 + Touched(L, fs2, i, off, n) + Bits(L, fs1, fs2)
    ensures l2 <= l0 + Touched(L, fs2, i, off, n) + Bits(L, fs, fs2)
  {
    hide Touched, Bits;
  }

  lemma AllottedWithin(fs: Fs, fs': Fs, i: nat, off: nat, n: nat, tot: nat)
    requires tot < n && var bn := (off + tot) / BSIZE; Allotted(fs, fs', i, bn, bn + 1)
    ensures Allotted(fs, fs', i, off / BSIZE, End(off, n))
  {
    assert off / BSIZE <= (off + tot) / BSIZE < End(off, n);
  }

  lemma AllottedSame(L: Layout, fs: Fs, fs1: Fs, fs2: Fs, i: nat, lo: nat, hi: nat)
    requires Allotted(fs, fs1, i, lo, hi) && fs2.owner == fs1.owner
    ensures Allotted(fs, fs2, i, lo, hi) && Bits(L, fs, fs2) == Bits(L, fs, fs1)
  {
  }

  lemma KeptSelf(L: Layout, fs: Fs)
    requires Sized(L, fs)
    ensures SlotsKept(L, fs, fs)
  {
  }

  lemma KeptOn(L: Layout, fs: Fs, fs1: Fs, fs2: Fs)
    requires SlotsKept(L, fs, fs1) && SlotsKept(L, fs1, fs2)
    ensures SlotsKept(L, fs, fs2)
  {
    hide Slot;
  }

  /** What writei does after its loop changes no slot and no owner. */
  lemma AllottedEnds(L: Layout, fs: Fs, fs1: Fs, fs2: Fs, fs3: Fs, i: nat, lo: nat, hi: nat)
    requires Allotted(fs, fs1, i, lo, hi) && SlotsKept(L, fs, fs1) && Sized(L, fs2) && Sized(L, fs3) && i < L.ninodes
    requires fs2 == Resized(fs1, i, fs2.inodes[i].size) && fs3.owner == fs2.owner
    requires forall m :: IsLoc(L, m) ==> Slot(fs3, m) == Slot(fs2, m)
    ensures Allotted(fs, fs3, i, lo, hi) && Bits(L, fs, fs3) == Bits(L, fs, fs1) && SlotsKept(L, fs, fs3)
  {
    hide Word;
    forall m | IsLoc(L, m) ensures Slot(fs2, m) == Slot(fs1, m) {}
  }

  /** The blocks new in fs: the indirect block and those of file blocks lo .. hi that were not there before. */
  lemma NewBlocks(L: Layout, fs0: Fs, fs: Fs, i: nat, lo: nat, hi: nat, lo': nat)
    requires Inv(L, fs0) && Inv(L, fs) && SlotsKept(L, fs0, fs) && Allotted(fs0, fs, i, lo, hi) && i < L.ninodes
    requires lo <= lo' && hi <= MAXFILE
    requires forall bn :: lo <= bn < lo' && bn < MAXFILE ==> Slot(fs0, DataLoc(i, bn)) != 0
    ensures (set b: Uint | b in fs.owner && b !in fs0.owner) <=
              One(fs.inodes[i].addrs[NDIRECT]) + DataBlocks(fs, i, lo', hi)
  {
    hide Word, UsedIn, DataBlocks;
    forall b: Uint | b in fs.owner && b !in fs0.owner
      ensures b in One(fs.inodes[i].addrs[NDIRECT]) + DataBlocks(fs, i, lo', hi)
    {
      assert OwnerOk(L, fs, b);
      var l := fs.owner[b];
      if l.k != NDIRECT {
        var bn := BlockNo(l);
        assert l == DataLoc(i, bn);
        if bn < lo' { SlotInside(L, fs0, l); }
        DataBlocksHas(fs, i, lo', hi, bn);
      }
    }
  }

  lemma {:induction false} BitsSize(L: Layout, s: set<Uint>)
    ensures |set b | b in s :: BBlock(L, b)| <= |s|
  {
    if s != {} {
      var x :| x in s;
      BitsSize(L, s - {x});
      assert (set b | b in s :: BBlock(L, b)) == (set b | b in s - {x} :: BBlock(L, b)) + {BBlock(L, x)};
    }
  }

  /** A write of at most three blocks' worth logs at most four data blocks, the indirect block, the inode block
      and the bitmap blocks of at most four new ones, however large the bitmap is. */
  lemma TouchedBound(L: Layout, fs0: Fs, fs: Fs, i: nat, off: nat, n: nat, logged: set<nat>)
    requires Inv(L, fs0) && Inv(L, fs) && i < L.ninodes && n <= CHUNK && off + n <= MAXFILE * BSIZE
    requires off <= fs0.inodes[i].size
    requires SlotsKept(L, fs0, fs) && Allotted(fs0, fs, i, off / BSIZE, End(off, n))
    requires logged <= Touched(L, fs, i, off, n) + Bits(L, fs0, fs)
    ensures |logged| <= MAXOPBLOCKS
  {
    hide Slot, UsedIn, Owned, DataBlocks, Allotted, SlotsKept;
    var lo, hi := off / BSIZE, End(off, n);
    var lo' := if off % BSIZE == 0 then lo else lo + 1;
    FewBlocks(off, n);
    assert lo' == lo + 1 ==> lo * BSIZE < off;
    NewBlocks(L, fs0, fs, i, lo, hi, lo');
    DataBlocksSize(fs, i, lo, hi);
    var added := set b: Uint | b in fs.owner && b !in fs0.owner;
    DataBlocksSize(fs, i, lo', hi);
    var few := One(fs.inodes[i].addrs[NDIRECT]) + DataBlocks(fs, i, lo', hi);
    SubsetSize(added, few);
    BitsSize(L, added);
    assert Bits(L, fs0, fs) == set b | b in added :: BBlock(L, b);
    SubsetSize(logged, Touched(L, fs, i, off, n) + Bits(L, fs0, fs));
  }

  lemma FewBlocks(off: nat, n: nat)
    requires n <= CHUNK && off + n <= MAXFILE * BSIZE
    ensures off / BSIZE <= End(off, n) <= off / BSIZE + 4 && End(off, n) <= MAXFILE
    ensures if off % BSIZE == 0 then End(off, n) <= off / BSIZE + 3 else off / BSIZE + 1 <= End(off, n)
  {
  }

  lemma {:induction false} SubsetSize(a: set<nat>, b: set<nat>)
    requires a <= b
    ensures |a| <= |b|
  {
    assert b == a + (b - a);
  }

  lemma WritingFacts(L: Layout, fs0: Fs, fs: Fs, i: nat, off: nat, src: seq<Byte>, tot: nat)
    requires Writing(L, fs0, fs, i, off, src, tot)
    ensures Inv(L, fs0) && Inv(L, fs) && Sized(L, fs) && i < L.ninodes && tot <= |src|
  {
  }

  lemma GrownInv(L: Layout, fs: Fs, fs': Fs, i: nat)
    requires Grown(L, fs, fs', i)
    ensures Inv(L, fs')
  {
  }

  lemma GrownKeeps(L: Layout, fs: Fs, fs': Fs, i: nat)
    requires Grown(L, fs, fs', i)
    ensures SlotsKept(L, fs, fs')
  {
  }

  lemma StoredKeeps(L: Layout, fs: Fs, fs1: Fs, i: nat, bn: nat, data: Block)
    requires SlotsKept(L, fs, fs1) && Inv(L, fs1) && i < L.ninodes && bn < MAXFILE
    requires L.size > Slot(fs1, DataLoc(i, bn)) != 0
    ensures SlotsKept(L, fs, Stored(fs1, i, bn, data)) && SlotsKept(L, fs1, Stored(fs1, i, bn, data))
  {
    hide Slot;
    StoredInv(L, fs1, i, bn, data);
  }

  /** off + n in 32 bits. */
  function Sum(off: Uint, n: Uint): Uint {
    (off + n) % 0x1_0000_0000
  }

  lemma SumFacts(off: Uint, n: Uint)
    ensures Sum(off, n) >= off <==> off + n < 0x1_0000_0000
    ensures off + n < 0x1_0000_0000 ==> Sum(off, n) == off + n
  {
  }

  /** The writes writei turns down. */
  predicate Refused(size: Uint, off: Uint, n: Uint) {
    off > size || Sum(off, n) < off || Sum(off, n) > MAXFILE * BSIZE
  }

  lemma SlotThere(L: Layout, fs: Fs, i: nat, p: nat)
    requires Inv(L, fs) && i < L.ninodes && p < fs.inodes[i].size
    ensures p / BSIZE < MAXFILE && Slot(fs, DataLoc(i, p / BSIZE)) != 0
  {
    hide Slot, UsedIn;
    assert p / BSIZE * BSIZE < fs.inodes[i].size;
  }

  /** Within one block, a file's bytes are the block's. */
  lemma ChunkContents(L: Layout, fs: Fs, i: nat, p: nat, m: nat)
    requires Inv(L, fs) && i < L.ninodes && p % BSIZE + m <= BSIZE && p + m <= fs.inodes[i].size && p < MAXFILE * BSIZE
    ensures Slot(fs, DataLoc(i, p / BSIZE)) < L.size
    ensures fs.blocks[Slot(fs, DataLoc(i, p / BSIZE))][p % BSIZE..p % BSIZE + m] == Contents(L, fs, i)[p..p + m]
  {
    hide Slot;
    SlotInside(L, fs, DataLoc(i, p / BSIZE));
    var x, c := fs.blocks[Slot(fs, DataLoc(i, p / BSIZE))], Contents(L, fs, i);
    var y, d := x[p % BSIZE..p % BSIZE + m], c[p..p + m];
    forall q | 0 <= q < m ensures y[q] == d[q] {
      ChunkPosition(p, m, p + q);
    }
  }

  /** The blocks a write of n bytes at off may log besides bitmap blocks: inode, indirect and data blocks. */
  ghost function Touched(L: Layout, fs: Fs, i: nat, off: nat, n: nat): set<nat>
    requires i < |fs.inodes|
  {
    {IBlock(L, i)} + One(fs.inodes[i].addrs[NDIRECT]) + DataBlocks(fs, i, off / BSIZE, End(off, n))
  }

  /** The data blocks of file blocks lo .. hi. */
  ghost function DataBlocks(fs: Fs, i: nat, lo: nat, hi: nat): set<nat>
    requires i < |fs.inodes|
    decreases hi - lo
  {
    if lo >= hi || lo >= MAXFILE then {} else One(Slot(fs, DataLoc(i, lo))) + DataBlocks(fs, i, lo + 1, hi)
  }

  ghost predicate SameFiles(L: Layout, fs: Fs, fs': Fs) {
    && Inv(L, fs) && Inv(L, fs')
    && forall j :: 0 <= j < L.ninodes ==> Contents(L, fs', j) == Contents(L, fs, j)
  }

  lemma SplicedKept(L: Layout, fs0: Fs, fs: Fs, fs': Fs, i: nat, off: nat, d: seq<Byte>, r: nat)
    requires Spliced(L, fs0, fs, i, off, d, r) && SameFiles(L, fs, fs')
    ensures Spliced(L, fs0, fs', i, off, d, r)
  {
  }

  lemma SliceJoin<T>(c: seq<T>, a: nat, b: nat, d: nat)
    requires a <= b <= d <= |c|
    ensures c[a..b] + c[b..d] == c[a..d]
  {
  }

  /** No filled slot is emptied or refilled. */
  ghost predicate SlotsKept(L: Layout, fs: Fs, fs': Fs) {
    && Sized(L, fs) && Sized(L, fs')
    && forall m :: IsLoc(L, m) && Slot(fs, m) != 0 ==> Slot(fs', m) == Slot(fs, m)
  }

  lemma {:induction false} DataBlocksGrow(L: Layout, fs: Fs, fs': Fs, i: nat, lo: nat, hi: nat)
    requires SlotsKept(L, fs, fs') && i < L.ninodes
    ensures DataBlocks(fs, i, lo, hi) <= DataBlocks(fs', i, lo, hi)
    decreases hi - lo
  {
    hide Slot;
    if lo < hi && lo < MAXFILE {
      DataBlocksGrow(L, fs, fs', i, lo + 1, hi);
      assert IsLoc(L, DataLoc(i, lo));
    }
  }

  lemma TouchedGrows(L: Layout, fs: Fs, fs': Fs, i: nat, off: nat, n: nat)
    requires SlotsKept(L, fs, fs') && i < L.ninodes
    ensures Touched(L, fs, i, off, n) <= Touched(L, fs', i, off, n)
  {
    DataBlocksGrow(L, fs, fs', i, off / BSIZE, End(off, n));
    assert Slot(fs, Loc(i, NDIRECT)) == fs.inodes[i].addrs[NDIRECT];
    assert Slot(fs', Loc(i, NDIRECT)) == fs'.inodes[i].addrs[NDIRECT];
  }

  lemma {:induction false} DataBlocksHas(fs: Fs, i: nat, lo: nat, hi: nat, bn: nat)
    requires i < |fs.inodes| && lo <= bn < hi && bn < MAXFILE
    ensures One(Slot(fs, DataLoc(i, bn))) <= DataBlocks(fs, i, lo, hi)
    decreases hi - lo
  {
    hide Slot;
    if lo < bn { DataBlocksHas(fs, i, lo + 1, hi, bn); }
  }

  lemma TouchedHas(L: Layout, fs: Fs, i: nat, off: nat, n: nat, bn: nat)
    requires i < |fs.inodes| && off / BSIZE <= bn < MAXFILE && bn * BSIZE < off + n
    ensures One(Slot(fs, DataLoc(i, bn))) + One(fs.inodes[i].addrs[NDIRECT]) <= Touched(L, fs, i, off, n)
  {
    DataBlocksHas(fs, i, off / BSIZE, End(off, n), bn);
  }

  /** What writei does after its loop adds only the inode block. */
  lemma TouchedEnds(L: Layout, fs1: Fs, fs2: Fs, fs3: Fs, i: nat, off: nat, n: nat)
    requires Sized(L, fs1) && Sized(L, fs2) && Sized(L, fs3) && i < L.ninodes
    requires fs2 == Resized(fs1, i, fs2.inodes[i].size)
    requires forall m :: IsLoc(L, m) ==> Slot(fs3, m) == Slot(fs2, m)
    ensures Touched(L, fs1, i, off, n) + {IBlock(L, i)} <= Touched(L, fs3, i, off, n)
  {
    hide Word;
    forall m | IsLoc(L, m) ensures Slot(fs2, m) == Slot(fs1, m) {}
    TouchedGrows(L, fs1, fs3, i, off, n);
  }

  lemma WritingSynced(L: Layout, fs0: Fs, fs: Fs, i: nat, off: nat, src: seq<Byte>, tot: nat)
    requires Writing(L, fs0, fs, i, off, src, tot) && Synced(L, fs0.blocks, fs0.inodes, {})
    requires forall x :: 0 <= x < L.bmapstart ==> fs.blocks[x] == fs0.blocks[x]
    ensures forall size: Uint :: Synced(L, fs.blocks, Resized(fs, i, size).inodes, {i})
  {
    hide Slot, Owned, NoHoles, GetInode;
    forall size: Uint ensures Synced(L, fs.blocks, Resized(fs, i, size).inodes, {i}) {
      SyncedFrame(L, fs0.blocks, fs0.inodes, fs.blocks, Resized(fs, i, size).inodes, {i});
    }
  }

  /** The addresses with the first k set to 0. */
  function Cleared(a: Addrs, k: nat): Addrs {
    seq(NDIRECT + 1, j requires 0 <= j < NDIRECT + 1 => if j < k then 0 else a[j])
  }

  lemma TruncatingStart(L: Layout, fs0: Fs, i: nat)
    requires Inv(L, fs0) && i < L.ninodes
    ensures Truncating(L, fs0, fs0.blocks, i, 0, 0)
  {
    hide Slot;
    forall c: Uint | 0 <= c < L.size ensures BitGone(L, fs0, fs0.blocks, i, 0, 0, c) {}
  }

  /** What a step of itrunc may rely on for slot k. */
  lemma TruncatingFacts(L: Layout, fs0: Fs, blocks: seq<Block>, i: nat, n: nat, j: nat, k: nat)
    requires Truncating(L, fs0, blocks, i, n, j) && k < SLOTS && !Gone(Loc(i, k), i, n, j)
    ensures Sized(L, fs0) && |blocks| == L.size && i < L.ninodes && Slot(fs0, Loc(i, k)) < L.size
    ensures Slot(fs0, Loc(i, k)) != 0 ==> L.datastart <= Slot(fs0, Loc(i, k)) && UsedIn(L, blocks, Slot(fs0, Loc(i, k)))
    ensures k == NDIRECT && Slot(fs0, Loc(i, k)) != 0 ==>
              blocks[Slot(fs0, Loc(i, k))] == fs0.blocks[Slot(fs0, Loc(i, k))]
  {
    hide Word;
    StillUsed(L, fs0, blocks, i, n, j, k);
    SlotInside(L, fs0, Loc(i, k));
  }

  lemma TruncatingNone(L: Layout, fs0: Fs, blocks: seq<Block>, i: nat)
    requires Truncating(L, fs0, blocks, i, NDIRECT, 0) && fs0.inodes[i].addrs[NDIRECT] == 0
    ensures Truncating(L, fs0, blocks, i, NDIRECT + 1, NINDIRECT)
  {
    hide Word;
    var n := NDIRECT + 1;
    forall c: Uint | 0 <= c < L.size ensures BitGone(L, fs0, blocks, i, n, NINDIRECT, c) {
      assert BitGone(L, fs0, blocks, i, NDIRECT, 0, c);
      if c in fs0.owner { assert OwnerOk(L, fs0, c); }
    }
  }

  lemma TruncatedSynced(L: Layout, fs0: Fs, blocks: seq<Block>, i: nat)
    requires Truncating(L, fs0, blocks, i, NDIRECT + 1, NINDIRECT) && Synced(L, fs0.blocks, fs0.inodes, {})
    ensures Synced(L, blocks, Emptied(fs0, blocks, i).inodes, {i})
  {
    hide Word, Owned, NoHoles;
    SyncedFrame(L, fs0.blocks, fs0.inodes, blocks, Emptied(fs0, blocks, i).inodes, {i});
  }

  function One(b: nat): set<nat> {
    if b == 0 then {} else {b}
  }

  /** The bitmap's blocks. */
  function Bitmap(L: Layout): set<nat> {
    Interval(L.bmapstart, L.datastart)
  }

  lemma SlotFits(L: Layout, fs: Fs, l: Loc)
    requires Inv(L, fs) && IsLoc(L, l)
    ensures Slot(fs, l) < L.size && (Slot(fs, l) != 0 ==> L.bmapstart < L.datastart <= Slot(fs, l))
  {
    SlotInside(L, fs, l);
  }

  lemma GrownSelf(L: Layout, fs: Fs, i: nat)
    requires Inv(L, fs) && i < L.ninodes
    ensures Grown(L, fs, fs, i)
  {
    forall m | IsLoc(L, m) && Slot(fs, m) != 0 ensures SameBlock(fs, fs, Slot(fs, m)) { SlotInside(L, fs, m); }
  }

  /** Writing an inode block changes no slot, no bit and no file. */
  lemma MetaWrite(L: Layout, fs: Fs, x: nat, data: Block)
    requires Inv(L, fs) && x < L.bmapstart
    ensures var fs' := fs.(blocks := fs.blocks[x := data]);
            && Inv(L, fs')
            && (forall m :: IsLoc(L, m) ==> Slot(fs', m) == Slot(fs, m))
            && (forall c :: 0 <= c < L.size ==> UsedIn(L, fs'.blocks, c) == UsedIn(L, fs.blocks, c))
  {
    hide Inv, UsedIn, Slot;
    InvSized(L, fs);
    var fs' := fs.(blocks := fs.blocks[x := data]);
    forall m | IsLoc(L, m) ensures Slot(fs', m) == Slot(fs, m) { MetaSlot(L, fs, x, data, m); }
    forall c | 0 <= c < L.size ensures UsedIn(L, fs'.blocks, c) == UsedIn(L, fs.blocks, c) {
      MetaBit(L, fs.blocks, x, data, c);
    }
    SameSlotsInv(L, fs, fs');
  }

  lemma MetaSlot(L: Layout, fs: Fs, x: nat, data: Block, m: Loc)
    requires Inv(L, fs) && x < L.bmapstart && IsLoc(L, m)
    ensures x < |fs.blocks| && Slot(fs.(blocks := fs.blocks[x := data]), m) == Slot(fs, m)
  {
    hide Word, UsedIn;
    IndirectInside(L, fs, m.inum);
  }

  /** The invariant depends on slots, bits and sizes only. */
  lemma SameSlotsInv(L: Layout, fs: Fs, fs': Fs)
    requires Inv(L, fs) && Sized(L, fs') && fs'.inodes == fs.inodes && fs'.owner == fs.owner
    requires forall m :: IsLoc(L, m) ==> Slot(fs', m) == Slot(fs, m)
    requires forall c :: 0 <= c < L.size ==> UsedIn(L, fs'.blocks, c) == UsedIn(L, fs.blocks, c)
    ensures Inv(L, fs')
  {
    hide Slot, UsedIn;
    forall m | IsLoc(L, m) ensures SlotOk(L, fs', m) { assert SlotOk(L, fs, m); }
    forall c | c in fs'.owner ensures OwnerOk(L, fs', c) { assert OwnerOk(L, fs, c); }
    forall c | 0 <= c < L.size ensures BitOk(L, fs', c) { assert BitOk(L, fs, c); }
    assert NoHoles(L, fs');
  }

  lemma MetaBit(L: Layout, blocks: seq<Block>, x: nat, data: Block, c: nat)
    requires Laid(L) && |blocks| == L.size && x < L.bmapstart && c < L.size
    ensures UsedIn(L, blocks[x := data], c) == UsedIn(L, blocks, c)
  {
    BitmapInside(L, c);
  }

  lemma MetaContents(L: Layout, fs: Fs, x: nat, data: Block, j: nat)
    requires Inv(L, fs) && x < L.bmapstart && j < L.ninodes
    ensures var fs' := fs.(blocks := fs.blocks[x := data]);
            Inv(L, fs') && Contents(L, fs', j) == Contents(L, fs, j)
  {
    hide Slot, Inv, UsedIn, Contents;
    InvSized(L, fs);
    var fs' := fs.(blocks := fs.blocks[x := data]);
    MetaWrite(L, fs, x, data);
    forall bn | 0 <= bn < MAXFILE && Slot(fs, DataLoc(j, bn)) != 0
      ensures Slot(fs, DataLoc(j, bn)) < L.size
      ensures fs'.blocks[Slot(fs, DataLoc(j, bn))] == fs.blocks[Slot(fs, DataLoc(j, bn))]
    {
      SlotFits(L, fs, DataLoc(j, bn));
    }
    SameContents(L, fs, fs', j);
  }

  /** No block is free. */
  ghost predicate Full(L: Layout, blocks: seq<Block>)
    requires Laid(L) && |blocks| == L.size
  {
    forall c :: 0 <= c < L.size ==> UsedIn(L, blocks, c)
  }

  /** Where balloc's inner loop looks for the bit of block base + bi. */
  lemma BitPosition(L: Layout, blocks: seq<Block>, base: nat, bi: nat)
    requires Laid(L) && |blocks| == L.size && base % BPB == 0 && bi < BPB && base + bi < L.size
    ensures base / BPB + L.bmapstart < L.datastart
    ensures UsedIn(L, blocks, base + bi) == Bit(blocks[base / BPB + L.bmapstart][bi / 8], bi % 8)
  {
    hide Bit;
    BitmapInside(L, base + bi);
    WithinBitmap(base, bi);
  }

  lemma WithinBitmap(base: nat, bi: nat)
    requires base % BPB == 0 && bi < BPB
    ensures (base + bi) / BPB == base / BPB && (base + bi) % BPB == bi
  {
  }

  /** Setting the bit and zeroing the block is what Took describes. */
  lemma TookBlock(L: Layout, blocks: seq<Block>, b: Uint)
    requires Laid(L) && |blocks| == L.size && L.datastart <= b < L.size && BBlock(L, b) < L.datastart
    ensures Took(L, blocks, Mark(L, blocks, b, true)[b := Zeros()], b)
  {
    hide Used, Mark;
    var marked := Mark(L, blocks, b, true);
    MarkElsewhere(L, blocks, b, true);
    UsedFrame(L, marked, marked[b := Zeros()], b, Zeros());
    forall c | 0 <= c < L.size ensures UsedIn(L, marked, c) == (c == b || UsedIn(L, blocks, c)) {
      BitmapInside(L, c);
      MarkOne(L, blocks, b, true, c);
    }
  }
}
