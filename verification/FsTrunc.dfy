/** Freeing a file's blocks: the states itrunc passes through, and what it leaves. */
module FsTrunc {
  import opened Blocks
  import opened FsSpec
  import opened FsBlocks
  import opened FsFiles

  ghost predicate FreedBefore(fs0: Fs, i: nat, m: nat, x: nat) {
    x in fs0.owner && fs0.owner[x].inum == i && fs0.owner[x].n < m
  }

  ghost predicate BitFreed(sb: Super, fs0: Fs, i: nat, m: nat, blk: seq<Block>, x: nat)
    requires InodesOk(sb, fs0) && |blk| == sb.size && x < sb.size
  {
    Bit(sb, blk, x) <==> Bit(sb, fs0.blk, x) && !FreedBefore(fs0, i, m, x)
  }

  /** Part way through itrunc: exactly the blocks in slots below `m` of file `i` have had their bit
      cleared, and nothing outside the bitmap has changed. */
  ghost predicate Freeing(sb: Super, fs0: Fs, i: nat, m: nat, blk: seq<Block>) {
    && Consistent(sb, fs0) && i < |fs0.ino| && |blk| == sb.size
    && (forall x: nat :: x < sb.size && !(sb.bmapstart <= x < sb.datastart) ==> blk[x] == fs0.blk[x])
    && forall x: nat :: x < sb.size ==> BitFreed(sb, fs0, i, m, blk, x)
  }

  lemma FreeStart(sb: Super, fs0: Fs, i: nat)
    requires Consistent(sb, fs0) && i < |fs0.ino|
    ensures Freeing(sb, fs0, i, 0, fs0.blk)
  {}

  /** The next slot's block still has its bit, so bfree does not panic, and freeing it is the next state. */
  lemma FreeStep(sb: Super, fs0: Fs, i: nat, m: nat, blk: seq<Block>)
    requires Freeing(sb, fs0, i, m, blk) && m <= MAXFILE
    ensures var a := SlotAddr(fs0.blk, fs0.ino[i], m);
            if a == 0 then Freeing(sb, fs0, i, m + 1, blk)
            else a < sb.size && Bit(sb, blk, a) && Freeing(sb, fs0, i, m + 1, PutBit(sb, blk, a, false))
  {
    hide Owned, Bit, SlotAddr;
    var a, next := SlotAddr(fs0.blk, fs0.ino[i], m), m + 1;
    OwnedSlot(sb, fs0, i, m);
    if a == 0 {
      forall x: nat | x < sb.size ensures BitFreed(sb, fs0, i, next, blk, x) {
        assert BitFreed(sb, fs0, i, m, blk, x);
        if x in fs0.owner { OwnedBlock(sb, fs0, x); }
      }
    } else {
      OwnedBit(sb, fs0, a);
      assert BitFreed(sb, fs0, i, m, blk, a);
      var blk' := PutBit(sb, blk, a, false);
      forall x: nat | x < sb.size ensures BitFreed(sb, fs0, i, next, blk', x) {
        assert BitFreed(sb, fs0, i, m, blk, x);
        PutBitTest(sb, blk, a, false, x);
        if x in fs0.owner { OwnedBlock(sb, fs0, x); }
      }
      assert sb.bmapstart <= BBlock(sb, a) < sb.datastart;
    }
  }

  /** A file without an indirect block has nothing beyond its direct blocks. */
  lemma NoIndirect(sb: Super, fs0: Fs, i: nat, blk: seq<Block>)
    requires Freeing(sb, fs0, i, NDIRECT, blk) && fs0.ino[i].addrs[NDIRECT] == 0
    ensures Freeing(sb, fs0, i, MAXFILE + 1, blk)
  {
    hide Owned, Bit;
    var end := MAXFILE + 1;
    forall x: nat | x < sb.size ensures BitFreed(sb, fs0, i, end, blk, x) {
      assert BitFreed(sb, fs0, i, NDIRECT, blk, x);
      if x in fs0.owner { OwnedBlock(sb, fs0, x); }
    }
  }

  // ---- The end of itrunc ----

  function NoBlocks(): (r: seq<Word>)
    ensures |r| == NDIRECT + 1 && forall k :: 0 <= k < |r| ==> r[k] == 0
  {
    seq(NDIRECT + 1, k => 0)
  }

  function Emptied(d: Dinode): Dinode { d.(size := 0, addrs := NoBlocks()) }

  ghost function Disowned(owner: map<nat, Slot>, i: nat): (r: map<nat, Slot>)
    ensures forall x :: x in r <==> x in owner && owner[x].inum != i
    ensures forall x :: x in r ==> r[x] == owner[x]
  {
    map x | x in owner && owner[x].inum != i :: owner[x]
  }

  /** All of file `i`'s blocks freed and its inode emptied, the disk inode not yet written. */
  ghost predicate Cleared(sb: Super, fs0: Fs, i: nat, fs1: Fs) {
    && Freeing(sb, fs0, i, MAXFILE + 1, fs1.blk)
    && fs1.ino == fs0.ino[i := Emptied(fs0.ino[i])] && fs1.owner == Disowned(fs0.owner, i)
  }

  lemma ClearedSlot(sb: Super, fs0: Fs, i: nat, fs1: Fs, j: nat, n: nat)
    requires Cleared(sb, fs0, i, fs1) && j < |fs0.ino| && n <= MAXFILE
    ensures InodesOk(sb, fs1)
    ensures SlotAddr(fs1.blk, fs1.ino[j], n) == if j == i then 0 else SlotAddr(fs0.blk, fs0.ino[j], n)
  {
    hide Owned, Bit;
    assert SameIndirect(fs0, fs1.blk) by {
      forall x: nat | x in fs0.owner ensures sb.datastart <= x < sb.size { OwnedBlock(sb, fs0, x); }
    }
    SlotFrame(sb, fs0, fs1.blk, j, n);
  }

  lemma ClearedOwned(sb: Super, fs0: Fs, i: nat, fs1: Fs)
    requires Cleared(sb, fs0, i, fs1)
    ensures Consistent(sb, fs1) && SameSlots(sb, fs0, fs1, i)
  {
    hide Owned, Bit, SlotAddr, BBlock, NoBlocks;
    ClearedSlot(sb, fs0, i, fs1, i, 0);
    forall j: nat, n: nat | j < |fs0.ino| && n <= MAXFILE
      ensures SlotAddr(fs1.blk, fs1.ino[j], n) == (if j == i then 0 else SlotAddr(fs0.blk, fs0.ino[j], n))
              && SlotOwns(sb, fs1, j, n)
    {
      ClearedSlot(sb, fs0, i, fs1, j, n);
      OwnedSlot(sb, fs0, j, n);
    }
    forall x: nat | x < sb.size
      ensures BBlock(sb, x) < |fs1.blk| && (Bit(sb, fs1.blk, x) <==> x < sb.datastart || x in fs1.owner)
    {
      assert BitFreed(sb, fs0, i, MAXFILE + 1, fs1.blk, x);
      OwnedBit(sb, fs0, x);
      if x in fs0.owner { OwnedBlock(sb, fs0, x); }
    }
    forall x: nat | x in fs1.owner
      ensures && sb.datastart <= x < sb.size && fs1.owner[x].inum < |fs1.ino| && fs1.owner[x].n <= MAXFILE
              && SlotAddr(fs1.blk, fs1.ino[fs1.owner[x].inum], fs1.owner[x].n) == x
    {
      OwnedBlock(sb, fs0, x);
    }
    OwnedParts(sb, fs1);
  }

  /** What itrunc promises: file `i` is empty and owns no block, everything else is as it was. */
  ghost predicate Truncated(sb: Super, fs0: Fs, i: nat, fs: Fs) {
    && FsOk(sb, fs0) && FsOk(sb, fs) && i < |fs0.ino| == |fs.ino|
    && fs.ino[i] == Emptied(fs0.ino[i]) && Contents(sb, fs, i) == []
    && fs.owner == Disowned(fs0.owner, i)
    && OtherFiles(sb, fs0, i, fs)
  }

  lemma ClearedMapped(sb: Super, fs0: Fs, i: nat, fs1: Fs)
    requires FsOk(sb, fs0) && Cleared(sb, fs0, i, fs1)
    requires Consistent(sb, fs1) && SameSlots(sb, fs0, fs1, i)
    ensures AllMapped(sb, fs1, -1) && OnDisk(sb, fs1, i)
  {
    hide Owned, Bit;
    MappedFrame(sb, fs0, fs1, i);
    DiskFrame(sb, fs0, fs1, i);
    hide AllMapped, OnDisk;
    assert FileMapped(sb, fs1, i, 0) by {
      forall n: nat | n < MAXFILE ensures Addr(fs1.blk, fs1.ino[i], n) == 0 { ClearedSlot(sb, fs0, i, fs1, i, n); }
    }
    MappedWith(sb, fs1, i);
  }

  lemma MappedWith(sb: Super, fs: Fs, i: nat)
    requires InodesOk(sb, fs) && AllMapped(sb, fs, i) && i < |fs.ino|
    requires fs.ino[i].size <= MAXFILE * BSIZE && FileMapped(sb, fs, i, fs.ino[i].size)
    ensures AllMapped(sb, fs, -1)
  {
    hide FileMapped;
  }

  lemma ClearedData(sb: Super, fs0: Fs, i: nat, fs1: Fs, j: nat)
    requires FsOk(sb, fs0) && Cleared(sb, fs0, i, fs1) && j < |fs0.ino| && j != i
    requires Consistent(sb, fs1) && SameSlots(sb, fs0, fs1, i)
    ensures FileSame(sb, fs0, fs1, j, fs0.ino[j].size)
  {
    var len := fs0.ino[j].size;
    FsOkCovers(sb, fs0, j);
    hide Owned, Bit, OnDisk, AllMapped;
    forall n: nat | n < MAXFILE ensures Addr(fs1.blk, fs1.ino[j], n) == Addr(fs0.blk, fs0.ino[j], n) {
      assert SlotAddr(fs1.blk, fs1.ino[j], n) == SlotAddr(fs0.blk, fs0.ino[j], n);
    }
    var r, r' := Bytes(sb, fs0, j, len), Bytes(sb, fs1, j, len);
    hide Bytes, Addr, BitFreed;
    forall k: nat | k < len ensures r'[k] == r[k] { CoveredByte(sb, fs0, j, len, k); }
  }

  /** The emptied inode stored by iupdate completes the truncation. */
  lemma TruncEnd(sb: Super, fs0: Fs, i: nat, fs1: Fs, fs2: Fs)
    requires FsOk(sb, fs0) && i < |fs0.ino| && Cleared(sb, fs0, i, fs1)
    requires InodesOk(sb, fs1) && i < |fs1.ino| && fs2 == Updated(sb, fs1, i)
    ensures Truncated(sb, fs0, i, fs2)
  {
    hide Owned, PutInode, OnDisk, AllMapped, Freeing, Contents;
    ClearedOwned(sb, fs0, i, fs1);
    ClearedMapped(sb, fs0, i, fs1);
    UpdatedOk(sb, fs1, i);
    MappedFrame(sb, fs1, fs2, -1);
    assert FsOk(sb, fs2);
    EmptyContents(sb, fs2, i);
    forall j: nat | j < |fs2.ino| && j != i ensures Contents(sb, fs2, j) == Contents(sb, fs0, j) {
      ClearedData(sb, fs0, i, fs1, j);
      SameBytes(sb, fs1, fs2, j, fs0.ino[j].size);
      ContentsAre(sb, fs0, j);
      ContentsAre(sb, fs2, j);
    }
  }

  lemma ContentsAre(sb: Super, fs: Fs, j: nat)
    requires FsOk(sb, fs) && j < |fs.ino|
    ensures Covers(sb, fs, j, fs.ino[j].size) && Contents(sb, fs, j) == Bytes(sb, fs, j, fs.ino[j].size)
  {
    FsOkCovers(sb, fs, j);
  }

  lemma EmptyContents(sb: Super, fs: Fs, i: nat)
    requires FsOk(sb, fs) && i < |fs.ino| && fs.ino[i].size == 0
    ensures Contents(sb, fs, i) == []
  {}
}
