/** How allocating, assigning and writing one block moves the file system: block ownership, the
    mapping of every other file, and the on-disk inodes are kept. */
module FsBlocks {
  import opened Blocks
  import opened FsSpec

  lemma OwnedSlot(sb: Super, fs: Fs, i: nat, n: nat)
    requires InodesOk(sb, fs) && Owned(sb, fs) && i < |fs.ino| && n <= MAXFILE
    ensures var x := SlotAddr(fs.blk, fs.ino[i], n);
            x != 0 ==> x in fs.owner && fs.owner[x] == Slot(i, n) && sb.datastart <= x < sb.size
  {
    hide SlotAddr;
    assert SlotOwns(sb, fs, i, n);
  }

  lemma OwnedBlock(sb: Super, fs: Fs, a: nat)
    requires InodesOk(sb, fs) && Owned(sb, fs) && a in fs.owner
    ensures sb.datastart <= a < sb.size && fs.owner[a].inum < |fs.ino| && fs.owner[a].n <= MAXFILE
    ensures SlotAddr(fs.blk, fs.ino[fs.owner[a].inum], fs.owner[a].n) == a
  {}

  lemma OwnedBit(sb: Super, fs: Fs, a: nat)
    requires InodesOk(sb, fs) && Owned(sb, fs) && a < sb.size
    ensures BBlock(sb, a) < |fs.blk| && (Bit(sb, fs.blk, a) <==> a < sb.datastart || a in fs.owner)
  {}

  /** `blk` agrees with the file system on every indirect block. */
  ghost predicate SameIndirect(fs: Fs, blk: seq<Block>) {
    |blk| == |fs.blk| && forall x: nat :: x in fs.owner && fs.owner[x].n == MAXFILE && x < |blk| ==> blk[x] == fs.blk[x]
  }

  lemma SlotFrame(sb: Super, fs: Fs, blk: seq<Block>, i: nat, n: nat)
    requires InodesOk(sb, fs) && Owned(sb, fs) && SameIndirect(fs, blk) && i < |fs.ino| && n <= MAXFILE
    ensures SlotAddr(blk, fs.ino[i], n) == SlotAddr(fs.blk, fs.ino[i], n)
  {
    hide Owned;
    OwnedSlot(sb, fs, i, MAXFILE);
  }

  ghost predicate SameBitmap(sb: Super, fs: Fs, blk: seq<Block>) {
    |blk| == |fs.blk| && forall x: nat :: sb.bmapstart <= x < sb.datastart && x < |blk| ==> blk[x] == fs.blk[x]
  }

  ghost predicate SameInodeBlocks(sb: Super, fs: Fs, blk: seq<Block>) {
    |blk| == |fs.blk| && forall x: nat :: sb.inodestart <= x < sb.bmapstart && x < |blk| ==> blk[x] == fs.blk[x]
  }

  lemma BitFrame(sb: Super, fs: Fs, blk: seq<Block>, a: nat)
    requires InodesOk(sb, fs) && SameBitmap(sb, fs, blk) && a < sb.size
    ensures BBlock(sb, a) < |blk| && Bit(sb, blk, a) == Bit(sb, fs.blk, a)
  {}

  lemma DiskFrame(sb: Super, fs: Fs, fs': Fs, skip: int)
    requires InodesOk(sb, fs) && InodesOk(sb, fs') && OnDisk(sb, fs, skip) && SameInodeBlocks(sb, fs, fs'.blk)
    requires forall i: nat :: i < |fs.ino| && i != skip ==> fs'.ino[i] == fs.ino[i]
    ensures OnDisk(sb, fs', skip)
  {
    forall i: nat | i < |fs.ino| && i != skip ensures GetInode(fs'.blk[IBlock(sb, i)], i % IPB) == fs'.ino[i] {
      assert sb.inodestart <= IBlock(sb, i) < sb.bmapstart;
    }
  }

  /** Every slot holds in `fs'` what it holds in `fs`. */
  ghost predicate SameSlots(sb: Super, fs: Fs, fs': Fs, skip: int)
    requires InodesOk(sb, fs) && InodesOk(sb, fs')
  {
    forall i: nat, n: nat :: i < |fs.ino| && i != skip && n <= MAXFILE ==>
      SlotAddr(fs'.blk, fs'.ino[i], n) == SlotAddr(fs.blk, fs.ino[i], n)
  }

  lemma MappedFrame(sb: Super, fs: Fs, fs': Fs, skip: int)
    requires InodesOk(sb, fs) && InodesOk(sb, fs') && AllMapped(sb, fs, skip) && SameSlots(sb, fs, fs', skip)
    requires forall i: nat :: i < |fs.ino| && i != skip ==> fs'.ino[i].size == fs.ino[i].size
    ensures AllMapped(sb, fs', skip)
  {
    forall i: nat | i < |fs'.ino| && i != skip ensures FileMapped(sb, fs', i, fs'.ino[i].size) {
      assert FileMapped(sb, fs, i, fs.ino[i].size);
      assert SlotAddr(fs'.blk, fs'.ino[i], MAXFILE) == SlotAddr(fs.blk, fs.ino[i], MAXFILE);
      forall n: nat | n < MAXFILE ensures Addr(fs'.blk, fs'.ino[i], n) == Addr(fs.blk, fs.ino[i], n) {
        assert SlotAddr(fs'.blk, fs'.ino[i], n) == SlotAddr(fs.blk, fs.ino[i], n);
      }
    }
  }

  // ---- Writing a data block ----

  /** Storing into a block that holds file data moves nothing but that block. */
  lemma DataWrite(sb: Super, fs: Fs, a: nat, b: Block)
    requires InodesOk(sb, fs) && Owned(sb, fs)
    requires a in fs.owner && fs.owner[a].n < MAXFILE
    ensures a < |fs.blk|
    ensures var fs' := fs.(blk := fs.blk[a := b]);
            InodesOk(sb, fs') && Owned(sb, fs') && SameInodeBlocks(sb, fs, fs'.blk) && SameSlots(sb, fs, fs', -1)
  {
    hide Owned, Mapped;
    OwnedBlock(sb, fs, a);
    var fs' := fs.(blk := fs.blk[a := b]);
    forall i: nat, n: nat | i < |fs.ino| && n <= MAXFILE
      ensures SlotAddr(fs'.blk, fs'.ino[i], n) == SlotAddr(fs.blk, fs.ino[i], n) && SlotOwns(sb, fs', i, n)
    {
      SlotFrame(sb, fs, fs'.blk, i, n);
      OwnedSlot(sb, fs, i, n);
    }
    hide SlotAddr;
    forall x: nat | x < sb.size ensures Bit(sb, fs'.blk, x) <==> x < sb.datastart || x in fs'.owner {
      BitFrame(sb, fs, fs'.blk, x);
      OwnedBit(sb, fs, x);
    }
    forall x: nat | x in fs.owner
      ensures && sb.datastart <= x < sb.size && fs.owner[x].inum < |fs.ino| && fs.owner[x].n <= MAXFILE
              && SlotAddr(fs'.blk, fs'.ino[fs.owner[x].inum], fs.owner[x].n) == x
    {
      OwnedBlock(sb, fs, x);
    }
    OwnedParts(sb, fs');
  }

  // ---- Allocating a block for a slot ----

  /** balloc's effect on the blocks: the bit is set and the block zeroed. */
  function Allocated(sb: Super, blk: seq<Block>, a: nat): (r: seq<Block>)
    requires BBlock(sb, a) < |blk| && a < |blk|
    ensures |r| == |blk|
  {
    PutBit(sb, blk, a, true)[a := ZeroBlock()]
  }

  function WithAddr(d: Dinode, k: nat, a: Word): Dinode
    requires k < |d.addrs|
  {
    Dinode(d.typ, d.major, d.minor, d.nlink, d.size, d.addrs[k := a])
  }

  /** The blocks once block number `a` is stored in slot (i, n). */
  function GrownBlocks(blk: seq<Block>, d: Dinode, n: nat, a: Word): seq<Block>
    requires n <= MAXFILE && |d.addrs| == NDIRECT + 1 && (NDIRECT <= n < MAXFILE ==> d.addrs[NDIRECT] < |blk|)
  {
    if NDIRECT <= n < MAXFILE then blk[d.addrs[NDIRECT] := PutWord(blk[d.addrs[NDIRECT]], n - NDIRECT, a)] else blk
  }

  /** The inode once block number `a` is stored in slot (i, n). */
  function GrownInode(d: Dinode, n: nat, a: Word): Dinode
    requires n <= MAXFILE && |d.addrs| == NDIRECT + 1
  {
    if n < NDIRECT then WithAddr(d, n, a) else if n == MAXFILE then WithAddr(d, NDIRECT, a) else d
  }

  /** The free block `a` is allocated and its number stored in slot (i, n). */
  function Grown(sb: Super, fs: Fs, i: nat, n: nat, a: Word): Fs
    requires i < |fs.ino| && n <= MAXFILE && |fs.ino[i].addrs| == NDIRECT + 1 && BBlock(sb, a) < |fs.blk|
             && a < |fs.blk|
    requires NDIRECT <= n < MAXFILE ==> fs.ino[i].addrs[NDIRECT] < |fs.blk|
  {
    Fs(GrownBlocks(Allocated(sb, fs.blk, a), fs.ino[i], n, a),
       fs.ino[i := GrownInode(fs.ino[i], n, a)], fs.owner[a := Slot(i, n)])
  }

  /** A free data block and an empty slot for it; an indirect entry needs its indirect block. */
  ghost predicate CanGrow(sb: Super, fs: Fs, i: nat, n: nat, a: Word)
    requires InodesOk(sb, fs)
  {
    && sb.datastart <= a < sb.size && a !in fs.owner
    && i < |fs.ino| && n <= MAXFILE && SlotAddr(fs.blk, fs.ino[i], n) == 0
    && (NDIRECT <= n < MAXFILE ==> fs.ino[i].addrs[NDIRECT] != 0)
  }

  lemma AllocatedFrame(sb: Super, fs: Fs, a: nat)
    requires InodesOk(sb, fs) && Owned(sb, fs) && sb.datastart <= a < sb.size && a !in fs.owner
    ensures SameIndirect(fs, Allocated(sb, fs.blk, a)) && SameInodeBlocks(sb, fs, Allocated(sb, fs.blk, a))
    ensures forall x: nat :: sb.datastart <= x < sb.size && x != a ==> Allocated(sb, fs.blk, a)[x] == fs.blk[x]
    ensures forall x: nat :: x < sb.size ==> (Bit(sb, Allocated(sb, fs.blk, a), x) <==> x == a || Bit(sb, fs.blk, x))
  {
    var blk := Allocated(sb, fs.blk, a);
    assert sb.bmapstart <= BBlock(sb, a) < sb.datastart;
    var p := PutBit(sb, fs.blk, a, true);
    forall x: nat | x < sb.size ensures Bit(sb, blk, x) <==> x == a || Bit(sb, fs.blk, x) {
      PutBitTest(sb, fs.blk, a, true, x);
      assert BBlock(sb, x) < sb.datastart;
    }
    assert forall x: nat :: x in fs.owner ==> x != a && x != BBlock(sb, a);
  }

  /** Exactly slot (i, n) gets the new block. */
  lemma GrownSlots(sb: Super, fs: Fs, i: nat, n: nat, a: Word, j: nat, m: nat)
    requires InodesOk(sb, fs) && Owned(sb, fs) && CanGrow(sb, fs, i, n, a) && j < |fs.ino| && m <= MAXFILE
    ensures InodesOk(sb, Grown(sb, fs, i, n, a))
    ensures var fs' := Grown(sb, fs, i, n, a);
            SlotAddr(fs'.blk, fs'.ino[j], m) == if j == i && m == n then a else SlotAddr(fs.blk, fs.ino[j], m)
  {
    hide Owned, Allocated, Bit, PutWord, GetWord;
    var blk := Allocated(sb, fs.blk, a);
    AllocatedFrame(sb, fs, a);
    SlotFrame(sb, fs, blk, j, m);
    OwnedSlot(sb, fs, i, MAXFILE);
    OwnedSlot(sb, fs, j, MAXFILE);
    if NDIRECT <= n < MAXFILE {
      if NDIRECT <= m < MAXFILE && j == i { PutWordGet(blk[fs.ino[i].addrs[NDIRECT]], n - NDIRECT, a, m - NDIRECT); }
    } else if n == MAXFILE && NDIRECT <= m < MAXFILE && j == i {
      AllocatedZero(sb, fs.blk, a);
      ZeroWord(m - NDIRECT);
    }
  }

  lemma AllocatedZero(sb: Super, blk: seq<Block>, a: nat)
    requires BBlock(sb, a) < |blk| && a < |blk|
    ensures Allocated(sb, blk, a)[a] == ZeroBlock()
  {}

  lemma ZeroWord(k: nat)
    requires k < NWORDS
    ensures GetWord(ZeroBlock(), k) == 0
  {}

  lemma GrownBits(sb: Super, fs: Fs, i: nat, n: nat, a: Word, x: nat)
    requires InodesOk(sb, fs) && Owned(sb, fs) && CanGrow(sb, fs, i, n, a) && x < sb.size
    ensures var fs' := Grown(sb, fs, i, n, a);
            && |fs'.blk| == |fs.blk| && BBlock(sb, x) < |fs'.blk|
               && (Bit(sb, fs'.blk, x) <==> x == a || Bit(sb, fs.blk, x))
            && SameInodeBlocks(sb, fs, fs'.blk)
  {
    hide Owned, Allocated, PutWord, TestBit;
    AllocatedFrame(sb, fs, a);
    OwnedSlot(sb, fs, i, MAXFILE);
    var y := BBlock(sb, x);
    assert sb.bmapstart <= y < sb.datastart;
    assert Bit(sb, Allocated(sb, fs.blk, a), x) <==> x == a || Bit(sb, fs.blk, x);
    assert Grown(sb, fs, i, n, a).blk[y] == Allocated(sb, fs.blk, a)[y];
  }

  /** Allocating a free block into an empty slot keeps ownership exact, every other file as it
      was, and the disk copy of every inode but the one being grown. */
  lemma GrownOk(sb: Super, fs: Fs, i: nat, n: nat, a: Word)
    requires InodesOk(sb, fs) && Owned(sb, fs) && CanGrow(sb, fs, i, n, a)
    ensures var fs' := Grown(sb, fs, i, n, a);
            && InodesOk(sb, fs') && Owned(sb, fs') && SameSlots(sb, fs, fs', i)
            && (OnDisk(sb, fs, i) ==> OnDisk(sb, fs', i))
            && (AllMapped(sb, fs, i) ==> AllMapped(sb, fs', i))
  {
    var fs' := Grown(sb, fs, i, n, a);
    GrownSlots(sb, fs, i, n, a, i, n);
    GrownBits(sb, fs, i, n, a, 0);
    GrownOwned(sb, fs, i, n, a);
    hide Owned, Bit, SlotAddr, GrownBlocks, Mapped;
    forall j: nat, m: nat | j < |fs.ino| && j != i && m <= MAXFILE
      ensures SlotAddr(fs'.blk, fs'.ino[j], m) == SlotAddr(fs.blk, fs.ino[j], m)
    {
      GrownSlots(sb, fs, i, n, a, j, m);
    }
    if OnDisk(sb, fs, i) { DiskFrame(sb, fs, fs', i); }
    if AllMapped(sb, fs, i) { MappedFrame(sb, fs, fs', i); }
  }

  lemma GrownOwned(sb: Super, fs: Fs, i: nat, n: nat, a: Word)
    requires InodesOk(sb, fs) && Owned(sb, fs) && CanGrow(sb, fs, i, n, a)
    ensures InodesOk(sb, Grown(sb, fs, i, n, a)) && Owned(sb, Grown(sb, fs, i, n, a))
  {
    hide Owned, Bit, SlotAddr, GrownBlocks, GrownInode;
    var fs' := Grown(sb, fs, i, n, a);
    GrownSlots(sb, fs, i, n, a, i, n);
    forall j: nat, m: nat | j < |fs.ino| && m <= MAXFILE ensures SlotTo(sb, fs, fs', i, n, a, j, m) {
      GrownSlots(sb, fs, i, n, a, j, m);
    }
    GrownBits(sb, fs, i, n, a, 0);
    forall x: nat | x < sb.size ensures BitTo(sb, fs, fs', a, x) {
      GrownBits(sb, fs, i, n, a, x);
    }
    OwnedTo(sb, fs, fs', i, n, a);
  }

  ghost predicate SlotTo(sb: Super, fs: Fs, fs': Fs, i: nat, n: nat, a: Word, j: nat, m: nat)
    requires InodesOk(sb, fs) && InodesOk(sb, fs') && j < |fs.ino| && m <= MAXFILE
  {
    SlotAddr(fs'.blk, fs'.ino[j], m) == if j == i && m == n then a else SlotAddr(fs.blk, fs.ino[j], m)
  }

  ghost predicate BitTo(sb: Super, fs: Fs, fs': Fs, a: nat, x: nat)
    requires InodesOk(sb, fs) && InodesOk(sb, fs') && x < sb.size
  {
    Bit(sb, fs'.blk, x) <==> x == a || Bit(sb, fs.blk, x)
  }

  /** Ownership after one free block has gone to one empty slot. */
  lemma OwnedTo(sb: Super, fs: Fs, fs': Fs, i: nat, n: nat, a: Word)
    requires InodesOk(sb, fs) && InodesOk(sb, fs') && Owned(sb, fs)
    requires sb.datastart <= a < sb.size && a !in fs.owner && i < |fs.ino| && n <= MAXFILE
    requires fs'.owner == fs.owner[a := Slot(i, n)]
    requires SlotAddr(fs.blk, fs.ino[i], n) == 0
    requires forall j: nat, m: nat :: j < |fs.ino| && m <= MAXFILE ==> SlotTo(sb, fs, fs', i, n, a, j, m)
    requires forall x: nat :: x < sb.size ==> BitTo(sb, fs, fs', a, x)
    ensures Owned(sb, fs')
  {
    hide Owned, Bit, SlotAddr, BBlock;
    forall x: nat | x < sb.size
      ensures BBlock(sb, x) < |fs'.blk| && (Bit(sb, fs'.blk, x) <==> x < sb.datastart || x in fs'.owner)
    {
      assert BitTo(sb, fs, fs', a, x);
      OwnedBit(sb, fs, x);
    }
    assert BitsOwned(sb, fs');
    forall x: nat | x in fs'.owner
      ensures && sb.datastart <= x < sb.size && fs'.owner[x].inum < |fs.ino| && fs'.owner[x].n <= MAXFILE
              && SlotAddr(fs'.blk, fs'.ino[fs'.owner[x].inum], fs'.owner[x].n) == x
    {
      if x != a { OwnedBlock(sb, fs, x); }
      assert SlotTo(sb, fs, fs', i, n, a, fs'.owner[x].inum, fs'.owner[x].n);
    }
    assert BlocksOwned(sb, fs');
    forall j: nat, m: nat | j < |fs.ino| && m <= MAXFILE ensures SlotOwns(sb, fs', j, m) {
      assert SlotTo(sb, fs, fs', i, n, a, j, m);
      OwnedSlot(sb, fs, j, m);
    }
    OwnedParts(sb, fs');
  }

  lemma OwnedParts(sb: Super, fs: Fs)
    requires InodesOk(sb, fs) && BitsOwned(sb, fs) && BlocksOwned(sb, fs)
    requires forall i: nat, n: nat :: i < |fs.ino| && n <= MAXFILE ==> SlotOwns(sb, fs, i, n)
    ensures Owned(sb, fs)
  {}

  // ---- Growing a file leaves what is already there ----

  /** `fs'` has every block of `fs` where it was, with the same data, and perhaps more blocks for
      file `i`; nothing but the addresses of inode `i` changed. */
  ghost predicate Extends(sb: Super, fs: Fs, fs': Fs, i: nat) {
    && InodesOk(sb, fs) && InodesOk(sb, fs') && Owned(sb, fs') && i < |fs.ino|
    && (forall j: nat :: j < |fs.ino| && j != i ==> fs'.ino[j] == fs.ino[j])
    && fs'.ino[i] == fs.ino[i].(addrs := fs'.ino[i].addrs)
    && (forall j: nat, m: nat :: j < |fs.ino| && m <= MAXFILE ==> SlotKept(sb, fs, fs', i, j, m))
    && (forall a: nat :: a in fs.owner && fs.owner[a].n < MAXFILE && a < sb.size ==> fs'.blk[a] == fs.blk[a])
    && (OnDisk(sb, fs, i) ==> OnDisk(sb, fs', i))
    && (AllMapped(sb, fs, i) ==> AllMapped(sb, fs', i))
  }

  ghost predicate SlotKept(sb: Super, fs: Fs, fs': Fs, i: nat, j: nat, m: nat)
    requires InodesOk(sb, fs) && InodesOk(sb, fs') && j < |fs.ino| && m <= MAXFILE
  {
    var x := SlotAddr(fs.blk, fs.ino[j], m);
    x != 0 || j != i ==> SlotAddr(fs'.blk, fs'.ino[j], m) == x
  }

  lemma ExtendsRefl(sb: Super, fs: Fs, i: nat)
    requires InodesOk(sb, fs) && Owned(sb, fs) && i < |fs.ino|
    ensures Extends(sb, fs, fs, i)
  {}

  lemma GrownExtends(sb: Super, fs: Fs, i: nat, n: nat, a: Word)
    requires InodesOk(sb, fs) && Owned(sb, fs) && CanGrow(sb, fs, i, n, a)
    ensures Extends(sb, fs, Grown(sb, fs, i, n, a), i)
  {
    hide Owned, Bit, SlotAddr, OnDisk, AllMapped;
    var fs' := Grown(sb, fs, i, n, a);
    GrownOk(sb, fs, i, n, a);
    forall j: nat, m: nat | j < |fs.ino| && m <= MAXFILE ensures SlotKept(sb, fs, fs', i, j, m) {
      GrownSlots(sb, fs, i, n, a, j, m);
    }
    AllocatedFrame(sb, fs, a);
    forall x: nat | x in fs.owner && fs.owner[x].n < MAXFILE && x < sb.size ensures fs'.blk[x] == fs.blk[x] {
      GrownKeepsData(sb, fs, i, n, a, x);
    }
  }

  lemma GrownKeepsData(sb: Super, fs: Fs, i: nat, n: nat, a: Word, x: nat)
    requires InodesOk(sb, fs) && Owned(sb, fs) && CanGrow(sb, fs, i, n, a)
    requires x in fs.owner && fs.owner[x].n < MAXFILE && x < sb.size
    ensures Grown(sb, fs, i, n, a).blk[x] == fs.blk[x]
  {
    hide Owned, Bit, Allocated;
    OwnedBlock(sb, fs, x);
    AllocatedFrame(sb, fs, a);
    OwnedSlot(sb, fs, i, MAXFILE);
  }

  lemma ExtendsTrans(sb: Super, fs: Fs, fs': Fs, fs'': Fs, i: nat)
    requires Consistent(sb, fs) && Extends(sb, fs, fs', i) && Extends(sb, fs', fs'', i)
    ensures Extends(sb, fs, fs'', i)
  {
    hide Owned, SlotAddr, OnDisk, AllMapped;
    forall j: nat, m: nat | j < |fs.ino| && m <= MAXFILE ensures SlotKept(sb, fs, fs'', i, j, m) {
      assert SlotKept(sb, fs, fs', i, j, m) && SlotKept(sb, fs', fs'', i, j, m);
    }
    forall a: nat | a in fs.owner && fs.owner[a].n < MAXFILE && a < sb.size ensures fs''.blk[a] == fs.blk[a] {
      OwnedKept(sb, fs, fs', i, a);
    }
  }

  ghost predicate Consistent(sb: Super, fs: Fs) { InodesOk(sb, fs) && Owned(sb, fs) }

  lemma OwnedKept(sb: Super, fs: Fs, fs': Fs, i: nat, a: nat)
    requires Consistent(sb, fs) && Extends(sb, fs, fs', i) && a in fs.owner
    ensures a in fs'.owner && fs'.owner[a] == fs.owner[a]
  {
    hide Owned, SlotAddr, OnDisk, AllMapped;
    OwnedBlock(sb, fs, a);
    var s := fs.owner[a];
    assert SlotKept(sb, fs, fs', i, s.inum, s.n);
    OwnedSlot(sb, fs', s.inum, s.n);
  }
}
