/** The layout of the disk, byte by byte, as fs.h and log.c declare it and mkfs writes it: little-endian
    numbers, 64-byte inodes, a bitmap with the lowest bit first, and the log header. */
module DiskFormat {
  import opened Blocks
  import opened LogSpec
  import opened FsSpec
  import opened FsBlocks
  import opened FsFiles

  function Short(b: Block, o: nat): nat
    requires o + 2 <= BSIZE
  {
    b[o] as int + 0x100 * b[o + 1] as int
  }

  function Long(b: Block, o: nat): nat
    requires o + 4 <= BSIZE
  {
    Short(b, o) + 0x1_0000 * Short(b, o + 2)
  }

  lemma WordIsLong(b: Block, i: nat, o: nat)
    requires i < NWORDS && o == 4 * i
    ensures GetWord(b, i) == Long(b, o)
    ensures GetWord(b, i) % 0x1_0000 == Short(b, o) && GetWord(b, i) / 0x1_0000 == Short(b, o + 2)
  {}

  const INODE_BYTES: nat := 64

  /** struct dinode: type, major, minor and nlink as shorts, then size and thirteen addresses. */
  lemma InodeFormat(b: Block, k: nat)
    requires k < IPB
    ensures var d, o := GetInode(b, k), INODE_BYTES * k;
            && d.typ == Short(b, o) && d.major == Short(b, o + 2) && d.minor == Short(b, o + 4)
            && d.nlink == Short(b, o + 6) && d.size == Long(b, o + 8)
            && forall n :: 0 <= n <= NDIRECT ==> d.addrs[n] == Long(b, o + 12 + 4 * n)
  {
    var ws, o := GetWords(b, 16 * k, 16), INODE_BYTES * k;
    hide GetWords, GetWord, Long, Short;
    WordIsLong(b, 16 * k, o);
    WordIsLong(b, 16 * k + 1, o + 4);
    WordIsLong(b, 16 * k + 2, o + 8);
    assert ws[0] == GetWord(b, 16 * k) && ws[1] == GetWord(b, 16 * k + 1) && ws[2] == GetWord(b, 16 * k + 2);
    var d := InodeOf(ws);
    assert d == GetInode(b, k);
    forall n: nat | n <= NDIRECT ensures d.addrs[n] == Long(b, o + 12 + 4 * n) {
      WordIsLong(b, 16 * k + 3 + n, o + 12 + 4 * n);
      assert ws[3 + n] == GetWord(b, 16 * k + (3 + n));
    }
  }

  /** The block of the inode table and the place in it where inode `i` is. */
  function InodeBlock(sb: Super, blk: seq<Block>, i: nat): Block
    requires sb.inodestart + i / 8 < |blk|
  {
    blk[sb.inodestart + i / 8]
  }

  /** The number of the n-th block of file `i`, from the bytes of the disk. */
  function BlockNumber(sb: Super, blk: seq<Block>, i: nat, n: nat): nat
    requires n < MAXFILE && sb.inodestart + i / 8 < |blk|
  {
    var b, o := InodeBlock(sb, blk, i), INODE_BYTES * (i % 8);
    if n < 12 then Long(b, o + 12 + 4 * n)
    else
      var indirect := Long(b, o + 12 + 4 * 12);
      if indirect < |blk| then Long(blk[indirect], 4 * (n - 12)) else 0
  }

  lemma InodeIs(sb: Super, fs: Fs, i: nat)
    requires FsOk(sb, fs) && i < |fs.ino|
    ensures sb.inodestart + i / 8 < |fs.blk|
    ensures var b, o := InodeBlock(sb, fs.blk, i), INODE_BYTES * (i % 8);
            && fs.ino[i].typ == Short(b, o) && fs.ino[i].major == Short(b, o + 2) && fs.ino[i].minor == Short(b, o + 4)
            && fs.ino[i].nlink == Short(b, o + 6) && fs.ino[i].size == Long(b, o + 8)
            && forall n :: 0 <= n <= NDIRECT ==> fs.ino[i].addrs[n] == Long(b, o + 12 + 4 * n)
  {
    assert IBlock(sb, i) == sb.inodestart + i / 8;
    assert GetInode(fs.blk[IBlock(sb, i)], i % IPB) == fs.ino[i];
    hide FsOk, GetInode;
    InodeFormat(fs.blk[IBlock(sb, i)], i % IPB);
  }

  /** In a consistent file system the contents of every file can be read off the bytes of the disk: its
      size from its inode, its first twelve blocks from the inode's addresses and the others from the
      block the thirteenth names. */
  lemma FileOnDisk(sb: Super, fs: Fs, i: nat, k: nat)
    requires FsOk(sb, fs) && i < |fs.ino| && k < |Contents(sb, fs, i)|
    ensures sb.inodestart + i / 8 < |fs.blk|
    ensures |Contents(sb, fs, i)| == Long(InodeBlock(sb, fs.blk, i), INODE_BYTES * (i % 8) + 8)
    ensures k / 512 < MAXFILE
    ensures var a := BlockNumber(sb, fs.blk, i, k / 512);
            a < |fs.blk| && Contents(sb, fs, i)[k] == fs.blk[a][k % 512]
  {
    InodeIs(sb, fs, i);
    FsOkCovers(sb, fs, i);
    CoveredByte(sb, fs, i, fs.ino[i].size, k);
    var n := k / 512;
    AddrIs(sb, fs, i, n);
  }

  lemma AddrIs(sb: Super, fs: Fs, i: nat, n: nat)
    requires FsOk(sb, fs) && i < |fs.ino| && n < MAXFILE
    requires sb.inodestart + i / 8 < |fs.blk| && Addr(fs.blk, fs.ino[i], n) != 0
    ensures BlockNumber(sb, fs.blk, i, n) == Addr(fs.blk, fs.ino[i], n)
  {
    InodeIs(sb, fs, i);
  }

  // ---- The bitmap ----

  /** What bit `i` of a byte is worth. */
  function Weight(i: nat): (w: nat)
    requires i < 8
    ensures w > 0
  {
    [1, 2, 4, 8, 16, 32, 64, 128][i]
  }

  lemma TestBitIs(x: nat, i: nat)
    requires i < 8
    ensures TestBit(x, i) <==> x / Weight(i) % 2 == 1
  {
    Unrolled(x, i);
    hide TestBit;
    if i == 0 {} else if i == 1 {} else if i == 2 {} else if i == 3 {} else if i == 4 {} else if i == 5 {}
    else if i == 6 {} else {}
  }

  lemma Unrolled(x: nat, i: nat)
    requires i < 8
    ensures TestBit(x, i) <==>
            (if i == 0 then x else if i == 1 then x / 2 else if i == 2 then x / 2 / 2 else if i == 3 then x / 2 / 2 / 2
             else if i == 4 then x / 2 / 2 / 2 / 2 else if i == 5 then x / 2 / 2 / 2 / 2 / 2
             else if i == 6 then x / 2 / 2 / 2 / 2 / 2 / 2 else x / 2 / 2 / 2 / 2 / 2 / 2 / 2) % 2 == 1
  {
    if i >= 2 {
      assert TestBit(x, i) == TestBit(x / 2 / 2, i - 2);
      if i >= 4 {
        assert TestBit(x / 2 / 2, i - 2) == TestBit(x / 2 / 2 / 2 / 2, i - 4);
        if i >= 6 { assert TestBit(x / 2 / 2 / 2 / 2, i - 4) == TestBit(x / 2 / 2 / 2 / 2 / 2 / 2, i - 6); }
      }
    }
  }

  /** Block `a` has bit a mod 8 of byte a mod 4096 / 8 of bitmap block a / 4096, and it is set exactly
      when the block is metadata or some file owns it. */
  lemma BitmapOnDisk(sb: Super, fs: Fs, a: nat)
    requires FsOk(sb, fs) && a < sb.size
    ensures sb.bmapstart + a / 4096 < |fs.blk|
    ensures fs.blk[sb.bmapstart + a / 4096][a % 4096 / 8] / Weight(a % 8) % 2 == 1 <==>
            a < sb.datastart || a in fs.owner
  {
    OwnedBit(sb, fs, a);
    hide FsOk;
    assert BBlock(sb, a) == sb.bmapstart + a / 4096;
    TestBitIs(fs.blk[BBlock(sb, a)][a % BPB / 8], a % 8);
  }

  // ---- The log header ----

  /** struct logheader: the number of blocks, then their numbers. */
  lemma HeaderOnDisk(b: Block, ts: seq<Word>)
    requires |ts| <= LOGSIZE
    ensures var h := PutHeader(b, ts); Long(h, 0) == |ts| && forall i :: 0 <= i < |ts| ==> Long(h, 4 + 4 * i) == ts[i]
  {
    HeaderRoundTrip(b, ts);
    var h := PutHeader(b, ts);
    hide PutHeader;
    WordIsLong(h, 0, 0);
    forall i | 0 <= i < |ts| ensures Long(h, 4 + 4 * i) == ts[i] {
      WordIsLong(h, 1 + i, 4 + 4 * i);
      assert HeaderTargets(h)[i] == GetWord(h, 1 + i);
    }
  }
}
