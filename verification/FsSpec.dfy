/** The on-disk file system of fs.c: a free-block bitmap, inodes of twelve direct blocks and one
    indirect block, and files as byte sequences.  Blocks are as the kernel sees them through the
    buffer cache. */
module FsSpec {
  import opened Blocks

  const NDIRECT: nat := 12
  const NINDIRECT: nat := 128
  const MAXFILE: nat := 140
  const BPB: nat := 4096  // bitmap bits per block
  const IPB: nat := 8     // inodes per block
  const T_DEV: int := 3

  /** The superblock, with the first data block made explicit. */
  datatype Super = Super(size: nat, ninodes: nat, inodestart: nat, bmapstart: nat, datastart: nat)

  /** The layout mkfs gives a disk: inode blocks, then bitmap blocks, then data. */
  predicate LayoutOk(sb: Super) {
    && 0 < sb.inodestart
    && sb.inodestart + sb.ninodes / IPB + 1 <= sb.bmapstart
    && sb.bmapstart + sb.size / BPB + 1 <= sb.datastart <= sb.size < 0x1_0000_0000
  }

  function IBlock(sb: Super, i: nat): nat { i / IPB + sb.inodestart }

  function BBlock(sb: Super, a: nat): nat { a / BPB + sb.bmapstart }

  // ---- Bits of a byte ----

  function Pow2(n: nat): nat { if n == 0 then 1 else 2 * Pow2(n - 1) }

  /** Bit `i` of `x`: x & (1 << i) is non-zero. */
  predicate TestBit(x: nat, i: nat) {
    if i == 0 then x % 2 == 1 else TestBit(x / 2, i - 1)
  }

  /** x with bit `i` as `v`: x | (1 << i), or x & ~(1 << i). */
  function WithBit(x: nat, i: nat, v: bool): nat {
    if i == 0 then x / 2 * 2 + (if v then 1 else 0) else 2 * WithBit(x / 2, i - 1, v) + x % 2
  }

  lemma {:induction false} WithBitTest(x: nat, i: nat, v: bool, j: nat)
    ensures TestBit(WithBit(x, i, v), j) == if i == j then v else TestBit(x, j)
  {
    if i > 0 && j > 0 {
      WithBitTest(x / 2, i - 1, v, j - 1);
      assert WithBit(x, i, v) / 2 == WithBit(x / 2, i - 1, v);
    }
  }

  lemma {:induction false} WithBitBound(x: nat, i: nat, v: bool, n: nat)
    requires x < Pow2(n) && i < n
    ensures WithBit(x, i, v) < Pow2(n)
  {
    if i > 0 { WithBitBound(x / 2, i - 1, v, n - 1); }
  }

  /** The same on a byte. */
  function ByteWithBit(x: Byte, i: nat, v: bool): Byte { WithBit(x, i, v) % 0x100 }

  lemma ByteWithBitTest(x: Byte, i: nat, v: bool, j: nat)
    requires i < 8
    ensures TestBit(ByteWithBit(x, i, v), j) == if i == j then v else TestBit(x, j)
  {
    assert Pow2(8) == 256;
    WithBitBound(x, i, v, 8);
    WithBitTest(x, i, v, j);
  }

  // ---- The bitmap ----

  predicate Bit(sb: Super, blk: seq<Block>, a: nat)
    requires BBlock(sb, a) < |blk|
  {
    TestBit(blk[BBlock(sb, a)][a % BPB / 8], a % 8)
  }

  /** The bitmap byte of block `a`, with its bit set or cleared. */
  function PutBit(sb: Super, blk: seq<Block>, a: nat, v: bool): (r: seq<Block>)
    requires BBlock(sb, a) < |blk|
    ensures |r| == |blk| && forall x :: 0 <= x < |r| && x != BBlock(sb, a) ==> r[x] == blk[x]
  {
    var b := blk[BBlock(sb, a)];
    blk[BBlock(sb, a) := b[a % BPB / 8 := ByteWithBit(b[a % BPB / 8], a % 8, v)]]
  }

  lemma PutBitTest(sb: Super, blk: seq<Block>, a: nat, v: bool, x: nat)
    requires BBlock(sb, a) < |blk| && BBlock(sb, x) < |blk|
    ensures Bit(sb, PutBit(sb, blk, a, v), x) == if a == x then v else Bit(sb, blk, x)
  {
    var b := blk[BBlock(sb, a)];
    ByteWithBitTest(b[a % BPB / 8], a % 8, v, x % 8);
    if a / BPB == x / BPB && a % BPB / 8 == x % BPB / 8 && a % 8 == x % 8 {
      SameIndex(a, x);
    }
  }

  lemma SameIndex(a: nat, x: nat)
    requires a / BPB == x / BPB && a % BPB / 8 == x % BPB / 8 && a % 8 == x % 8
    ensures a == x
  {
    SplitIndex(a);
    SplitIndex(x);
  }

  lemma SplitIndex(a: nat)
    ensures a == BPB * (a / BPB) + 8 * (a % BPB / 8) + a % 8
  {
    var q, r := a / BPB, a % BPB;
    assert a == 4096 * q + r;
    assert a % 8 == r % 8;
  }

  // ---- Inodes ----

  datatype Dinode = Dinode(typ: int, major: int, minor: int, nlink: int, size: Word, addrs: seq<Word>)

  /** Sixteen-bit fields and thirteen addresses. */
  predicate DinodeOk(d: Dinode) {
    0 <= d.typ < 0x1_0000 && 0 <= d.major < 0x1_0000 && 0 <= d.minor < 0x1_0000 && 0 <= d.nlink < 0x1_0000
        && |d.addrs| == NDIRECT + 1
  }

  /** The sixteen words of a struct dinode. */
  function InodeWords(d: Dinode): (ws: seq<Word>)
    requires DinodeOk(d)
    ensures |ws| == 16
  {
    [d.typ + 0x1_0000 * d.major, d.minor + 0x1_0000 * d.nlink, d.size] + d.addrs
  }

  function PutInode(b: Block, k: nat, d: Dinode): Block
    requires k < IPB && DinodeOk(d)
  {
    PutWords(b, 16 * k, InodeWords(d))
  }

  function InodeOf(ws: seq<Word>): (d: Dinode)
    requires |ws| == 16
    ensures DinodeOk(d)
  {
    Dinode(ws[0] % 0x1_0000, ws[0] / 0x1_0000, ws[1] % 0x1_0000, ws[1] / 0x1_0000, ws[2], ws[3..])
  }

  lemma InodeWordsRoundTrip(d: Dinode)
    requires DinodeOk(d)
    ensures InodeOf(InodeWords(d)) == d
  {
    var ws := InodeWords(d);
    assert ws[3..] == d.addrs;
    assert ws[0] % 0x1_0000 == d.typ && ws[0] / 0x1_0000 == d.major;
    assert ws[1] % 0x1_0000 == d.minor && ws[1] / 0x1_0000 == d.nlink;
  }

  function GetWords(b: Block, at: nat, n: nat): (ws: seq<Word>)
    requires at + n <= NWORDS
    ensures |ws| == n && forall i :: 0 <= i < n ==> ws[i] == GetWord(b, at + i)
  {
    if n == 0 then [] else GetWords(b, at, n - 1) + [GetWord(b, at + n - 1)]
  }

  function GetInode(b: Block, k: nat): (d: Dinode)
    requires k < IPB
    ensures DinodeOk(d)
  {
    InodeOf(GetWords(b, 16 * k, 16))
  }

  /** iupdate stores one inode; ilock reads back what was stored, and the other inodes of the
      block are untouched. */
  lemma PutInodeGet(b: Block, k: nat, d: Dinode, j: nat)
    requires k < IPB && j < IPB && DinodeOk(d)
    ensures GetInode(PutInode(b, k, d), j) == if j == k then d else GetInode(b, j)
  {
    var ws, c := InodeWords(d), PutInode(b, k, d);
    var at := 16 * j;
    var r := GetWords(c, at, 16);
    var expected := if j == k then ws else GetWords(b, at, 16);
    forall i: nat | i < 16 ensures r[i] == expected[i] {
      PutWordsGet(b, 16 * k, ws, at + i);
    }
    assert r == expected;
    InodeWordsRoundTrip(d);
  }

  // ---- Files over blocks ----

  /** A place that can hold a block number: the n-th data block of a file, or, for n == MAXFILE,
      its indirect block. */
  datatype Slot = Slot(inum: nat, n: nat)

  /** The n-th data block of a file, 0 when there is none. */
  function Addr(blk: seq<Block>, d: Dinode, n: nat): Word
    requires n < MAXFILE && DinodeOk(d) && d.addrs[NDIRECT] < |blk|
  {
    if n < NDIRECT then d.addrs[n]
    else if d.addrs[NDIRECT] == 0 then 0
    else GetWord(blk[d.addrs[NDIRECT]], n - NDIRECT)
  }

  function SlotAddr(blk: seq<Block>, d: Dinode, n: nat): Word
    requires n <= MAXFILE && DinodeOk(d) && d.addrs[NDIRECT] < |blk|
  {
    if n == MAXFILE then d.addrs[NDIRECT] else Addr(blk, d, n)
  }

  /** Blocks needed for `len` bytes. */
  function NBlocks(len: nat): nat { (len + BSIZE - 1) / BSIZE }

  /** Exactly the first `nb` blocks of the file are mapped, and the indirect block exactly when needed. */
  ghost predicate Mapped(blk: seq<Block>, d: Dinode, nb: nat)
    requires DinodeOk(d) && d.addrs[NDIRECT] < |blk|
  {
    && (forall n: nat :: n < MAXFILE ==> (Addr(blk, d, n) != 0 <==> n < nb))
    && (d.addrs[NDIRECT] != 0 <==> nb > NDIRECT)
  }

  /** The file system as a value: block contents, the inodes as the kernel has them, and for each
      allocated data block the slot that holds its number. */
  datatype Fs = Fs(blk: seq<Block>, ino: seq<Dinode>, owner: map<nat, Slot>)

  ghost predicate InodesOk(sb: Super, fs: Fs) {
    && LayoutOk(sb) && |fs.blk| == sb.size && |fs.ino| == sb.ninodes
    && forall i :: 0 <= i < |fs.ino| ==> DinodeOk(fs.ino[i]) && fs.ino[i].addrs[NDIRECT] < sb.size
  }

  ghost predicate BitsOwned(sb: Super, fs: Fs)
    requires InodesOk(sb, fs)
  {
    forall a: nat :: a < sb.size ==> (Bit(sb, fs.blk, a) <==> a < sb.datastart || a in fs.owner)
  }

  ghost predicate BlocksOwned(sb: Super, fs: Fs)
    requires InodesOk(sb, fs)
  {
    forall a: nat :: a in fs.owner ==>
      && sb.datastart <= a < sb.size && fs.owner[a].inum < |fs.ino| && fs.owner[a].n <= MAXFILE
      && SlotAddr(fs.blk, fs.ino[fs.owner[a].inum], fs.owner[a].n) == a
  }

  ghost predicate SlotOwns(sb: Super, fs: Fs, i: nat, n: nat)
    requires InodesOk(sb, fs) && i < |fs.ino| && n <= MAXFILE
  {
    var x := SlotAddr(fs.blk, fs.ino[i], n);
    x != 0 ==> x in fs.owner && fs.owner[x] == Slot(i, n)
  }

  /** Block ownership: a data block's bit is set exactly when some slot holds its number, and no
      two slots hold the same number. */
  ghost predicate Owned(sb: Super, fs: Fs)
    requires InodesOk(sb, fs)
  {
    && BitsOwned(sb, fs) && BlocksOwned(sb, fs)
    && forall i: nat, n: nat :: i < |fs.ino| && n <= MAXFILE ==> SlotOwns(sb, fs, i, n)
  }

  /** The disk copy of every inode but `skip` is the kernel's. */
  ghost predicate OnDisk(sb: Super, fs: Fs, skip: int)
    requires InodesOk(sb, fs)
  {
    forall i: nat :: i < |fs.ino| && i != skip ==> GetInode(fs.blk[IBlock(sb, i)], i % IPB) == fs.ino[i]
  }

  ghost predicate FileMapped(sb: Super, fs: Fs, i: nat, len: nat)
    requires InodesOk(sb, fs) && i < |fs.ino|
  {
    Mapped(fs.blk, fs.ino[i], NBlocks(len))
  }

  ghost predicate AllMapped(sb: Super, fs: Fs, skip: int)
    requires InodesOk(sb, fs)
  {
    forall i: nat ::
        i < |fs.ino| && i != skip ==> fs.ino[i].size <= MAXFILE * BSIZE && FileMapped(sb, fs, i, fs.ino[i].size)
  }

  ghost predicate FsOk(sb: Super, fs: Fs) {
    InodesOk(sb, fs) && Owned(sb, fs) && OnDisk(sb, fs, -1) && AllMapped(sb, fs, -1)
  }

  /** Byte `k` of file `d`. */
  function ByteAt(blk: seq<Block>, d: Dinode, k: nat): Byte
    requires DinodeOk(d) && d.addrs[NDIRECT] < |blk| && k / BSIZE < MAXFILE && Addr(blk, d, k / BSIZE) < |blk|
  {
    blk[Addr(blk, d, k / BSIZE)][k % BSIZE]
  }
}
