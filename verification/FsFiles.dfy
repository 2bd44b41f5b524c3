/** Files as flat byte sequences over the block structure. */
module FsFiles {
  import opened Blocks
  import opened FsSpec
  import opened FsBlocks

  /** File `i` has blocks for `len` bytes. */
  ghost predicate Covers(sb: Super, fs: Fs, i: nat, len: nat) {
    && Consistent(sb, fs) && i < |fs.ino| && len <= MAXFILE * BSIZE
    && forall n: nat :: n < NBlocks(len) ==> Addr(fs.blk, fs.ino[i], n) != 0
  }

  lemma CoveredByte(sb: Super, fs: Fs, i: nat, len: nat, k: nat)
    requires Covers(sb, fs, i, len) && k < len
    ensures k / BSIZE < NBlocks(len) <= MAXFILE
    ensures var x := Addr(fs.blk, fs.ino[i], k / BSIZE);
            x != 0 && x in fs.owner && fs.owner[x] == Slot(i, k / BSIZE) && sb.datastart <= x < sb.size
  {
    hide Owned;
    OwnedSlot(sb, fs, i, k / BSIZE);
  }

  /** The first `len` bytes of file `i`. */
  ghost function Bytes(sb: Super, fs: Fs, i: nat, len: nat): (r: seq<Byte>)
    requires Covers(sb, fs, i, len)
    ensures |r| == len
    ensures forall k: nat ::
            k < len ==>
                k / BSIZE < MAXFILE && Addr(fs.blk, fs.ino[i], k / BSIZE) < |fs.blk|
                    && r[k] == ByteAt(fs.blk, fs.ino[i], k)
  {
    assert forall k: nat :: k < len ==> k / BSIZE < MAXFILE && Addr(fs.blk, fs.ino[i], k / BSIZE) < |fs.blk| by {
      forall k: nat | k < len
        ensures k / BSIZE < MAXFILE && Addr(fs.blk, fs.ino[i], k / BSIZE) < |fs.blk|
      {
        CoveredByte(sb, fs, i, len, k);
      }
    }
    seq(len, k requires 0 <= k < len => ByteAt(fs.blk, fs.ino[i], k))
  }

  /** `c` overwritten from `off` on by `src`, growing if the write runs past the end. */
  function Splice(c: seq<Byte>, off: nat, src: seq<Byte>): (r: seq<Byte>)
    requires off <= |c|
    ensures |r| == if off + |src| > |c| then off + |src| else |c|
    ensures forall k: nat :: k < |r| ==> r[k] == if off <= k < off + |src| then src[k - off] else c[k]
  {
    c[..off] + src + if off + |src| < |c| then c[off + |src|..] else []
  }

  /** The files other than `i` are as they were. */
  ghost predicate OthersSame(sb: Super, fs: Fs, fs': Fs, i: nat) {
    && Consistent(sb, fs) && Consistent(sb, fs') && AllMapped(sb, fs, i) && AllMapped(sb, fs', i)
    && (forall j: nat :: j < |fs.ino| && j != i ==> fs'.ino[j] == fs.ino[j])
    && forall j: nat :: j < |fs.ino| && j != i ==> FileSame(sb, fs, fs', j, fs.ino[j].size)
  }

  ghost predicate FileSame(sb: Super, fs: Fs, fs': Fs, j: nat, len: nat) {
    Covers(sb, fs, j, len) && Covers(sb, fs', j, len) && Bytes(sb, fs', j, len) == Bytes(sb, fs, j, len)
  }

  lemma ExtendsBytes(sb: Super, fs: Fs, fs': Fs, i: nat, j: nat, len: nat)
    requires Covers(sb, fs, j, len) && Extends(sb, fs, fs', i)
    ensures FileSame(sb, fs, fs', j, len)
  {
    hide Owned, Bytes, OnDisk, AllMapped;
    forall n: nat | n < NBlocks(len)
      ensures Addr(fs'.blk, fs'.ino[j], n) != 0
    {
      assert SlotKept(sb, fs, fs', i, j, n);
    }
    hide Addr;
    var r, r' := Bytes(sb, fs, j, len), Bytes(sb, fs', j, len);
    forall k: nat | k < len ensures r'[k] == r[k] {
      CoveredByte(sb, fs, j, len, k);
      assert SlotKept(sb, fs, fs', i, j, k / BSIZE);
    }
  }

  // ---- Writing part of one block ----

  /** memmove of `src` into a block at `at`. */
  function PutBytes(b: Block, at: nat, src: seq<Byte>): (r: Block)
    requires at + |src| <= BSIZE
    ensures forall k: nat :: k < BSIZE ==> r[k] == if at <= k < at + |src| then src[k - at] else b[k]
  {
    b[..at] + src + b[at + |src|..]
  }

  /** One chunk of a write to file `i`, within block off / BSIZE. */
  function ChunkAt(fs: Fs, addr: nat, off: nat, src: seq<Byte>): Fs
    requires addr < |fs.blk| && off % BSIZE + |src| <= BSIZE
  {
    Fs(fs.blk[addr := PutBytes(fs.blk[addr], off % BSIZE, src)], fs.ino, fs.owner)
  }

  ghost predicate CanChunk(sb: Super, fs: Fs, i: nat, addr: nat, off: nat, src: seq<Byte>) {
    && Consistent(sb, fs) && i < |fs.ino| && off / BSIZE < MAXFILE && off % BSIZE + |src| <= BSIZE
    && addr != 0 && addr == Addr(fs.blk, fs.ino[i], off / BSIZE) && addr < sb.size
  }

  lemma ChunkOk(sb: Super, fs: Fs, i: nat, addr: nat, off: nat, src: seq<Byte>)
    requires CanChunk(sb, fs, i, addr, off, src)
    ensures var fs' := ChunkAt(fs, addr, off, src);
            && Consistent(sb, fs') && SameInodeBlocks(sb, fs, fs'.blk) && SameSlots(sb, fs, fs', -1)
            && addr in fs.owner && fs.owner[addr] == Slot(i, off / BSIZE)
  {
    hide Owned;
    OwnedSlot(sb, fs, i, off / BSIZE);
    DataWrite(sb, fs, addr, PutBytes(fs.blk[addr], off % BSIZE, src));
  }

  lemma CoversFrame(sb: Super, fs: Fs, fs': Fs, j: nat, len: nat)
    requires Covers(sb, fs, j, len) && Consistent(sb, fs') && SameSlots(sb, fs, fs', -1)
    ensures Covers(sb, fs', j, len)
  {
    hide Owned;
    forall n: nat | n < MAXFILE ensures Addr(fs'.blk, fs'.ino[j], n) == Addr(fs.blk, fs.ino[j], n) {
      assert SlotAddr(fs'.blk, fs'.ino[j], n) == SlotAddr(fs.blk, fs.ino[j], n);
    }
  }

  /** The chunk changes exactly its own bytes of file `i` and no byte of any other file. */
  lemma ChunkBytes(sb: Super, fs: Fs, i: nat, addr: nat, off: nat, src: seq<Byte>, j: nat, len: nat)
    requires CanChunk(sb, fs, i, addr, off, src) && Covers(sb, fs, j, len)
    requires Consistent(sb, ChunkAt(fs, addr, off, src)) && SameSlots(sb, fs, ChunkAt(fs, addr, off, src), -1)
    ensures var fs' := ChunkAt(fs, addr, off, src);
            && Covers(sb, fs', j, len)
            && forall k: nat :: k < len ==>
                 Bytes(sb, fs', j, len)[k] == if j == i && off <= k < off + |src| then src[k - off]
                     else Bytes(sb, fs, j, len)[k]
  {
    var fs' := ChunkAt(fs, addr, off, src);
    CoversFrame(sb, fs, fs', j, len);
    var r, r' := Bytes(sb, fs, j, len), Bytes(sb, fs', j, len);
    hide Owned, Bytes, Mapped, Addr, SlotAddr, PutBytes, Covers;
    forall k: nat | k < len ensures r'[k] == if j == i && off <= k < off + |src| then src[k - off] else r[k] {
      ChunkByte(sb, fs, i, addr, off, src, j, len, k);
    }
  }

  lemma ChunkByte(sb: Super, fs: Fs, i: nat, addr: nat, off: nat, src: seq<Byte>, j: nat, len: nat, k: nat)
    requires CanChunk(sb, fs, i, addr, off, src) && Covers(sb, fs, j, len) && k < len
    requires Covers(sb, ChunkAt(fs, addr, off, src), j, len) && SameSlots(sb, fs, ChunkAt(fs, addr, off, src), -1)
    ensures Bytes(sb, ChunkAt(fs, addr, off, src), j, len)[k] ==
            if j == i && off <= k < off + |src| then src[k - off] else Bytes(sb, fs, j, len)[k]
  {
    var fs' := ChunkAt(fs, addr, off, src);
    var r, r' := Bytes(sb, fs, j, len), Bytes(sb, fs', j, len);
    hide Owned, Bytes, Mapped, Addr, PutBytes;
    CoveredByte(sb, fs, j, len, k);
    CoveredByte(sb, fs', j, len, k);
    OwnedSlot(sb, fs, i, off / BSIZE);
    assert SlotAddr(fs'.blk, fs'.ino[j], k / BSIZE) == SlotAddr(fs.blk, fs.ino[j], k / BSIZE);
    var x := Addr(fs.blk, fs.ino[j], k / BSIZE);
    assert r'[k] == fs'.blk[x][k % BSIZE] && r[k] == fs.blk[x][k % BSIZE];
    assert x == addr <==> j == i && k / BSIZE == off / BSIZE;
    hide Covers, CanChunk, SameSlots, SlotAddr, Consistent;
    InChunk(k, off, |src|);
  }

  lemma InChunk(k: nat, off: nat, n: nat)
    requires off % BSIZE + n <= BSIZE
    ensures off <= k < off + n <==> k / BSIZE == off / BSIZE && off % BSIZE <= k % BSIZE < off % BSIZE + n
    ensures k / BSIZE == off / BSIZE ==> k - off == k % BSIZE - off % BSIZE
  {
    if k / BSIZE == off / BSIZE { SameBlock(k, off); }
    if off <= k < off + n { WithinBlock(k, off, n); }
  }

  lemma SameBlock(k: nat, off: nat)
    requires k / BSIZE == off / BSIZE
    ensures k - off == k % BSIZE - off % BSIZE
  {}

  lemma WithinBlock(k: nat, off: nat, n: nat)
    requires off <= k < off + n && off % BSIZE + n <= BSIZE
    ensures k / BSIZE == off / BSIZE
  {}

  // ---- iupdate ----

  function Updated(sb: Super, fs: Fs, i: nat): Fs
    requires i < |fs.ino| && IBlock(sb, i) < |fs.blk| && DinodeOk(fs.ino[i])
  {
    Fs(fs.blk[IBlock(sb, i) := PutInode(fs.blk[IBlock(sb, i)], i % IPB, fs.ino[i])], fs.ino, fs.owner)
  }

  lemma UpdatedOnDisk(sb: Super, fs: Fs, i: nat)
    requires InodesOk(sb, fs) && i < |fs.ino| && OnDisk(sb, fs, i)
    ensures InodesOk(sb, Updated(sb, fs, i)) && OnDisk(sb, Updated(sb, fs, i), -1)
  {
    hide GetInode, PutInode;
    var fs' := Updated(sb, fs, i);
    var b := IBlock(sb, i);
    forall j: nat | j < |fs.ino| ensures GetInode(fs'.blk[IBlock(sb, j)], j % IPB) == fs'.ino[j] {
      PutInodeGet(fs.blk[b], i % IPB, fs.ino[i], j % IPB);
      if IBlock(sb, j) == b && j % IPB == i % IPB { SameInodeIndex(sb, i, j); }
    }
  }

  /** Changing a block below the data region that is not in the bitmap moves no slot and no bit. */
  lemma MetaWrite(sb: Super, fs: Fs, y: nat, b: Block)
    requires Consistent(sb, fs) && y < sb.bmapstart
    ensures var fs' := fs.(blk := fs.blk[y := b]); Consistent(sb, fs') && SameSlots(sb, fs, fs', -1)
  {
    var fs' := fs.(blk := fs.blk[y := b]);
    hide Owned, Mapped;
    assert SameIndirect(fs, fs'.blk) by {
      forall x: nat | x in fs.owner ensures sb.datastart <= x { OwnedBlock(sb, fs, x); }
    }
    forall j: nat, n: nat | j < |fs.ino| && n <= MAXFILE
      ensures SlotAddr(fs'.blk, fs'.ino[j], n) == SlotAddr(fs.blk, fs.ino[j], n) && SlotOwns(sb, fs', j, n)
    {
      SlotFrame(sb, fs, fs'.blk, j, n);
      OwnedSlot(sb, fs, j, n);
    }
    hide SlotAddr;
    forall x: nat | x < sb.size ensures Bit(sb, fs'.blk, x) <==> x < sb.datastart || x in fs'.owner {
      BitFrame(sb, fs, fs'.blk, x);
      OwnedBit(sb, fs, x);
    }
    forall x: nat | x in fs.owner
      ensures && sb.datastart <= x < sb.size && fs.owner[x].inum < |fs.ino| && fs.owner[x].n <= MAXFILE
              && SlotAddr(fs'.blk, fs'.ino[fs.owner[x].inum], fs.owner[x].n) == x
    {
      OwnedBlock(sb, fs, x);
    }
    OwnedParts(sb, fs');
  }

  /** iupdate brings the one lagging disk inode up to date and disturbs nothing else. */
  lemma UpdatedOk(sb: Super, fs: Fs, i: nat)
    requires Consistent(sb, fs) && i < |fs.ino| && OnDisk(sb, fs, i)
    ensures var fs' := Updated(sb, fs, i);
            && Consistent(sb, fs') && OnDisk(sb, fs', -1) && SameSlots(sb, fs, fs', -1)
            && (forall x: nat :: sb.datastart <= x < sb.size ==> fs'.blk[x] == fs.blk[x])
  {
    hide Owned, OnDisk, PutInode;
    UpdatedOnDisk(sb, fs, i);
    MetaWrite(sb, fs, IBlock(sb, i), PutInode(fs.blk[IBlock(sb, i)], i % IPB, fs.ino[i]));
  }

  lemma SameInodeIndex(sb: Super, i: nat, j: nat)
    requires IBlock(sb, i) == IBlock(sb, j) && i % IPB == j % IPB
    ensures i == j
  {}

  // ---- writei ----

  function Max(a: nat, b: nat): nat { if a < b then b else a }

  lemma FsOkCovers(sb: Super, fs: Fs, i: nat)
    requires FsOk(sb, fs) && i < |fs.ino|
    ensures Covers(sb, fs, i, fs.ino[i].size) && Mapped(fs.blk, fs.ino[i], NBlocks(fs.ino[i].size))
  {
    hide Owned;
    assert FileMapped(sb, fs, i, fs.ino[i].size);
  }

  /** What bmap(ip, n) did to file `i`: block `n` is at `addr`, the others where they were. */
  ghost predicate Bmapped(sb: Super, fs: Fs, fs': Fs, i: nat, n: nat, addr: Word) {
    && Extends(sb, fs, fs', i) && n < MAXFILE && addr != 0 && addr == Addr(fs'.blk, fs'.ino[i], n)
    && (forall m: nat :: m < MAXFILE && m != n ==> Addr(fs'.blk, fs'.ino[i], m) == Addr(fs.blk, fs.ino[i], m))
    && (fs'.ino[i].addrs[NDIRECT] != 0 <==> fs.ino[i].addrs[NDIRECT] != 0 || n >= NDIRECT)
    && (Addr(fs.blk, fs.ino[i], n) != 0 ==> fs' == fs)
  }

  /** File `i`, partly written: the bytes `src` are in at `off`, every other file is as in `fs0`, and
      only the size and the disk copy of the inode may lag behind. */
  ghost predicate WriteInv(sb: Super, fs0: Fs, i: nat, off: nat, src: seq<Byte>, fs: Fs) {
    && FsOk(sb, fs0) && i < |fs0.ino| && off <= fs0.ino[i].size && off + |src| <= MAXFILE * BSIZE
    && Stored(sb, fs, i) && OthersSame(sb, fs0, fs, i)
    && |fs.ino| == |fs0.ino| && fs.ino[i] == fs0.ino[i].(addrs := fs.ino[i].addrs)
    && FileWritten(sb, fs0, i, off, src, fs)
    && (off + |src| <= fs0.ino[i].size ==> Stored(sb, fs, -1))
  }

  /** Every disk inode but `skip` is up to date. */
  ghost predicate Stored(sb: Super, fs: Fs, skip: int) { InodesOk(sb, fs) && OnDisk(sb, fs, skip) }

  ghost predicate FileWritten(sb: Super, fs0: Fs, i: nat, off: nat, src: seq<Byte>, fs: Fs) {
    && Consistent(sb, fs) && i < |fs.ino| && i < |fs0.ino| && Covers(sb, fs0, i, fs0.ino[i].size)
       && off <= fs0.ino[i].size
    && var cap := Max(fs0.ino[i].size, off + |src|);
    && Mapped(fs.blk, fs.ino[i], NBlocks(cap)) && Covers(sb, fs, i, cap)
    && Bytes(sb, fs, i, cap) == Splice(Bytes(sb, fs0, i, fs0.ino[i].size), off, src)
  }

  lemma WriteStart(sb: Super, fs0: Fs, i: nat, off: nat)
    requires FsOk(sb, fs0) && i < |fs0.ino| && off <= fs0.ino[i].size
    ensures WriteInv(sb, fs0, i, off, [], fs0)
  {
    hide Owned, Mapped, Bytes;
    FsOkCovers(sb, fs0, i);
    forall j: nat | j < |fs0.ino| ensures FileSame(sb, fs0, fs0, j, fs0.ino[j].size) { FsOkCovers(sb, fs0, j); }
  }

  /** A block more, if the next byte needs one. */
  lemma BlocksAfter(cap: nat, off: nat, m: nat)
    requires off <= cap && 0 < m && off % BSIZE + m <= BSIZE
    ensures off / BSIZE <= NBlocks(cap)
    ensures NBlocks(Max(cap, off + m)) == Max(NBlocks(cap), off / BSIZE + 1)
  {
    var q, r := off / 512, off % 512;
    assert off == 512 * q + r;
    assert (off + m + 511) / 512 == q + 1;
  }

  lemma MappedAfter(sb: Super, fs: Fs, fs': Fs, i: nat, n: nat, addr: Word, nb: nat)
    requires InodesOk(sb, fs) && i < |fs.ino| && Bmapped(sb, fs, fs', i, n, addr)
    requires Mapped(fs.blk, fs.ino[i], nb) && n <= nb
    ensures Mapped(fs'.blk, fs'.ino[i], Max(nb, n + 1))
  {
    hide Owned, OnDisk, AllMapped, Addr;
  }

  lemma MappedSame(sb: Super, fs: Fs, fs': Fs, i: nat, nb: nat)
    requires InodesOk(sb, fs) && InodesOk(sb, fs') && SameSlots(sb, fs, fs', -1) && i < |fs.ino|
    requires Mapped(fs.blk, fs.ino[i], nb)
    ensures Mapped(fs'.blk, fs'.ino[i], nb)
  {
    assert SlotAddr(fs'.blk, fs'.ino[i], MAXFILE) == SlotAddr(fs.blk, fs.ino[i], MAXFILE);
    forall n: nat | n < MAXFILE ensures Addr(fs'.blk, fs'.ino[i], n) == Addr(fs.blk, fs.ino[i], n) {
      assert SlotAddr(fs'.blk, fs'.ino[i], n) == SlotAddr(fs.blk, fs.ino[i], n);
    }
  }

  lemma MappedCovers(sb: Super, fs: Fs, i: nat, len: nat)
    requires Consistent(sb, fs) && i < |fs.ino| && len <= MAXFILE * BSIZE && Mapped(fs.blk, fs.ino[i], NBlocks(len))
    ensures Covers(sb, fs, i, len)
  {
    hide Owned;
  }

  lemma BytesPrefix(sb: Super, fs: Fs, i: nat, len: nat, len': nat)
    requires Covers(sb, fs, i, len) && Covers(sb, fs, i, len') && len <= len'
    ensures Bytes(sb, fs, i, len')[..len] == Bytes(sb, fs, i, len)
  {
    var r, r' := Bytes(sb, fs, i, len), Bytes(sb, fs, i, len');
    hide Covers, Bytes, Addr;
    forall k: nat | k < len ensures r'[k] == r[k] {}
  }

  /** bmap made room for the next chunk and kept the bytes before it. */
  lemma RoomForChunk(sb: Super, fs: Fs, fs1: Fs, i: nat, addr: Word, cap: nat, pos: nat, m: nat)
    requires Covers(sb, fs, i, cap) && Mapped(fs.blk, fs.ino[i], NBlocks(cap))
    requires pos <= cap && 0 < m && pos % BSIZE + m <= BSIZE && pos + m <= MAXFILE * BSIZE
    requires Bmapped(sb, fs, fs1, i, pos / BSIZE, addr)
    ensures Covers(sb, fs1, i, Max(cap, pos + m)) && Mapped(fs1.blk, fs1.ino[i], NBlocks(Max(cap, pos + m)))
    ensures Bytes(sb, fs1, i, Max(cap, pos + m))[..cap] == Bytes(sb, fs, i, cap)
  {
    hide Owned, Mapped, Bytes, Addr;
    BlocksAfter(cap, pos, m);
    MappedAfter(sb, fs, fs1, i, pos / BSIZE, addr, NBlocks(cap));
    MappedCovers(sb, fs1, i, Max(cap, pos + m));
    hide Covers, NBlocks;
    ExtendsBytes(sb, fs, fs1, i, i, cap);
    BytesPrefix(sb, fs1, i, cap, Max(cap, pos + m));
  }

  lemma ChunkIn(sb: Super, fs1: Fs, i: nat, addr: Word, pos: nat, chunk: seq<Byte>, len: nat)
    requires Covers(sb, fs1, i, len) && Mapped(fs1.blk, fs1.ino[i], NBlocks(len))
             && CanChunk(sb, fs1, i, addr, pos, chunk)
    ensures var fs2 := ChunkAt(fs1, addr, pos, chunk);
            && Covers(sb, fs2, i, len) && Mapped(fs2.blk, fs2.ino[i], NBlocks(len))
            && forall k: nat :: k < len ==>
                 Bytes(sb, fs2, i, len)[k] == if pos <= k < pos + |chunk| then chunk[k - pos]
                     else Bytes(sb, fs1, i, len)[k]
  {
    hide Owned, Mapped, Bytes, Addr, NBlocks, SameInodeBlocks;
    ChunkOk(sb, fs1, i, addr, pos, chunk);
    ChunkBytes(sb, fs1, i, addr, pos, chunk, i, len);
    MappedSame(sb, fs1, ChunkAt(fs1, addr, pos, chunk), i, NBlocks(len));
  }

  /** `fs2` is `fs1` with `chunk` stored at `pos`, in the block at `addr`. */
  ghost predicate Chunked(sb: Super, fs1: Fs, i: nat, addr: nat, pos: nat, chunk: seq<Byte>, fs2: Fs) {
    CanChunk(sb, fs1, i, addr, pos, chunk) && fs2 == ChunkAt(fs1, addr, pos, chunk)
  }

  /** One round of writei's loop on the file being written. */
  lemma FileStep(sb: Super, fs0: Fs, i: nat, off: nat, src: seq<Byte>, fs: Fs, fs1: Fs, addr: Word, chunk: seq<Byte>,
                 fs2: Fs)
    requires FileWritten(sb, fs0, i, off, src, fs) && off + |src| + |chunk| <= MAXFILE * BSIZE && 0 < |chunk|
    requires Bmapped(sb, fs, fs1, i, (off + |src|) / BSIZE, addr) && Chunked(sb, fs1, i, addr, off + |src|, chunk, fs2)
    ensures FileWritten(sb, fs0, i, off, src + chunk, fs2)
  {
    hide Owned, Mapped, Bytes, Covers, Addr, Bmapped, CanChunk, NBlocks, Splice;
    var pos := off + |src|;
    var cap := Max(fs0.ino[i].size, pos);
    var cap' := Max(cap, pos + |chunk|);
    CanChunkFits(sb, fs1, i, addr, pos, chunk);
    RoomForChunk(sb, fs, fs1, i, addr, cap, pos, |chunk|);
    ChunkIn(sb, fs1, i, addr, pos, chunk, cap');
    CoversSize(sb, fs2, i, cap');
    SpliceMore(Bytes(sb, fs0, i, fs0.ino[i].size), off, src, chunk, Bytes(sb, fs1, i, cap'), Bytes(sb, fs2, i, cap'));
  }

  lemma CanChunkFits(sb: Super, fs: Fs, i: nat, addr: nat, off: nat, src: seq<Byte>)
    requires CanChunk(sb, fs, i, addr, off, src)
    ensures off % BSIZE + |src| <= BSIZE && addr < |fs.blk|
  {}

  lemma CoversSize(sb: Super, fs: Fs, i: nat, len: nat)
    requires Covers(sb, fs, i, len)
    ensures len <= MAXFILE * BSIZE && Consistent(sb, fs) && i < |fs.ino|
  {}

  /** Splicing on: `r` holds the first part, and `r'` is `r` with the chunk put after it. */
  lemma SpliceMore(c: seq<Byte>, off: nat, src: seq<Byte>, chunk: seq<Byte>, r: seq<Byte>, r': seq<Byte>)
    requires off <= |c| && |r| == |r'| == Max(Max(|c|, off + |src|), off + |src| + |chunk|)
    requires r[..Max(|c|, off + |src|)] == Splice(c, off, src)
    requires forall k: nat ::
             k < |r| ==> r'[k] == if off + |src| <= k < off + |src| + |chunk| then chunk[k - off - |src|] else r[k]
    ensures r' == Splice(c, off, src + chunk)
  {
    var s, s' := Splice(c, off, src), Splice(c, off, src + chunk);
    var cap := Max(|c|, off + |src|);
    hide Splice;
    forall k: nat | k < |r| ensures r'[k] == s'[k] {
      if k < cap { assert r[k] == r[..cap][k] == s[k]; }
    }
  }

  /** One round leaves every other file as it was. */
  lemma OtherFile(sb: Super, fs0: Fs, fs: Fs, fs1: Fs, i: nat, addr: nat, pos: nat, chunk: seq<Byte>, fs2: Fs, j: nat,
                  len: nat)
    requires FileSame(sb, fs0, fs, j, len) && Extends(sb, fs, fs1, i) && Chunked(sb, fs1, i, addr, pos, chunk, fs2)
             && j != i
    ensures FileSame(sb, fs0, fs2, j, len)
  {
    hide Owned, Bytes, Covers, Extends, Addr, SameInodeBlocks;
    ExtendsBytes(sb, fs, fs1, i, j, len);
    ChunkOk(sb, fs1, i, addr, pos, chunk);
    ChunkBytes(sb, fs1, i, addr, pos, chunk, j, len);
    hide CanChunk, ChunkAt, SameSlots;
    assert Bytes(sb, fs2, j, len) == Bytes(sb, fs1, j, len);
  }

  lemma OthersStep(sb: Super, fs0: Fs, fs: Fs, fs1: Fs, i: nat, addr: Word, pos: nat, chunk: seq<Byte>, fs2: Fs)
    requires OthersSame(sb, fs0, fs, i) && Bmapped(sb, fs, fs1, i, pos / BSIZE, addr)
             && Chunked(sb, fs1, i, addr, pos, chunk, fs2)
    ensures OthersSame(sb, fs0, fs2, i) && SameInodeBlocks(sb, fs1, fs2.blk) && InodesOk(sb, fs2) && fs2.ino == fs1.ino
    ensures |fs2.ino| == |fs.ino| && i < |fs.ino| && fs2.ino[i] == fs.ino[i].(addrs := fs2.ino[i].addrs)
  {
    hide Owned, FileSame, FileMapped, SlotKept;
    ChunkOk(sb, fs1, i, addr, pos, chunk);
    assert SameSlots(sb, fs1, fs2, i);
    MappedFrame(sb, fs1, fs2, i);
    assert fs1.ino == fs2.ino;
    forall j: nat | j < |fs0.ino| && j != i ensures FileSame(sb, fs0, fs2, j, fs0.ino[j].size) {
      OtherFile(sb, fs0, fs, fs1, i, addr, pos, chunk, fs2, j, fs0.ino[j].size);
    }
  }

  /** One round of writei's loop: bmap, then the chunk. */
  lemma WriteStep(sb: Super, fs0: Fs, i: nat, off: nat, src: seq<Byte>, fs: Fs, fs1: Fs, addr: Word, chunk: seq<Byte>,
                  fs2: Fs)
    requires WriteInv(sb, fs0, i, off, src, fs) && off + |src| + |chunk| <= MAXFILE * BSIZE && 0 < |chunk|
    requires Bmapped(sb, fs, fs1, i, (off + |src|) / BSIZE, addr) && Chunked(sb, fs1, i, addr, off + |src|, chunk, fs2)
    ensures WriteInv(sb, fs0, i, off, src + chunk, fs2)
  {
    hide FileWritten, Chunked, OthersSame, Bmapped, Stored;
    FileStep(sb, fs0, i, off, src, fs, fs1, addr, chunk, fs2);
    OthersStep(sb, fs0, fs, fs1, i, addr, off + |src|, chunk, fs2);
    StoredStep(sb, fs0, i, off, src, fs, fs1, addr, |chunk|, fs2);
  }

  /** The disk inode lags only once the file grows. */
  lemma StoredStep(sb: Super, fs0: Fs, i: nat, off: nat, src: seq<Byte>, fs: Fs, fs1: Fs, addr: Word, m: nat, fs2: Fs)
    requires WriteInv(sb, fs0, i, off, src, fs) && 0 < m
    requires Bmapped(sb, fs, fs1, i, (off + |src|) / BSIZE, addr)
    requires InodesOk(sb, fs2) && SameInodeBlocks(sb, fs1, fs2.blk) && fs2.ino == fs1.ino
    ensures Stored(sb, fs2, i) && (off + |src| + m <= fs0.ino[i].size ==> Stored(sb, fs2, -1))
  {
    hide Owned, AllMapped, SlotKept, Bytes, Covers, OnDisk, OthersSame, Addr, Splice, SameInodeBlocks;
    DiskFrame(sb, fs1, fs2, i);
    if off + |src| + m <= fs0.ino[i].size {
      BlockBelow(off + |src|, fs0.ino[i].size);
      assert Addr(fs.blk, fs.ino[i], (off + |src|) / BSIZE) != 0;
      DiskFrame(sb, fs1, fs2, -1);
    }
  }

  lemma BlockBelow(pos: nat, size: nat)
    requires pos < size
    ensures pos / BSIZE < NBlocks(size)
  {}

  // ---- The end of writei ----

  function Resized(fs: Fs, i: nat, len: Word): Fs
    requires i < |fs.ino|
  {
    fs.(ino := fs.ino[i := fs.ino[i].(size := len)])
  }

  /** Changing a size field moves no block. */
  lemma ResizedOk(sb: Super, fs: Fs, i: nat, len: Word)
    requires Consistent(sb, fs) && i < |fs.ino|
    ensures Consistent(sb, Resized(fs, i, len)) && SameSlots(sb, fs, Resized(fs, i, len), -1)
  {
    var fs' := Resized(fs, i, len);
    forall j: nat, n: nat | j < |fs.ino| && n <= MAXFILE
      ensures SlotAddr(fs'.blk, fs'.ino[j], n) == SlotAddr(fs.blk, fs.ino[j], n)
    {}
    hide Owned, SlotAddr, Bit;
    forall x: nat | x < sb.size
      ensures Bit(sb, fs'.blk, x) <==> x < sb.datastart || x in fs'.owner
    {
      OwnedBit(sb, fs, x);
    }
    forall x: nat | x in fs.owner
      ensures && sb.datastart <= x < sb.size && fs.owner[x].inum < |fs.ino| && fs.owner[x].n <= MAXFILE
              && SlotAddr(fs'.blk, fs'.ino[fs.owner[x].inum], fs.owner[x].n) == x
    {
      OwnedBlock(sb, fs, x);
    }
    forall j: nat, n: nat | j < |fs.ino| && n <= MAXFILE ensures SlotOwns(sb, fs', j, n) { OwnedSlot(sb, fs, j, n); }
    OwnedParts(sb, fs');
  }

  ghost predicate SameData(sb: Super, fs: Fs, fs': Fs) {
    |fs'.blk| == |fs.blk| == sb.size && forall x: nat :: sb.datastart <= x < sb.size ==> fs'.blk[x] == fs.blk[x]
  }

  /** Same slots and same data blocks: same bytes. */
  lemma SameBytes(sb: Super, fs: Fs, fs': Fs, j: nat, len: nat)
    requires Covers(sb, fs, j, len) && Consistent(sb, fs') && SameSlots(sb, fs, fs', -1) && SameData(sb, fs, fs')
    ensures FileSame(sb, fs, fs', j, len)
  {
    CoversFrame(sb, fs, fs', j, len);
    var r, r' := Bytes(sb, fs, j, len), Bytes(sb, fs', j, len);
    hide Owned, Bytes, Addr, Covers;
    forall k: nat | k < len ensures r'[k] == r[k] {
      CoveredByte(sb, fs, j, len, k);
      assert SlotAddr(fs'.blk, fs'.ino[j], k / BSIZE) == SlotAddr(fs.blk, fs.ino[j], k / BSIZE);
    }
  }

  /** The contents of file `i`. */
  ghost function Contents(sb: Super, fs: Fs, i: nat): seq<Byte>
    requires FsOk(sb, fs) && i < |fs.ino|
  {
    FsOkCovers(sb, fs, i);
    Bytes(sb, fs, i, fs.ino[i].size)
  }

  ghost predicate OtherFiles(sb: Super, fs0: Fs, i: nat, fs: Fs)
    requires FsOk(sb, fs0) && FsOk(sb, fs)
  {
    forall j: nat :: j < |fs.ino| && j != i ==> fs.ino[j] == fs0.ino[j] && Contents(sb, fs, j) == Contents(sb, fs0, j)
  }

  /** What writei promises: file `i` is the old file spliced, everything else is as it was, and
      the on-disk inodes are up to date again. */
  ghost predicate Written(sb: Super, fs0: Fs, i: nat, off: nat, src: seq<Byte>, fs: Fs) {
    && FsOk(sb, fs0) && FsOk(sb, fs) && i < |fs0.ino| == |fs.ino| && off <= fs0.ino[i].size
    && fs.ino[i].size == Max(fs0.ino[i].size, off + |src|)
    && fs.ino[i] == fs0.ino[i].(size := fs.ino[i].size, addrs := fs.ino[i].addrs)
    && Contents(sb, fs, i) == Splice(Contents(sb, fs0, i), off, src)
    && OtherFiles(sb, fs0, i, fs)
  }

  /** The last step of writei, from a state that differs from `fs` only in sizes and disk inodes. */
  lemma WriteEnd(sb: Super, fs0: Fs, i: nat, off: nat, src: seq<Byte>, fs: Fs, fs': Fs)
    requires WriteInv(sb, fs0, i, off, src, fs)
    requires Consistent(sb, fs') && Stored(sb, fs', -1) && SameSlots(sb, fs, fs', -1) && SameData(sb, fs, fs')
    requires |fs'.ino| == |fs.ino| && Max(fs0.ino[i].size, off + |src|) < 0x1_0000_0000
    requires fs'.ino == Resized(fs, i, Max(fs0.ino[i].size, off + |src|)).ino
    ensures Written(sb, fs0, i, off, src, fs')
  {
    hide Owned, OnDisk, Bytes, Splice, Covers, FileMapped, SameSlots, SameData;
    var len := Max(fs0.ino[i].size, off + |src|);
    CoversSize(sb, fs, i, len);
    MappedSame(sb, fs, fs', i, NBlocks(len));
    assert FileMapped(sb, fs', i, len) by { IsFileMapped(sb, fs', i, len); }
    SameSlotsSkip(sb, fs, fs', i);
    MappedFrame(sb, fs, fs', i);
    SameBytes(sb, fs, fs', i, len);
    assert FsOk(sb, fs');
    forall j: nat | j < |fs.ino| && j != i
      ensures fs'.ino[j] == fs0.ino[j] && Contents(sb, fs', j) == Contents(sb, fs0, j)
    {
      assert FileSame(sb, fs0, fs, j, fs0.ino[j].size);
      SameBytes(sb, fs, fs', j, fs0.ino[j].size);
    }
  }

  lemma IsFileMapped(sb: Super, fs: Fs, i: nat, len: nat)
    requires InodesOk(sb, fs) && i < |fs.ino| && Mapped(fs.blk, fs.ino[i], NBlocks(len))
    ensures FileMapped(sb, fs, i, len)
  {}

  lemma SameSlotsSkip(sb: Super, fs: Fs, fs': Fs, i: nat)
    requires InodesOk(sb, fs) && InodesOk(sb, fs') && SameSlots(sb, fs, fs', -1)
    ensures SameSlots(sb, fs, fs', i)
  {}

  /** The write stayed inside the file: no iupdate, and none is needed. */
  lemma WriteInside(sb: Super, fs0: Fs, i: nat, off: nat, src: seq<Byte>, fs: Fs)
    requires WriteInv(sb, fs0, i, off, src, fs) && off + |src| <= fs0.ino[i].size
    ensures Written(sb, fs0, i, off, src, fs)
  {
    hide Owned, OnDisk, FileWritten, OthersSame;
    WriteInvParts(sb, fs0, i, off, src, fs);
    assert fs.ino == Resized(fs, i, fs0.ino[i].size).ino;
    WriteEnd(sb, fs0, i, off, src, fs, fs);
  }

  lemma WriteInvParts(sb: Super, fs0: Fs, i: nat, off: nat, src: seq<Byte>, fs: Fs)
    requires WriteInv(sb, fs0, i, off, src, fs)
    ensures Consistent(sb, fs) && i < |fs.ino| == |fs0.ino| && SameSlots(sb, fs, fs, -1) && OnDisk(sb, fs, i)
    ensures fs.ino[i].size == fs0.ino[i].size && off + |src| <= MAXFILE * BSIZE
  {}

  /** Setting the size and storing the inode moves no block and no byte. */
  lemma GrewOk(sb: Super, fs: Fs, i: nat, fs1: Fs, fs2: Fs)
    requires Consistent(sb, fs) && i < |fs.ino| && OnDisk(sb, fs, i)
    requires i < |fs1.ino| && fs1 == Resized(fs, i, fs1.ino[i].size) && InodesOk(sb, fs1) && fs2 == Updated(sb, fs1, i)
    ensures Consistent(sb, fs2) && Stored(sb, fs2, -1) && SameSlots(sb, fs, fs2, -1) && SameData(sb, fs, fs2)
            && fs2.ino == fs1.ino
  {
    ResizedOk(sb, fs, i, fs1.ino[i].size);
    hide Owned, PutInode, SlotAddr, GetInode;
    DiskFrame(sb, fs, fs1, i);
    hide OnDisk;
    UpdatedOk(sb, fs1, i);
  }

  /** The write ran past the end: the new size is set and iupdate stores the inode. */
  lemma WriteGrew(sb: Super, fs0: Fs, i: nat, off: nat, src: seq<Byte>, fs: Fs, fs1: Fs, fs2: Fs)
    requires WriteInv(sb, fs0, i, off, src, fs) && fs0.ino[i].size < off + |src| < 0x1_0000_0000 && i < |fs.ino|
    requires fs1 == Resized(fs, i, off + |src|)
    requires InodesOk(sb, fs1) && fs2 == Updated(sb, fs1, i)
    ensures Written(sb, fs0, i, off, src, fs2)
  {
    WriteInvParts(sb, fs0, i, off, src, fs);
    hide Owned, WriteInv, PutInode, SlotAddr, OnDisk, SameSlots, SameData, Stored, Updated, Written;
    GrewOk(sb, fs, i, fs1, fs2);
    WriteEnd(sb, fs0, i, off, src, fs, fs2);
  }
}
