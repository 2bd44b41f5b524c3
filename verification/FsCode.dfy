/** fs.c's block allocator and file contents as code.  `blk` is the disk as seen through the
    buffer cache: bread, modify, log_write, brelse of one block is one assignment to it. */
module FsCode {
  import opened Blocks
  import opened LogSpec
  import opened FsSpec
  import opened FsBlocks
  import opened FsFiles
  import opened FsTrunc
  import opened FsLog

  datatype ReadResult = ReadDevice | ReadError | Data(bytes: seq<Byte>)

  datatype WriteResult = WriteDevice | WriteError | OutOfBlocks | Done

  /** An in-memory inode, locked by the caller. */
  class Inode {
    const inum: nat
    var typ: int
    var major: int
    var minor: int
    var nlink: int
    var size: Word
    var addrs: seq<Word>

    constructor (inum: nat, d: Dinode)
      ensures this.inum == inum && Val() == d
    {
      this.inum, typ, major, minor, nlink, size, addrs := inum, d.typ, d.major, d.minor, d.nlink, d.size, d.addrs;
    }

    function Val(): Dinode
      reads this
    {
      Dinode(typ, major, minor, nlink, size, addrs)
    }
  }

  /** "balloc: out of blocks": every bit of the bitmap is set. */
  ghost predicate DiskFull(sb: Super, blk: seq<Block>) {
    LayoutOk(sb) && |blk| == sb.size && forall x: nat :: x < sb.size ==> Bit(sb, blk, x)
  }

  class FileSystem {
    const sb: Super
    var blk: seq<Block>
    ghost var ino: seq<Dinode>
    ghost var owner: map<nat, Slot>
    ghost var stores: seq<Write>  // all blocks handed to log_write, with their contents

    ghost function Logged(): set<nat>
      reads this`stores
    {
      AddrsOf(stores)
    }

    ghost function State(): Fs
      reads this
    {
      Fs(blk, ino, owner)
    }

    /** bread of block `a`, the change that makes it `b`, log_write and brelse. */
    method Put(a: nat, b: Block)
      requires sb.inodestart <= a < |blk|
      modifies this`blk, this`stores
      ensures blk == old(blk)[a := b] && Logged() == old(Logged()) + {a}
      ensures Did(old(blk), old(stores), blk, stores, sb.inodestart)
    {
      DidNone(blk, stores, sb.inodestart);
      DidOne(blk, stores, blk, stores, sb.inodestart, Write(a, b));
      AddrsMore(stores, Write(a, b));
      blk := blk[a := b];
      stores := stores + [Write(a, b)];
    }

    /** balloc's inner loop: the first clear bit of one bitmap block. */
    method ScanBlock(base: nat) returns (bi: nat)
      requires LayoutOk(sb) && |blk| == sb.size && base < sb.size && base % BPB == 0
      ensures bi <= BPB && base + bi <= sb.size
      ensures bi < BPB && base + bi < sb.size ==> !Bit(sb, blk, base + bi)
      ensures forall x: nat :: base <= x < base + bi ==> Bit(sb, blk, x)
    {
      hide TestBit;
      bi := 0;
      while bi < BPB && base + bi < sb.size
        invariant bi <= BPB && base + bi <= sb.size
        invariant forall x: nat :: base <= x < base + bi ==> Bit(sb, blk, x)
      {
        BitIndex(base, bi);
        if !TestBit(blk[BBlock(sb, base)][bi / 8], bi % 8) { return; }
        bi := bi + 1;
      }
    }

    /** Find a free block, mark it in use and zero it; false is the "out of blocks" panic. */
    method Balloc() returns (ok: bool, b: Word)
      requires Consistent(sb, State())
      modifies this`blk, this`stores
      ensures ok ==> sb.datastart <= b < sb.size && b !in owner && blk == Allocated(sb, old(blk), b)
      ensures ok ==> forall x: nat :: x < b ==> Bit(sb, old(blk), x)
      ensures ok ==> Logged() == old(Logged()) + {BBlock(sb, b), b as nat}
      ensures Did(old(blk), old(stores), blk, stores, sb.inodestart)
      ensures !ok ==> unchanged(this) && DiskFull(sb, blk)
    {
      hide Owned, Allocated, Bit, PutBit, Did, AddrsOf;
      DidNone(blk, stores, sb.inodestart);
      var base := 0;
      while base < sb.size
        invariant base % BPB == 0 && blk == old(blk) && stores == old(stores)
        invariant forall x: nat :: x < base && x < sb.size ==> Bit(sb, blk, x)
      {
        var bi := ScanBlock(base);
        var a := base + bi;
        if bi < BPB && a < sb.size {
          OwnedBit(sb, State(), a);
          PutBitBlock(sb, blk, a, true);
          Put(BBlock(sb, a), PutBit(sb, blk, a, true)[BBlock(sb, a)]);
          AllocatedIs(sb, old(blk), a);
          ghost var b1, h1 := blk, stores;
          Put(a, ZeroBlock());
          DidTrans(old(blk), old(stores), b1, h1, blk, stores, sb.inodestart);
          return true, a;
        }
        NextBase(base);
        base := base + BPB;
      }
      return false, 0;
    }

    /** Clear the block's bit; true is the "freeing free block" panic. */
    method Bfree(b: nat) returns (panic: bool)
      requires LayoutOk(sb) && |blk| == sb.size && b < sb.size
      modifies this`blk, this`stores
      ensures panic <==> !Bit(sb, old(blk), b)
      ensures blk == if panic then old(blk) else PutBit(sb, old(blk), b, false)
      ensures !panic ==> Logged() == old(Logged()) + {BBlock(sb, b)}
      ensures Did(old(blk), old(stores), blk, stores, sb.inodestart)
    {
      hide TestBit, ByteWithBit, Did, AddrsOf;
      DidNone(blk, stores, sb.inodestart);
      var bi := b % BPB;
      BitOfByte(b);
      var data := blk[BBlock(sb, b)];
      if !TestBit(data[bi / 8], bi % 8) { return true; }
      Put(BBlock(sb, b), data[bi / 8 := ByteWithBit(data[bi / 8], bi % 8, false)]);
      return false;
    }

    /** `slot = balloc(dev)` for slot n of the inode: a direct address, the indirect address, or an
        entry of the indirect block. */
    method GrowSlot(ip: Inode, n: nat) returns (ok: bool, a: Word)
      requires Consistent(sb, State()) && ip.inum < |ino| && ip.Val() == ino[ip.inum] && n <= MAXFILE
      requires SlotAddr(blk, ino[ip.inum], n) == 0 && (NDIRECT <= n < MAXFILE ==> ip.addrs[NDIRECT] != 0)
      modifies this`blk, this`ino, this`owner, this`stores, ip`addrs
      ensures ok ==> CanGrow(sb, old(State()), ip.inum, n, a) && State() == Grown(sb, old(State()), ip.inum, n, a)
      ensures ok ==> Consistent(sb, State()) && |ino| == |old(ino)| && ip.Val() == ino[ip.inum]
      ensures !ok ==> unchanged(this) && unchanged(ip) && DiskFull(sb, blk)
      ensures ok ==> Gains(old(owner), owner, ip.inum, n, n + 1)
      ensures ok ==> Logged() == old(Logged()) + AllocLog(sb, old(owner), owner, ip.inum)
      ensures Did(old(blk), old(stores), blk, stores, sb.inodestart)
    {
      hide Owned, Allocated, DiskFull, AllocLog, Gains, SlotAddr, Did, AddrsOf, Grown;
      ghost var fs, h, i := State(), stores, ip.inum;
      ok, a := Balloc();
      if !ok { return; }
      GrownOk(sb, fs, i, n, a);
      AllocGrown(sb, fs, i, n, a);
      ghost var b1, h1 := blk, stores;
      SetSlot(ip, n, a, fs);
      DidTrans(fs.blk, h, b1, h1, blk, stores, sb.inodestart);
    }

    /** The address of the block just allocated goes into its slot. */
    method SetSlot(ip: Inode, n: nat, a: Word, ghost fs: Fs)
      requires Consistent(sb, fs) && CanGrow(sb, fs, ip.inum, n, a)
      requires ip.inum < |ino| && ip.Val() == ino[ip.inum]
      requires blk == Allocated(sb, fs.blk, a) && ino == fs.ino && owner == fs.owner
      modifies this`blk, this`ino, this`owner, this`stores, ip`addrs
      ensures State() == Grown(sb, fs, ip.inum, n, a) && owner == fs.owner[a as nat := Slot(ip.inum, n)]
      ensures |ino| == |fs.ino| && ip.Val() == ino[ip.inum]
      ensures Logged() == old(Logged()) + if NDIRECT <= n < MAXFILE then {fs.ino[ip.inum].addrs[NDIRECT] as nat} else {}
      ensures Did(old(blk), old(stores), blk, stores, sb.inodestart)
    {
      hide Owned, Allocated, SlotAddr, Did, AddrsOf;
      DidNone(blk, stores, sb.inodestart);
      if n < NDIRECT {
        ip.addrs := ip.addrs[n := a];
      } else if n == MAXFILE {
        ip.addrs := ip.addrs[NDIRECT := a];
      } else {
        IndirectPlace(sb, fs, ip.inum);
        Put(ip.addrs[NDIRECT], PutWord(blk[ip.addrs[NDIRECT]], n - NDIRECT, a));
      }
      ino := ino[ip.inum := GrownInode(ino[ip.inum], n, a)];
      owner := owner[a := Slot(ip.inum, n)];
    }

    /** The disk block of the bn-th block of the file, allocating it if there is none; false is the
        "out of blocks" panic. */
    method Bmap(ip: Inode, bn: nat) returns (ok: bool, addr: Word)
      requires Consistent(sb, State()) && ip.inum < |ino| && ip.Val() == ino[ip.inum] && bn < MAXFILE
      modifies this`blk, this`ino, this`owner, this`stores, ip`addrs
      ensures ok ==> Extends(sb, old(State()), State(), ip.inum) && ip.Val() == ino[ip.inum]
      ensures ok ==> addr != 0 && addr == Addr(blk, ino[ip.inum], bn)
      ensures ok ==> forall m: nat :: m < MAXFILE && m != bn ==>
                Addr(blk, ino[ip.inum], m) == old(Addr(blk, ino[ip.inum], m))
      ensures ok ==> (ip.addrs[NDIRECT] != 0 <==> old(ip.addrs[NDIRECT]) != 0 || bn >= NDIRECT)
      ensures old(Addr(blk, ino[ip.inum], bn)) != 0 ==> ok && unchanged(this) && unchanged(ip)
      ensures !ok ==> DiskFull(sb, blk)
      ensures ok ==> Gains(old(owner), owner, ip.inum, bn, bn + 1)
      ensures ok ==> Logged() == old(Logged()) + AllocLog(sb, old(owner), owner, ip.inum)
      ensures Did(old(blk), old(stores), blk, stores, sb.inodestart)
    {
      hide Owned, Extends, Grown, DiskFull, AllocLog, Gains, Did, AddrsOf;
      ghost var fs, h, i := State(), stores, ip.inum;
      DidNone(fs.blk, h, sb.inodestart);
      ExtendsRefl(sb, fs, i);
      AllocNone(sb, fs.owner, i, bn, bn + 1);
      if bn < NDIRECT {
        addr := ip.addrs[bn];
        if addr != 0 { return true, addr; }
        ok, addr := GrowSlot(ip, bn);
        if ok { GrowsAt(sb, fs, i, bn, addr); }
        return;
      }
      // Load the indirect block, allocating if necessary.
      if ip.addrs[NDIRECT] == 0 {
        ok, addr := GrowSlot(ip, MAXFILE);
        if !ok { return; }
        GrowsAt(sb, fs, i, MAXFILE, addr);
        GainsIndirect(fs.owner, owner, i, bn);
      }
      ghost var fs1, h1 := State(), stores;
      addr := GetWord(blk[ip.addrs[NDIRECT]], bn - NDIRECT);
      if addr == 0 {
        ok, addr := GrowSlot(ip, bn);
        DidTrans(fs.blk, h, fs1.blk, h1, blk, stores, sb.inodestart);
        if !ok { return; }
        GrowsAt(sb, fs1, i, bn, addr);
        ExtendsTrans(sb, fs, fs1, State(), i);
        AllocTrans(sb, fs.owner, fs1.owner, owner, i, bn, bn + 1, bn, bn + 1);
        GainsRound(fs.owner, fs1.owner, owner, i, bn, bn + 1, bn);
      }
      ok := true;
    }

    /** Copy the in-memory inode to its place on disk. */
    method Iupdate(ip: Inode)
      requires InodesOk(sb, State()) && ip.inum < |ino| && ip.Val() == ino[ip.inum]
      modifies this`blk, this`stores
      ensures State() == Updated(sb, old(State()), ip.inum)
      ensures Logged() == old(Logged()) + {IBlock(sb, ip.inum)}
      ensures Did(old(blk), old(stores), blk, stores, sb.inodestart)
    {
      hide Did, AddrsOf;
      var b := IBlock(sb, ip.inum);
      Put(b, PutInode(blk[b], ip.inum % IPB, Dinode(ip.typ, ip.major, ip.minor, ip.nlink, ip.size, ip.addrs)));
    }

    /** The part of the file from `off` on, at most `n` bytes of it.  Nothing is allocated. */
    method Readi(ip: Inode, off: Word, n: Word) returns (r: ReadResult)
      requires FsOk(sb, State()) && ip.inum < |ino| && ip.Val() == ino[ip.inum]
      modifies this`blk, this`ino, this`owner, this`stores, ip`addrs
      ensures unchanged(this) && unchanged(ip)
      ensures r == if ip.typ == T_DEV then ReadDevice
                   else if off > ip.size || off + n >= 0x1_0000_0000 then ReadError
                   else var c := Contents(sb, State(), ip.inum);
                       Data(c[off..if off + n > ip.size then ip.size else off + n])
    {
      hide Owned, Contents, Bytes, OnDisk, AllMapped, Addr, FsOk, Covers, InodesOk;
      if ip.typ == T_DEV { return ReadDevice; }
      if off > ip.size || off + n >= 0x1_0000_0000 { return ReadError; }
      var left := if off + n > ip.size then ip.size - off else n;
      ghost var fs, size := State(), ip.size;
      ContentsAre(sb, fs, ip.inum);
      ghost var c := Contents(sb, fs, ip.inum);
      var tot, dst := 0, [];
      while tot < left
        invariant tot == |dst| <= left && off + left <= size == |c| && unchanged(this) && unchanged(ip)
        invariant dst == c[off..off + tot]
      {
        var chunk := ReadBlock(ip, off + tot, left - tot);
        SliceMore(c, off, tot, |chunk|);
        dst := dst + chunk;
        tot := tot + |chunk|;
      }
      return Data(dst);
    }

    /** One round of readi's loop: as much as one block gives. */
    method ReadBlock(ip: Inode, pos: nat, left: nat) returns (chunk: seq<Byte>)
      requires FsOk(sb, State()) && ip.inum < |ino| && ip.Val() == ino[ip.inum] && 0 < left && pos + left <= ip.size
      modifies this`blk, this`ino, this`owner, this`stores, ip`addrs
      ensures unchanged(this) && unchanged(ip)
      ensures 0 < |chunk| <= left && |Contents(sb, State(), ip.inum)| == ip.size
              && chunk == Contents(sb, State(), ip.inum)[pos..pos + |chunk|]
    {
      hide Owned, Contents, Bytes, OnDisk, AllMapped, Addr, FsOk, Covers, InodesOk, Extends, DiskFull;
      ContentsAre(sb, State(), ip.inum);
      ReadStep(sb, State(), ip.inum, pos, ip.size);
      var ok, addr := Bmap(ip, pos / BSIZE);
      var m := Min(left, BSIZE - pos % BSIZE);
      ReadChunk(sb, State(), ip.inum, ip.size, Contents(sb, State(), ip.inum), pos, m, blk[addr]);
      chunk := blk[addr][pos % BSIZE..pos % BSIZE + m];
    }

    /** Store `src` at `off`, growing the file when it runs past the end; `logs` are the blocks logged. */
    method Writei(ip: Inode, src: seq<Byte>, off: Word) returns (r: WriteResult, ghost logs: set<nat>)
      requires FsOk(sb, State()) && ip.inum < |ino| && ip.Val() == ino[ip.inum] && |src| < 0x1_0000_0000
      modifies this`blk, this`ino, this`owner, this`stores, ip`addrs, ip`size
      ensures r == WriteDevice <==> ip.typ == T_DEV
      ensures r == WriteError <==>
                ip.typ != T_DEV && (off > old(ip.size) || off + |src| >= 0x1_0000_0000 || off + |src| > MAXFILE * BSIZE)
      ensures r == WriteDevice || r == WriteError ==> unchanged(this) && unchanged(ip)
      ensures r == OutOfBlocks ==> DiskFull(sb, blk)
      ensures r == Done ==> Written(sb, old(State()), ip.inum, off, src, State()) && ip.Val() == ino[ip.inum]
      ensures r == Done ==> Logged() == old(Logged()) + logs
      ensures r == Done ==> |logs| == WriteSize(sb, old(State()), ip.inum, off, |src|, owner)
      ensures Did(old(blk), old(stores), blk, stores, sb.inodestart)
    {
      hide Did, AddrsOf;
      DidNone(blk, stores, sb.inodestart);
      hide Owned, OnDisk, AllMapped, Written, WriteInv, DiskFull, Logging, LastBlock, Bitmaps, News, IndirectChanged;
      logs := {};
      if ip.typ == T_DEV { return WriteDevice, logs; }
      if off > ip.size || off + |src| >= 0x1_0000_0000 { return WriteError, logs; }
      if off + |src| > MAXFILE * BSIZE { return WriteError, logs; }
      ghost var fs0, i := State(), ip.inum;
      WriteStart(sb, fs0, i, off);
      var ok;
      ok, logs := WriteLoop(ip, src, off);
      if !ok { return OutOfBlocks, logs; }
      ghost var fs, h := State(), stores;
      LoopSize(sb, fs0, i, off, src, fs, logs);
      if |src| > 0 && off + |src| > ip.size {
        Enlarge(ip, off + |src|, fs0, off, src);
        DidTrans(fs0.blk, old(stores), fs.blk, h, blk, stores, sb.inodestart);
        logs := logs + {IBlock(sb, i)};
      } else {
        WriteInside(sb, fs0, i, off, src, fs);
      }
      return Done, logs;
    }

    /** The end of a write that ran past the end of the file. */
    method Enlarge(ip: Inode, size: Word, ghost fs0: Fs, ghost off: nat, ghost src: seq<Byte>)
      requires WriteInv(sb, fs0, ip.inum, off, src, State()) && ip.inum < |ino| && ip.Val() == ino[ip.inum]
      requires size == off + |src| && fs0.ino[ip.inum].size < size
      modifies this`blk, this`ino, this`stores, ip`size
      ensures Written(sb, fs0, ip.inum, off, src, State()) && ip.inum < |ino| && ip.Val() == ino[ip.inum]
      ensures Logged() == old(Logged()) + {IBlock(sb, ip.inum)}
      ensures Did(old(blk), old(stores), blk, stores, sb.inodestart)
    {
      hide Owned, OnDisk, AllMapped, Written, WriteInv, Did, AddrsOf;
      ghost var fs, i := State(), ip.inum;
      WriteInvParts(sb, fs0, i, off, src, fs);
      ip.size := size;
      ino := ino[i := ino[i].(size := size)];
      ghost var fs1 := State();
      Iupdate(ip);
      WriteGrew(sb, fs0, i, off, src, fs, fs1, State());
    }

    /** writei's loop. */
    method WriteLoop(ip: Inode, src: seq<Byte>, off: Word) returns (ok: bool, ghost logs: set<nat>)
      requires WriteInv(sb, State(), ip.inum, off, [], State()) && ip.inum < |ino| && ip.Val() == ino[ip.inum]
      requires off + |src| <= MAXFILE * BSIZE
      modifies this`blk, this`ino, this`owner, this`stores, ip`addrs
      ensures !ok ==> DiskFull(sb, blk)
      ensures ok ==> WriteInv(sb, old(State()), ip.inum, off, src, State())
      ensures ok ==> ip.inum < |ino| && ip.Val() == ino[ip.inum]
      ensures ok ==> Logged() == old(Logged()) + logs
      ensures ok ==> Logging(sb, old(owner), owner, ip.inum, off / BSIZE, LastBlock(off, |src|), logs)
      ensures Did(old(blk), old(stores), blk, stores, sb.inodestart)
    {
      hide WriteInv, DiskFull, Logging, LastBlock, Did, AddrsOf;
      DidNone(blk, stores, sb.inodestart);
      ghost var fs0, i := State(), ip.inum;
      logs := {};
      LoggingNone(sb, fs0.owner, i, off);
      var tot := 0;
      while tot < |src|
        invariant tot <= |src| && i < |ino| && ip.Val() == ino[i] && Logged() == old(Logged()) + logs
        invariant WriteInv(sb, fs0, i, off, src[..tot], State())
        invariant Did(old(blk), old(stores), blk, stores, sb.inodestart)
        invariant Logging(sb, fs0.owner, owner, i, off / BSIZE, LastBlock(off, tot), logs)
      {
        var m := Min(|src| - tot, BSIZE - (off + tot) % BSIZE);
        ghost var done, chunk := src[..tot], src[tot..tot + m];
        ghost var b1, h1 := blk, stores;
        ok, logs := WriteChunk(ip, src[tot..tot + m], off + tot, fs0, off, done, logs);
        DidTrans(old(blk), old(stores), b1, h1, blk, stores, sb.inodestart);
        if !ok { return; }
        assert done + chunk == src[..tot + m];
        tot := tot + m;
      }
      assert src[..tot] == src;
      ok := true;
    }

    /** One round of writei's loop: `done` has been stored, and `chunk` goes into the block at `pos`. */
    method WriteChunk(ip: Inode, chunk: seq<Byte>, pos: nat, ghost fs0: Fs, ghost off: nat, ghost done: seq<Byte>,
                      ghost before: set<nat>) returns (ok: bool, ghost logs: set<nat>)
      requires WriteInv(sb, fs0, ip.inum, off, done, State()) && ip.inum < |ino| && ip.Val() == ino[ip.inum]
      requires pos == off + |done| && 0 < |chunk| && pos % BSIZE + |chunk| <= BSIZE && pos + |chunk| <= MAXFILE * BSIZE
      requires Logging(sb, fs0.owner, owner, ip.inum, off / BSIZE, LastBlock(off, |done|), before) && before <= Logged()
      modifies this`blk, this`ino, this`owner, this`stores, ip`addrs
      ensures !ok ==> DiskFull(sb, blk)
      ensures ok ==>
              WriteInv(sb, fs0, ip.inum, off, done + chunk, State()) && ip.inum < |ino| && ip.Val() == ino[ip.inum]
      ensures ok ==> Logging(sb, fs0.owner, owner, ip.inum, off / BSIZE, LastBlock(off, |done + chunk|), logs)
      ensures ok ==> before <= logs && Logged() == old(Logged()) + logs
      ensures Did(old(blk), old(stores), blk, stores, sb.inodestart)
    {
      hide Did, AddrsOf;
      hide Owned, OnDisk, AllMapped, WriteInv, Bmapped, Extends, Chunked, DiskFull, Logging, AllocLog, Gains,
          LastBlock, Injective;
      ghost var fs, i, n := State(), ip.inum, pos / BSIZE;
      WriteInvParts(sb, fs0, i, off, done, fs);
      var addr;
      ok, addr := Bmap(ip, pos / BSIZE);
      logs := before;
      if !ok { return; }
      ghost var fs1 := State();
      BmapDid(sb, fs, fs1, i, n, addr);
      ChunkLogged(sb, fs0, fs, fs1, i, off, |done|, |chunk|, addr, before);
      logs := before + AllocLog(sb, fs.owner, owner, i) + {addr as nat};
      ghost var h1 := stores;
      OwnedSlot(sb, fs1, i, n);
      Put(addr, PutBytes(blk[addr], pos % BSIZE, chunk));
      DidTrans(fs.blk, old(stores), fs1.blk, h1, blk, stores, sb.inodestart);
      ChunkDid(sb, fs1, i, addr, pos, chunk, State());
      WriteStep(sb, fs0, i, off, done, fs, fs1, addr, chunk, State());
    }

    /** Discard the file's contents.  The "freeing free block" panic cannot happen. */
    method Itrunc(ip: Inode) returns (panic: bool)
      requires FsOk(sb, State()) && ip.inum < |ino| && ip.Val() == ino[ip.inum]
      modifies this`blk, this`ino, this`owner, this`stores, ip`addrs, ip`size
      ensures !panic && Truncated(sb, old(State()), ip.inum, State()) && ip.Val() == ino[ip.inum]
      ensures Did(old(blk), old(stores), blk, stores, sb.inodestart)
    {
      hide Did, AddrsOf;
      DidNone(blk, stores, sb.inodestart);
      hide Owned, OnDisk, AllMapped, Freeing, Truncated, Bit, PutBit;
      ghost var fs0, i := State(), ip.inum;
      FreeStart(sb, fs0, i);
      panic := false;
      var k := 0;
      while k < NDIRECT
        invariant k <= NDIRECT && !panic && Freeing(sb, fs0, i, k, blk) && |blk| == sb.size
        invariant Did(old(blk), old(stores), blk, stores, sb.inodestart)
        invariant |ip.addrs| == NDIRECT + 1
        invariant forall n: nat :: n <= NDIRECT ==> ip.addrs[n] == if n < k then 0 else fs0.ino[i].addrs[n]
        modifies this`blk, this`stores, ip`addrs
      {
        FreeStep(sb, fs0, i, k, blk);
        if ip.addrs[k] != 0 {
          ghost var b1, h1 := blk, stores;
          panic := Bfree(ip.addrs[k]);
          DidTrans(old(blk), old(stores), b1, h1, blk, stores, sb.inodestart);
          ip.addrs := ip.addrs[k := 0];
        }
        k := k + 1;
      }
      if ip.addrs[NDIRECT] != 0 {
        ghost var b1, h1 := blk, stores;
        panic := FreeIndirect(ip, fs0);
        DidTrans(old(blk), old(stores), b1, h1, blk, stores, sb.inodestart);
      } else {
        NoIndirect(sb, fs0, i, blk);
      }
      ip.size := 0;
      assert ip.addrs == NoBlocks();
      ino := ino[i := Emptied(ino[i])];
      owner := Disowned(owner, i);
      ghost var fs1 := State();
      ClearedSlot(sb, fs0, i, fs1, i, 0);
      ghost var h2 := stores;
      Iupdate(ip);
      DidTrans(old(blk), old(stores), fs1.blk, h2, blk, stores, sb.inodestart);
      TruncEnd(sb, fs0, i, fs1, State());
    }

    /** The second half of itrunc: the blocks in the indirect block, then the indirect block. */
    method FreeIndirect(ip: Inode, ghost fs0: Fs) returns (panic: bool)
      requires Freeing(sb, fs0, ip.inum, NDIRECT, blk) && |ip.addrs| == NDIRECT + 1
      requires ip.addrs[NDIRECT] == fs0.ino[ip.inum].addrs[NDIRECT] != 0
      modifies this`blk, this`stores, ip`addrs
      ensures !panic && Freeing(sb, fs0, ip.inum, MAXFILE + 1, blk) && ip.addrs == old(ip.addrs)[NDIRECT := 0]
      ensures Did(old(blk), old(stores), blk, stores, sb.inodestart)
    {
      hide Freeing, Bit, PutBit, Did, AddrsOf;
      DidNone(blk, stores, sb.inodestart);
      FreeingParts(sb, fs0, ip.inum, NDIRECT, blk);
      var a := blk[ip.addrs[NDIRECT]];
      panic := false;
      var j := 0;
      while j < NINDIRECT
        invariant j <= NINDIRECT && !panic && Freeing(sb, fs0, ip.inum, NDIRECT + j, blk) && |blk| == sb.size
        invariant Did(old(blk), old(stores), blk, stores, sb.inodestart)
        modifies this`blk, this`stores
      {
        FreeStep(sb, fs0, ip.inum, NDIRECT + j, blk);
        if GetWord(a, j) != 0 {
          ghost var b1, h1 := blk, stores;
          panic := Bfree(GetWord(a, j));
          DidTrans(old(blk), old(stores), b1, h1, blk, stores, sb.inodestart);
        }
        j := j + 1;
      }
      FreeStep(sb, fs0, ip.inum, MAXFILE, blk);
      ghost var b2, h2 := blk, stores;
      panic := Bfree(ip.addrs[NDIRECT]);
      DidTrans(old(blk), old(stores), b2, h2, blk, stores, sb.inodestart);
      ip.addrs := ip.addrs[NDIRECT := 0];
    }
  }

  function Min(a: nat, b: nat): nat { if a < b then a else b }

  lemma ReadStep(sb: Super, fs: Fs, i: nat, pos: nat, size: nat)
    requires Covers(sb, fs, i, size) && pos < size
    ensures Consistent(sb, fs) && i < |fs.ino| && pos / BSIZE < MAXFILE
            && 0 != Addr(fs.blk, fs.ino[i], pos / BSIZE) < |fs.blk|
  {
    CoveredByte(sb, fs, i, size, pos);
  }

  /** The bytes of the file that lie in one block `b` of it. */
  lemma ReadChunk(sb: Super, fs: Fs, i: nat, len: nat, c: seq<Byte>, pos: nat, m: nat, b: Block)
    requires Covers(sb, fs, i, len) && c == Bytes(sb, fs, i, len) && pos + m <= len && pos % BSIZE + m <= BSIZE
    requires pos / BSIZE < MAXFILE && Addr(fs.blk, fs.ino[i], pos / BSIZE) < |fs.blk|
             && b == fs.blk[Addr(fs.blk, fs.ino[i], pos / BSIZE)]
    ensures |c| == len && c[pos..pos + m] == b[pos % BSIZE..pos % BSIZE + m]
  {
    hide Bytes, Covers, Addr;
    forall k: nat | pos <= k < pos + m ensures c[k] == b[k % BSIZE] { InChunk(k, pos, m); }
    SliceIs(c, b, pos, m);
  }

  lemma SliceMore(c: seq<Byte>, off: nat, tot: nat, m: nat)
    requires off + tot + m <= |c|
    ensures c[off..off + tot] + c[off + tot..off + tot + m] == c[off..off + (tot + m)]
  {}

  lemma SliceIs(c: seq<Byte>, b: Block, pos: nat, m: nat)
    requires pos + m <= |c| && pos % BSIZE + m <= BSIZE
    requires forall k: nat :: pos <= k < pos + m ==> c[k] == b[k % BSIZE]
    ensures c[pos..pos + m] == b[pos % BSIZE..pos % BSIZE + m]
  {
    var s, t := c[pos..pos + m], b[pos % BSIZE..pos % BSIZE + m];
    forall k: nat | k < m ensures s[k] == t[k] {
      InChunk(pos + k, pos, m);
      assert c[pos + k] == b[(pos + k) % BSIZE];
    }
  }

  lemma BmapDid(sb: Super, fs: Fs, fs': Fs, i: nat, n: nat, addr: Word)
    requires Extends(sb, fs, fs', i) && n < MAXFILE && addr != 0 && addr == Addr(fs'.blk, fs'.ino[i], n)
    requires forall m: nat :: m < MAXFILE && m != n ==> Addr(fs'.blk, fs'.ino[i], m) == Addr(fs.blk, fs.ino[i], m)
    requires fs'.ino[i].addrs[NDIRECT] != 0 <==> fs.ino[i].addrs[NDIRECT] != 0 || n >= NDIRECT
    requires Addr(fs.blk, fs.ino[i], n) != 0 ==> fs' == fs
    ensures Bmapped(sb, fs, fs', i, n, addr) && Consistent(sb, fs') && i < |fs'.ino| && addr < |fs'.blk|
  {
    hide Owned;
    OwnedSlot(sb, fs', i, n);
  }

  lemma ChunkLogged(sb: Super, fs0: Fs, fs: Fs, fs1: Fs, i: nat, off: nat, tot: nat, m: nat, addr: Word, logs: set<nat>)
    requires Logging(sb, fs0.owner, fs.owner, i, off / BSIZE, LastBlock(off, tot), logs) && Consistent(sb, fs1)
             && i < |fs1.ino|
    requires 0 < m && (off + tot) % BSIZE + m <= BSIZE && (off + tot) / BSIZE < MAXFILE
    requires var n := (off + tot) / BSIZE;
             Gains(fs.owner, fs1.owner, i, n, n + 1) && addr != 0 && addr == Addr(fs1.blk, fs1.ino[i], n)
    ensures Logging(sb, fs0.owner, fs1.owner, i, off / BSIZE, LastBlock(off, tot + m),
                    logs + AllocLog(sb, fs.owner, fs1.owner, i) + {addr as nat})
  {
    hide Owned, Gains, AllocLog, Logging, Injective;
    var n := (off + tot) / BSIZE;
    OwnersInjective(sb, fs1);
    OwnedSlot(sb, fs1, i, n);
    RoundBlocks(off, tot, m);
    LogRound(sb, fs0.owner, fs.owner, fs1.owner, i, off / BSIZE, LastBlock(off, tot), n, addr, logs);
  }

  lemma ChunkDid(sb: Super, fs1: Fs, i: nat, addr: nat, pos: nat, chunk: seq<Byte>, fs2: Fs)
    requires Consistent(sb, fs1) && i < |fs1.ino| && pos / BSIZE < MAXFILE && pos % BSIZE + |chunk| <= BSIZE
    requires addr != 0 && addr == Addr(fs1.blk, fs1.ino[i], pos / BSIZE) && addr < |fs1.blk|
    requires fs2 == ChunkAt(fs1, addr, pos, chunk)
    ensures Chunked(sb, fs1, i, addr, pos, chunk, fs2)
  {}

  lemma FreeingParts(sb: Super, fs0: Fs, i: nat, m: nat, blk: seq<Block>)
    requires Freeing(sb, fs0, i, m, blk) && fs0.ino[i].addrs[NDIRECT] != 0
    ensures InodesOk(sb, fs0) && |blk| == sb.size
    ensures fs0.ino[i].addrs[NDIRECT] < |blk| && blk[fs0.ino[i].addrs[NDIRECT]] == fs0.blk[fs0.ino[i].addrs[NDIRECT]]
  {
    hide Owned;
    OwnedSlot(sb, fs0, i, MAXFILE);
  }

  lemma IndirectPlace(sb: Super, fs: Fs, i: nat)
    requires Consistent(sb, fs) && i < |fs.ino| && fs.ino[i].addrs[NDIRECT] != 0
    ensures sb.inodestart <= fs.ino[i].addrs[NDIRECT] < sb.size
  {
    hide Owned;
    OwnedSlot(sb, fs, i, MAXFILE);
  }

  lemma AllocGrown(sb: Super, fs: Fs, i: nat, n: nat, a: Word)
    requires Consistent(sb, fs) && CanGrow(sb, fs, i, n, a)
    ensures Gains(fs.owner, fs.owner[a as nat := Slot(i, n)], i, n, n + 1)
    ensures AllocLog(sb, fs.owner, fs.owner[a as nat := Slot(i, n)], i)
            == {a as nat, BBlock(sb, a)} + if NDIRECT <= n < MAXFILE then {fs.ino[i].addrs[NDIRECT] as nat} else {}
  {
    hide Owned, Gains, AllocLog;
    AllocOne(sb, fs, i, n, a);
  }

  /** What growing slot (i, n) means for the file itself. */
  lemma GrowsAt(sb: Super, fs: Fs, i: nat, n: nat, a: Word)
    requires Consistent(sb, fs) && CanGrow(sb, fs, i, n, a)
    ensures Extends(sb, fs, Grown(sb, fs, i, n, a), i)
    ensures var fs' := Grown(sb, fs, i, n, a);
            && (forall m: nat ::
                 m < MAXFILE ==> Addr(fs'.blk, fs'.ino[i], m) == if m == n then a else Addr(fs.blk, fs.ino[i], m))
            && fs'.ino[i].addrs[NDIRECT] == if n == MAXFILE then a else fs.ino[i].addrs[NDIRECT]
  {
    GrownExtends(sb, fs, i, n, a);
    hide Owned, Extends, Allocated;
    var fs' := Grown(sb, fs, i, n, a);
    GrownSlots(sb, fs, i, n, a, i, n);
    forall m: nat | m < MAXFILE
      ensures Addr(fs'.blk, fs'.ino[i], m) == if m == n then a else Addr(fs.blk, fs.ino[i], m)
    {
      GrownSlots(sb, fs, i, n, a, i, m);
    }
  }

  lemma DivMod4096(x: nat, q: nat, r: nat)
    requires x == 4096 * q + r && r < 4096
    ensures x / 4096 == q && x % 4096 == r
  {}

  lemma DivMod8(x: nat, q: nat, r: nat)
    requires x == 8 * q + r && r < 8
    ensures x / 8 == q && x % 8 == r
  {}

  lemma NextBase(base: nat)
    requires base % BPB == 0
    ensures (base + BPB) % BPB == 0
  {}

  lemma BitIndex(base: nat, bi: nat)
    requires base % BPB == 0 && bi < BPB
    ensures (base + bi) / BPB == base / BPB && (base + bi) % BPB == bi && (base + bi) % 8 == bi % 8
  {
    var q, t := base / 4096, bi / 8;
    DivMod4096(base + bi, q, bi);
    DivMod8(base + bi, 512 * q + t, bi - 8 * t);
  }

  lemma BitOfByte(b: nat)
    ensures b % BPB % 8 == b % 8
  {
    var q, r := b / 4096, b % 4096;
    DivMod8(b, 512 * q + r / 8, r % 8);
  }

  lemma PutBitBlock(sb: Super, blk: seq<Block>, a: nat, v: bool)
    requires BBlock(sb, a) < |blk|
    ensures PutBit(sb, blk, a, v) == blk[BBlock(sb, a) := PutBit(sb, blk, a, v)[BBlock(sb, a)]]
  {}

  lemma AllocatedIs(sb: Super, blk: seq<Block>, a: nat)
    requires BBlock(sb, a) < |blk| && a < |blk|
    ensures Allocated(sb, blk, a) == PutBit(sb, blk, a, true)[a := ZeroBlock()]
  {}
}
