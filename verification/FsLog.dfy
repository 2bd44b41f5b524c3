/** Which blocks a write logs.  Since every block in use belongs to one slot of one file, the blocks
    a write touches can be read off the ownership map before and after it. */
module FsLog {
  import opened Blocks
  import opened LogSpec
  import opened FsSpec
  import opened FsBlocks
  import opened FsFiles

  // ---- Stores ----

  /** The blocks `ws` store into. */
  ghost function AddrsOf(ws: seq<Write>): set<nat> { set w | w in ws :: w.addr }

  lemma AddrsMore(ws: seq<Write>, w: Write)
    ensures AddrsOf(ws + [w]) == AddrsOf(ws) + {w.addr}
  {
    forall a | a in AddrsOf(ws) + {w.addr} ensures a in AddrsOf(ws + [w]) {
      if a == w.addr { assert w in ws + [w]; } else { assert exists v :: v in ws && v.addr == a && v in ws + [w]; }
    }
  }

  /** With history `h` of stores the disk was `d`; now it is `h'` and `d'`.  No store went below block
      `lo`. */
  ghost predicate Did(d: Disk, h: seq<Write>, d': Disk, h': seq<Write>, lo: nat) {
    && h <= h' && WritesFit(d, h'[|h|..]) && d' == Apply(d, h'[|h|..])
    && forall i :: |h| <= i < |h'| ==> h'[i].addr >= lo
  }

  lemma DidNone(d: Disk, h: seq<Write>, lo: nat)
    ensures Did(d, h, d, h, lo)
  {
    assert h[|h|..] == [];
  }

  lemma DidOne(d: Disk, h: seq<Write>, d': Disk, h': seq<Write>, lo: nat, w: Write)
    requires Did(d, h, d', h', lo) && lo <= w.addr < |d|
    ensures |d'| == |d| && Did(d, h, d'[w.addr := w.data], h' + [w], lo)
  {
    var ws := h'[|h|..];
    assert (h' + [w])[|h|..] == ws + [w];
    assert (ws + [w])[..|ws|] == ws;
  }

  lemma DidTrans(d: Disk, h: seq<Write>, d1: Disk, h1: seq<Write>, d2: Disk, h2: seq<Write>, lo: nat)
    requires Did(d, h, d1, h1, lo) && Did(d1, h1, d2, h2, lo)
    ensures Did(d, h, d2, h2, lo)
  {
    var v, w := h1[|h|..], h2[|h1|..];
    assert h2[|h|..] == v + w;
    ApplyConcat(d, v, w);
  }

  // ---- Ownership before and after ----

  type Owners = map<nat, Slot>

  /** The blocks in slots `lo` up to `hi` of file `i`. */
  ghost function SlotsOf(o: Owners, i: nat, lo: nat, hi: nat): (r: set<nat>)
    ensures r <= o.Keys
  {
    set a | a in o && o[a].inum == i && lo <= o[a].n < hi
  }

  /** The indirect block of file `i`, if it has one. */
  ghost function IndirectOf(o: Owners, i: nat): set<nat> { SlotsOf(o, i, MAXFILE, MAXFILE + 1) }

  ghost function Bitmaps(sb: Super, s: set<nat>): set<nat> { set a | a in s :: BBlock(sb, a) }

  ghost function News(o: Owners, o': Owners): (r: set<nat>)
    ensures r <= o'.Keys
  {
    o'.Keys - o.Keys
  }

  /** An address was stored in the indirect block, or the indirect block itself is new. */
  ghost predicate IndirectChanged(o: Owners, o': Owners) { exists a :: a in News(o, o') && o'[a].n >= NDIRECT }

  /** What balloc and bmap log for the new blocks: the blocks themselves, which are zeroed, their bits,
      and the indirect block their addresses go to. */
  ghost function AllocLog(sb: Super, o: Owners, o': Owners, i: nat): set<nat> {
    News(o, o') + Bitmaps(sb, News(o, o')) + if IndirectChanged(o, o') then IndirectOf(o', i) else {}
  }

  /** Blocks keep their slots, and new ones go to slots `lo` up to `hi` of file `i` or are its
      indirect block. */
  ghost predicate Gains(o: Owners, o': Owners, i: nat, lo: nat, hi: nat) {
    && (forall a :: a in o ==> a in o' && o'[a] == o[a])
    && (forall a :: a in News(o, o') ==> o'[a].inum == i && (lo <= o'[a].n < hi || o'[a].n == MAXFILE))
  }

  lemma AllocNone(sb: Super, o: Owners, i: nat, lo: nat, hi: nat)
    ensures Gains(o, o, i, lo, hi) && AllocLog(sb, o, o, i) == {}
  {}

  lemma IndirectIs(sb: Super, fs: Fs, i: nat)
    requires Consistent(sb, fs) && i < |fs.ino|
    ensures var x: nat := fs.ino[i].addrs[NDIRECT]; IndirectOf(fs.owner, i) == if x != 0 then {x} else {}
  {
    hide Owned;
    var x: nat := fs.ino[i].addrs[NDIRECT];
    OwnedSlot(sb, fs, i, MAXFILE);
    forall y | y in IndirectOf(fs.owner, i) ensures y == x && x != 0 { OwnedBlock(sb, fs, y); }
  }

  lemma GainsIndirect(o: Owners, o': Owners, i: nat, n: nat)
    requires Gains(o, o', i, MAXFILE, MAXFILE + 1)
    ensures Gains(o, o', i, n, n + 1)
  {}

  /** One block for slot `n`, whose address goes into the inode or into the indirect block. */
  lemma AllocOne(sb: Super, fs: Fs, i: nat, n: nat, a: nat)
    requires Consistent(sb, fs) && i < |fs.ino| && n <= MAXFILE && a !in fs.owner
    requires NDIRECT <= n < MAXFILE ==> fs.ino[i].addrs[NDIRECT] != 0
    requires n == MAXFILE ==> fs.ino[i].addrs[NDIRECT] == 0
    ensures Gains(fs.owner, fs.owner[a := Slot(i, n)], i, n, n + 1)
    ensures AllocLog(sb, fs.owner, fs.owner[a := Slot(i, n)], i)
            == {a, BBlock(sb, a)} + if NDIRECT <= n < MAXFILE then {fs.ino[i].addrs[NDIRECT] as nat} else {}
  {
    IndirectIs(sb, fs, i);
    hide Consistent;
    var o := fs.owner;
    var o' := o[a := Slot(i, n)];
    assert News(o, o') == {a};
    assert Bitmaps(sb, {a}) == {BBlock(sb, a)};
    assert o'[a].n == n && a in News(o, o');
    if n == MAXFILE {
      assert IndirectOf(o', i) == IndirectOf(o, i) + {a};
    } else {
      assert IndirectOf(o', i) == IndirectOf(o, i);
    }
  }

  /** Two gains in a row log what they would log together. */
  lemma AllocTrans(sb: Super, o: Owners, o1: Owners, o2: Owners, i: nat, lo: nat, hi: nat, lo': nat, hi': nat)
    requires Gains(o, o1, i, lo, hi) && Gains(o1, o2, i, lo', hi')
    ensures AllocLog(sb, o, o1, i) + AllocLog(sb, o1, o2, i) == AllocLog(sb, o, o2, i)
  {
    assert News(o, o2) == News(o, o1) + News(o1, o2);
    assert Bitmaps(sb, News(o, o2)) == Bitmaps(sb, News(o, o1)) + Bitmaps(sb, News(o1, o2));
    IndirectTrans(o, o1, o2, i, lo, hi, lo', hi');
  }

  lemma IndirectTrans(o: Owners, o1: Owners, o2: Owners, i: nat, lo: nat, hi: nat, lo': nat, hi': nat)
    requires Gains(o, o1, i, lo, hi) && Gains(o1, o2, i, lo', hi')
    ensures IndirectChanged(o, o2) <==> IndirectChanged(o, o1) || IndirectChanged(o1, o2)
    ensures IndirectOf(o1, i) <= IndirectOf(o2, i)
    ensures !IndirectChanged(o1, o2) ==> IndirectOf(o1, i) == IndirectOf(o2, i)
  {
    if a :| a in News(o, o2) && o2[a].n >= NDIRECT { assert a in News(o, o1) || a in News(o1, o2); }
    if a :| a in News(o, o1) && o1[a].n >= NDIRECT { assert a in News(o, o2) && o2[a].n >= NDIRECT; }
    if a :| a in News(o1, o2) && o2[a].n >= NDIRECT { assert a in News(o, o2); }
    forall x | x in IndirectOf(o2, i) && x !in IndirectOf(o1, i) ensures IndirectChanged(o1, o2) {
      assert x in News(o1, o2) && o2[x].n >= NDIRECT;
    }
  }

  // ---- The loop of writei ----

  /** `logs` are the blocks logged by a write to slots `lo` up to `hi`, which took ownership from `o`
      to `o'`. */
  ghost predicate Logging(sb: Super, o: Owners, o': Owners, i: nat, lo: nat, hi: nat, logs: set<nat>) {
    Gains(o, o', i, lo, hi) && logs == AllocLog(sb, o, o', i) + SlotsOf(o', i, lo, hi)
  }

  /** No slot has two blocks. */
  ghost predicate Injective(o: Owners) { forall a, b :: a in o && b in o && o[a] == o[b] ==> a == b }

  lemma OwnersInjective(sb: Super, fs: Fs)
    requires Consistent(sb, fs)
    ensures Injective(fs.owner)
  {
    hide Owned;
    forall a, b | a in fs.owner && b in fs.owner && fs.owner[a] == fs.owner[b] ensures a == b {
      OwnedBlock(sb, fs, a);
      OwnedBlock(sb, fs, b);
    }
  }

  /** One round: bmap of slot `n`, and a store into its block. */
  lemma LogRound(sb: Super, o: Owners, o1: Owners, o2: Owners, i: nat, lo: nat, hi: nat, n: nat, addr: nat,
                 logs: set<nat>)
    requires Logging(sb, o, o1, i, lo, hi, logs) && Injective(o2) && lo <= n < MAXFILE && n <= hi <= n + 1
    requires Gains(o1, o2, i, n, n + 1) && addr in o2 && o2[addr] == Slot(i, n)
    ensures Logging(sb, o, o2, i, lo, n + 1, logs + AllocLog(sb, o1, o2, i) + {addr})
  {
    hide AllocLog, Gains, SlotsOf, Injective;
    AllocTrans(sb, o, o1, o2, i, lo, hi, n, n + 1);
    GainsRound(o, o1, o2, i, lo, hi, n);
    SlotsRound(o1, o2, i, lo, hi, n, addr);
    Regroup(AllocLog(sb, o, o1, i), SlotsOf(o1, i, lo, hi), AllocLog(sb, o1, o2, i), {addr});
  }

  lemma Regroup(a: set<nat>, s: set<nat>, b: set<nat>, t: set<nat>)
    ensures a + s + b + t == a + b + (s + t)
  {}

  lemma GainsRound(o: Owners, o1: Owners, o2: Owners, i: nat, lo: nat, hi: nat, n: nat)
    requires Gains(o, o1, i, lo, hi) && Gains(o1, o2, i, n, n + 1) && lo <= n && hi <= n + 1
    ensures Gains(o, o2, i, lo, n + 1)
  {
    forall a | a in News(o, o2) ensures o2[a].inum == i && (lo <= o2[a].n < n + 1 || o2[a].n == MAXFILE) {
      assert a in News(o, o1) || a in News(o1, o2);
    }
  }

  lemma SlotsRound(o1: Owners, o2: Owners, i: nat, lo: nat, hi: nat, n: nat, addr: nat)
    requires Gains(o1, o2, i, n, n + 1) && Injective(o2) && addr in o2 && o2[addr] == Slot(i, n)
    requires lo <= n < MAXFILE && n <= hi <= n + 1
    ensures SlotsOf(o2, i, lo, n + 1) == SlotsOf(o1, i, lo, hi) + {addr}
  {
    forall x | x in SlotsOf(o2, i, lo, n + 1) ensures x in SlotsOf(o1, i, lo, hi) + {addr} {
      if o2[x].n == n { assert o2[x] == o2[addr]; } else { assert x !in News(o1, o2); }
    }
  }

  /** One past the last block touched by `tot` bytes at `off`. */
  function LastBlock(off: nat, tot: nat): nat { if tot == 0 then off / BSIZE else NBlocks(off + tot) }

  lemma RoundBlocks(off: nat, tot: nat, m: nat)
    requires 0 < m && (off + tot) % BSIZE + m <= BSIZE
    ensures var n := (off + tot) / BSIZE;
            off / BSIZE <= n <= LastBlock(off, tot) <= n + 1 && LastBlock(off, tot + m) == n + 1
  {}

  // ---- Counting ----

  /** How many blocks of a file `len` bytes at `off` touch. */
  function Touched(off: nat, len: nat): int { LastBlock(off, len) - off / BSIZE }

  ghost predicate HasBlock(o: Owners, i: nat, n: nat) { exists a :: a in o && o[a] == Slot(i, n) }

  lemma {:induction false} SlotsSize(o: Owners, i: nat, lo: nat, hi: nat)
    requires Injective(o) && lo <= hi && forall n: nat :: lo <= n < hi ==> HasBlock(o, i, n)
    ensures |SlotsOf(o, i, lo, hi)| == hi - lo
    decreases hi - lo
  {
    if lo == hi {
      assert SlotsOf(o, i, lo, hi) == {};
    } else {
      SlotsSize(o, i, lo, hi - 1);
      assert HasBlock(o, i, hi - 1);
      var a :| a in o && o[a] == Slot(i, hi - 1);
      forall x | x in SlotsOf(o, i, lo, hi) ensures x in SlotsOf(o, i, lo, hi - 1) + {a} {
        if o[x].n == hi - 1 { assert o[x] == o[a]; }
      }
      assert SlotsOf(o, i, lo, hi) == SlotsOf(o, i, lo, hi - 1) + {a};
    }
  }

  /** The number of distinct blocks a write logs, before the inode: those it touches, a bitmap block
      for each group of bits it sets, and the indirect block if it changes. */
  lemma LogSize(sb: Super, o: Owners, fs: Fs, i: nat, lo: nat, hi: nat, logs: set<nat>)
    requires Consistent(sb, fs) && i < |fs.ino| && Logging(sb, o, fs.owner, i, lo, hi, logs) && lo <= hi <= MAXFILE
    requires forall n: nat :: lo <= n < hi ==> Addr(fs.blk, fs.ino[i], n) != 0
    ensures |logs| == hi - lo + |Bitmaps(sb, News(o, fs.owner))| + if IndirectChanged(o, fs.owner) then 1 else 0
    ensures forall x :: x in logs ==> x >= sb.bmapstart
  {
    hide Consistent, Owned, Addr, Bitmaps, SlotsOf, AllocLog, News, Gains, IndirectChanged;
    var o' := fs.owner;
    var slots, bits := SlotsOf(o', i, lo, hi), Bitmaps(sb, News(o, o'));
    var ind := if IndirectChanged(o, o') then IndirectOf(o', i) else {};
    TouchedSize(sb, fs, i, lo, hi);
    if IndirectChanged(o, o') { OneIndirect(sb, o, fs, i, lo, hi); }
    BitmapsLow(sb, fs, News(o, o'));
    BlocksHigh(sb, fs, slots);
    BlocksHigh(sb, fs, ind);
    LogParts(sb, o, o', i, lo, hi);
    assert slots !! bits && (slots + bits) !! ind;
  }

  lemma LogParts(sb: Super, o: Owners, o': Owners, i: nat, lo: nat, hi: nat)
    requires Gains(o, o', i, lo, hi) && hi <= MAXFILE
    ensures var slots, ind := SlotsOf(o', i, lo, hi), if IndirectChanged(o, o') then IndirectOf(o', i) else {};
            && AllocLog(sb, o, o', i) + slots == slots + Bitmaps(sb, News(o, o')) + ind && slots !! ind
  {
    hide Bitmaps;
    var slots, ind := SlotsOf(o', i, lo, hi), if IndirectChanged(o, o') then IndirectOf(o', i) else {};
    forall a | a in News(o, o') ensures a in slots + ind {
      if o'[a].n == MAXFILE { assert IndirectChanged(o, o'); }
    }
  }

  lemma BlocksHigh(sb: Super, fs: Fs, s: set<nat>)
    requires Consistent(sb, fs) && s <= fs.owner.Keys
    ensures forall a :: a in s ==> a >= sb.datastart > sb.bmapstart
  {
    hide Owned;
    forall a | a in s ensures a >= sb.datastart { OwnedBlock(sb, fs, a); }
  }

  lemma TouchedSize(sb: Super, fs: Fs, i: nat, lo: nat, hi: nat)
    requires Consistent(sb, fs) && i < |fs.ino| && lo <= hi <= MAXFILE
    requires forall n: nat :: lo <= n < hi ==> Addr(fs.blk, fs.ino[i], n) != 0
    ensures |SlotsOf(fs.owner, i, lo, hi)| == hi - lo
  {
    hide Owned;
    OwnersInjective(sb, fs);
    forall n: nat | lo <= n < hi ensures HasBlock(fs.owner, i, n) { OwnedSlot(sb, fs, i, n); }
    SlotsSize(fs.owner, i, lo, hi);
  }

  lemma OneIndirect(sb: Super, o: Owners, fs: Fs, i: nat, lo: nat, hi: nat)
    requires Consistent(sb, fs) && i < |fs.ino| && lo <= hi <= MAXFILE && Gains(o, fs.owner, i, lo, hi)
    requires forall n: nat :: lo <= n < hi ==> Addr(fs.blk, fs.ino[i], n) != 0
    requires IndirectChanged(o, fs.owner)
    ensures |IndirectOf(fs.owner, i)| == 1
  {
    hide Owned;
    IndirectIs(sb, fs, i);
    var a :| a in News(o, fs.owner) && fs.owner[a].n >= NDIRECT;
    if fs.owner[a].n == MAXFILE { assert a in IndirectOf(fs.owner, i); }
    else { assert Addr(fs.blk, fs.ino[i], fs.owner[a].n) != 0; }
  }

  lemma BitmapsLow(sb: Super, fs: Fs, s: set<nat>)
    requires Consistent(sb, fs) && s <= fs.owner.Keys
    ensures forall b :: b in Bitmaps(sb, s) ==> sb.bmapstart <= b < sb.datastart
  {
    hide Owned;
    forall a | a in s ensures sb.bmapstart <= BBlock(sb, a) < sb.datastart {
      OwnedBlock(sb, fs, a);
      assert a / BPB <= sb.size / BPB;
    }
  }

  /** How many distinct blocks a write of `len` bytes at `off` logs that leaves ownership at `o'`: the
      inode is logged when the file grows. */
  ghost function WriteSize(sb: Super, fs: Fs, i: nat, off: nat, len: nat, o': Owners): int
    requires i < |fs.ino|
  {
    Touched(off, len) + |Bitmaps(sb, News(fs.owner, o'))|
    + (if IndirectChanged(fs.owner, o') then 1 else 0) + (if len > 0 && off + len > fs.ino[i].size then 1 else 0)
  }

  lemma LoggingNone(sb: Super, o: Owners, i: nat, off: nat)
    ensures Logging(sb, o, o, i, off / BSIZE, LastBlock(off, 0), {})
  {
    AllocNone(sb, o, i, off / BSIZE, off / BSIZE);
  }

  /** The blocks logged at the end of writei's loop. */
  lemma LoopSize(sb: Super, fs0: Fs, i: nat, off: nat, src: seq<Byte>, fs: Fs, logs: set<nat>)
    requires WriteInv(sb, fs0, i, off, src, fs)
    requires Logging(sb, fs0.owner, fs.owner, i, off / BSIZE, LastBlock(off, |src|), logs)
    ensures Touched(off, |src|) >= 0 && IBlock(sb, i) !in logs
    ensures |logs| == Touched(off, |src|) + |Bitmaps(sb, News(fs0.owner, fs.owner))|
                      + if IndirectChanged(fs0.owner, fs.owner) then 1 else 0
  {
    hide Logging, Stored, OthersSame, Owned, Bytes, Splice;
    TouchedMapped(sb, fs, i, off, |src|, Max(fs0.ino[i].size, off + |src|));
    LogSize(sb, fs0.owner, fs, i, off / BSIZE, LastBlock(off, |src|), logs);
    assert i / IPB <= sb.ninodes / IPB;
  }

  lemma TouchedMapped(sb: Super, fs: Fs, i: nat, off: nat, len: nat, cap: nat)
    requires Covers(sb, fs, i, cap) && off + len <= cap
    ensures off / BSIZE <= LastBlock(off, len) && (0 < len ==> LastBlock(off, len) <= MAXFILE)
    ensures forall n: nat :: off / BSIZE <= n < LastBlock(off, len) ==> n < MAXFILE && Addr(fs.blk, fs.ino[i], n) != 0
  {
    hide Owned, Addr;
    assert 0 < len ==> off / BSIZE <= NBlocks(off + len) <= NBlocks(cap) <= MAXFILE;
  }

  // ---- The chunks of filewrite ----

  const FILEMAX: nat := (LOGSIZE - 1 - 1 - 2) / 2 * 512  // bytes filewrite puts into one operation

  /** A full chunk touches thirteen or fourteen blocks, more than MAXOPBLOCKS, wherever it starts. */
  lemma ChunkExceeds(off: nat)
    ensures Touched(off, FILEMAX) == (if off % BSIZE == 0 then 13 else 14) && Touched(off, FILEMAX) > MAXOPBLOCKS
  {
    assert FILEMAX == 13 * BSIZE;
  }

  lemma ChunkOverBudget(sb: Super, fs: Fs, i: nat, off: nat, o': Owners)
    requires i < |fs.ino|
    ensures WriteSize(sb, fs, i, off, FILEMAX, o') > MAXOPBLOCKS
  {
    ChunkExceeds(off);
    hide Touched;
  }

  /** On a disk with one bitmap block, a write of up to six blocks' worth keeps within MAXOPBLOCKS: the
      blocks touched, the bitmap block, the indirect block and the inode. */
  lemma SmallChunkFits(sb: Super, fs: Fs, i: nat, off: nat, len: nat, fs': Fs)
    requires Consistent(sb, fs') && i < |fs.ino| && sb.size <= BPB && len <= 6 * BSIZE
    ensures WriteSize(sb, fs, i, off, len, fs'.owner) <= MAXOPBLOCKS
  {
    hide Owned;
    var s := News(fs.owner, fs'.owner);
    forall a | a in s ensures BBlock(sb, a) == sb.bmapstart { OwnedBlock(sb, fs', a); }
    assert |Bitmaps(sb, s)| <= 1 by {
      if Bitmaps(sb, s) != {} { assert Bitmaps(sb, s) == {sb.bmapstart}; }
    }
  }
}
