/** Any sequence of reads, writes and truncations, as calls of the code: it answers and leaves the
    files as the same calls on flat byte sequences would, and block ownership never breaks. */
module FsRun {
  import opened Blocks
  import opened LogSpec
  import opened FsSpec
  import opened FsBlocks
  import opened FsFiles
  import opened FsTrunc
  import opened FsLog
  import opened FsCode

  datatype Call = WriteCall(i: nat, src: seq<Byte>, off: Word) | TruncCall(i: nat) | ReadCall(i: nat, off: Word,
      n: Word)

  datatype Reply = Wrote(w: WriteResult) | Cleared | Got(r: ReadResult)

  // ---- Flat files ----

  datatype File = File(dev: bool, data: seq<Byte>)

  predicate WriteFails(f: File, src: seq<Byte>, off: Word) {
    off > |f.data| || off + |src| >= 0x1_0000_0000 || off + |src| > MAXFILE * BSIZE
  }

  function FlatReply(f: File, c: Call): Reply {
    match c
    case WriteCall(_, src, off) => Wrote(if f.dev then WriteDevice else if WriteFails(f, src, off) then WriteError
        else Done)
    case TruncCall(_) => Cleared
    case ReadCall(_, off, n) =>
      Got(if f.dev then ReadDevice
          else if off > |f.data| || off + n >= 0x1_0000_0000 then ReadError
          else Data(f.data[off..if off + n > |f.data| then |f.data| else off + n]))
  }

  function FlatFile(f: File, c: Call): File {
    match c
    case WriteCall(_, src, off) => if f.dev || WriteFails(f, src, off) then f else f.(data := Splice(f.data, off, src))
    case TruncCall(_) => f.(data := [])
    case ReadCall(_, _, _) => f
  }

  predicate CallOk(c: Call, n: nat) { c.i < n && (c.WriteCall? ==> |c.src| < 0x1_0000_0000) }

  /** The files after the calls `cs`. */
  function FlatFiles(files: seq<File>, cs: seq<Call>): (r: seq<File>)
    requires forall k :: 0 <= k < |cs| ==> CallOk(cs[k], |files|)
    ensures |r| == |files|
  {
    if cs == [] then files
    else
      var before, c := FlatFiles(files, cs[..|cs| - 1]), cs[|cs| - 1];
      assert CallOk(c, |files|);
      before[c.i := FlatFile(before[c.i], c)]
  }

  /** And the answers to them. */
  function FlatReplies(files: seq<File>, cs: seq<Call>): (r: seq<Reply>)
    requires forall k :: 0 <= k < |cs| ==> CallOk(cs[k], |files|)
    ensures |r| == |cs|
  {
    if cs == [] then []
    else
      var before, c := cs[..|cs| - 1], cs[|cs| - 1];
      assert CallOk(c, |files|);
      FlatReplies(files, before) + [FlatReply(FlatFiles(files, before)[c.i], c)]
  }

  lemma FlatNext(files: seq<File>, cs: seq<Call>, k: nat)
    requires k < |cs| && forall j :: 0 <= j < |cs| ==> CallOk(cs[j], |files|)
    ensures var before, c := FlatFiles(files, cs[..k]), cs[k];
            && FlatFiles(files, cs[..k + 1]) == before[c.i := FlatFile(before[c.i], c)]
            && FlatReplies(files, cs[..k + 1]) == FlatReplies(files, cs[..k]) + [FlatReply(before[c.i], c)]
  {
    assert cs[..k + 1][..k] == cs[..k];
  }

  // ---- The code ----

  ghost function FileAt(sb: Super, fs: Fs, i: nat): File
    requires FsOk(sb, fs) && i < |fs.ino|
  {
    File(fs.ino[i].typ == T_DEV, Contents(sb, fs, i))
  }

  ghost function Files(sb: Super, fs: Fs): (r: seq<File>)
    requires FsOk(sb, fs)
    ensures |r| == |fs.ino| && forall i :: 0 <= i < |r| ==> r[i] == FileAt(sb, fs, i)
  {
    seq(|fs.ino|, i requires 0 <= i < |fs.ino| => FileAt(sb, fs, i))
  }

  /** Every inode is in memory as on disk. */
  ghost predicate Loaded(fs: FileSystem, ips: seq<Inode>)
    reads fs, ips
  {
    |ips| == |fs.ino| && forall i :: 0 <= i < |ips| ==> ips[i].inum == i && ips[i].Val() == fs.ino[i]
  }

  lemma OneChanged(sb: Super, fs: Fs, fs': Fs, c: Call)
    requires FsOk(sb, fs) && FsOk(sb, fs') && c.i < |fs.ino| == |fs'.ino|
    requires OtherFiles(sb, fs, c.i, fs') && FileAt(sb, fs', c.i) == FlatFile(FileAt(sb, fs, c.i), c)
    ensures Files(sb, fs') == Files(sb, fs)[c.i := FlatFile(Files(sb, fs)[c.i], c)]
  {
    hide FsOk, Contents, FlatFile;
  }

  lemma NothingChanged(sb: Super, fs: Fs, c: Call)
    requires FsOk(sb, fs) && c.i < |fs.ino| && FlatFile(FileAt(sb, fs, c.i), c) == FileAt(sb, fs, c.i)
    ensures Files(sb, fs) == Files(sb, fs)[c.i := FlatFile(Files(sb, fs)[c.i], c)]
  {
    hide FsOk, Contents, FlatFile;
  }

  method DoWrite(fs: FileSystem, ips: seq<Inode>, c: Call) returns (w: WriteResult)
    requires FsOk(fs.sb, fs.State()) && Loaded(fs, ips) && CallOk(c, |ips|) && c.WriteCall?
    modifies fs, ips
    ensures w == OutOfBlocks ==> DiskFull(fs.sb, fs.blk)
    ensures w != OutOfBlocks ==> FsOk(fs.sb, fs.State()) && Loaded(fs, ips)
    ensures w != OutOfBlocks ==> Wrote(w) == FlatReply(old(Files(fs.sb, fs.State()))[c.i], c)
    ensures w != OutOfBlocks ==>
              var files := old(Files(fs.sb, fs.State()));
                  Files(fs.sb, fs.State()) == files[c.i := FlatFile(files[c.i], c)]
    ensures Did(old(fs.blk), old(fs.stores), fs.blk, fs.stores, fs.sb.inodestart)
  {
    hide FsOk, Contents, Splice, Files, DiskFull, Did;
    ghost var fs0 := fs.State();
    ContentsAre(fs.sb, fs0, c.i);
    FilesAre(fs.sb, fs0, c.i);
    ghost var logs;
    w, logs := fs.Writei(ips[c.i], c.src, c.off);
    if w == Done {
      OneChanged(fs.sb, fs0, fs.State(), c);
    } else if w != OutOfBlocks {
      NothingChanged(fs.sb, fs0, c);
    }
  }

  lemma FilesAre(sb: Super, fs: Fs, i: nat)
    requires FsOk(sb, fs) && i < |fs.ino|
    ensures |Files(sb, fs)| == |fs.ino| && Files(sb, fs)[i] == FileAt(sb, fs, i)
  {}

  method DoTrunc(fs: FileSystem, ips: seq<Inode>, c: Call)
    requires FsOk(fs.sb, fs.State()) && Loaded(fs, ips) && CallOk(c, |ips|) && c.TruncCall?
    modifies fs, ips
    ensures FsOk(fs.sb, fs.State()) && Loaded(fs, ips)
    ensures var files := old(Files(fs.sb, fs.State()));
            Files(fs.sb, fs.State()) == files[c.i := FlatFile(files[c.i], c)]
    ensures Did(old(fs.blk), old(fs.stores), fs.blk, fs.stores, fs.sb.inodestart)
  {
    hide FsOk, Contents, Files, Did;
    ghost var fs0 := fs.State();
    var panic := fs.Itrunc(ips[c.i]);
    OneChanged(fs.sb, fs0, fs.State(), c);
  }

  method DoRead(fs: FileSystem, ips: seq<Inode>, c: Call) returns (d: ReadResult)
    requires FsOk(fs.sb, fs.State()) && Loaded(fs, ips) && CallOk(c, |ips|) && c.ReadCall?
    modifies fs, ips
    ensures FsOk(fs.sb, fs.State()) && Loaded(fs, ips) && fs.State() == old(fs.State()) && fs.stores == old(fs.stores)
    ensures Got(d) == FlatReply(Files(fs.sb, fs.State())[c.i], c)
  {
    hide FsOk, Contents, Files;
    ContentsAre(fs.sb, fs.State(), c.i);
    FilesAre(fs.sb, fs.State(), c.i);
    d := fs.Readi(ips[c.i], c.off, c.n);
  }

  /** One call.  False is the "out of blocks" panic. */
  method DoCall(fs: FileSystem, ips: seq<Inode>, c: Call) returns (ok: bool, r: Reply)
    requires FsOk(fs.sb, fs.State()) && Loaded(fs, ips) && CallOk(c, |ips|)
    modifies fs, ips
    ensures !ok ==> c.WriteCall? && DiskFull(fs.sb, fs.blk)
    ensures ok ==> FsOk(fs.sb, fs.State()) && Loaded(fs, ips)
    ensures ok ==> r == FlatReply(old(Files(fs.sb, fs.State()))[c.i], c)
    ensures ok ==>
            var files := old(Files(fs.sb, fs.State()));
                Files(fs.sb, fs.State()) == files[c.i := FlatFile(files[c.i], c)]
    ensures Did(old(fs.blk), old(fs.stores), fs.blk, fs.stores, fs.sb.inodestart)
  {
    hide FsOk, Contents, Files, DiskFull, Did;
    DidNone(fs.blk, fs.stores, fs.sb.inodestart);
    match c {
      case WriteCall(_, _, _) =>
        var w := DoWrite(fs, ips, c);
        ok, r := w != OutOfBlocks, Wrote(w);
      case TruncCall(_) =>
        DoTrunc(fs, ips, c);
        ok, r := true, Cleared;
      case ReadCall(_, _, _) =>
        NothingChanged(fs.sb, fs.State(), c);
        var d := DoRead(fs, ips, c);
        ok, r := true, Got(d);
    }
  }

  /** One call took the file system from `fs` to `fs'` by the stores `ws`. */
  ghost predicate CallStep(sb: Super, fs: Fs, c: Call, ws: seq<Write>, fs': Fs) {
    && FsOk(sb, fs) && FsOk(sb, fs') && |fs'.ino| == |fs.ino| && c.i < |fs.ino|
    && Files(sb, fs') == Files(sb, fs)[c.i := FlatFile(Files(sb, fs)[c.i], c)]
    && WritesFit(fs.blk, ws) && fs'.blk == Apply(fs.blk, ws)
    && forall i :: 0 <= i < |ws| ==> ws[i].addr >= sb.inodestart
  }

  /** The calls `cs` went through the states `fss`, by the stores `wss`. */
  ghost predicate History(sb: Super, fss: seq<Fs>, cs: seq<Call>, wss: seq<seq<Write>>) {
    && |fss| == |cs| + 1 && |wss| == |cs| && FsOk(sb, fss[0])
    && (forall k :: 0 <= k < |cs| ==> CallOk(cs[k], |fss[0].ino|))
    && forall k, k' :: 0 <= k < |cs| && k' == k + 1 ==> CallStep(sb, fss[k], cs[k], wss[k], fss[k'])
  }

  /** One more call, by the stores that took the history of stores from `h` to `h'`. */
  lemma HistoryMore(sb: Super, fss: seq<Fs>, cs: seq<Call>, wss: seq<seq<Write>>, c: Call, h: seq<Write>,
      h': seq<Write>, fs: Fs)
    requires History(sb, fss, cs, wss) && CallOk(c, |fss[0].ino|)
    requires var last := fss[|cs|];
             && Did(last.blk, h, fs.blk, h', sb.inodestart) && FsOk(sb, last) && FsOk(sb, fs) && |fs.ino| == |last.ino|
             && c.i < |last.ino| && Files(sb, fs) == Files(sb, last)[c.i := FlatFile(Files(sb, last)[c.i], c)]
    ensures |h| <= |h'| && History(sb, fss + [fs], cs + [c], wss + [h'[|h|..]])
  {
    hide FsOk, Files, FlatFile;
    var ws := h'[|h|..];
    var fss', cs', wss' := fss + [fs], cs + [c], wss + [ws];
    assert forall i :: 0 <= i < |ws| ==> ws[i] == h'[|h| + i];
    assert CallStep(sb, fss[|cs|], c, ws, fs);
    forall k, k' | 0 <= k < |cs'| && k' == k + 1 ensures CallStep(sb, fss'[k], cs'[k], wss'[k], fss'[k']) {
      if k < |cs| { assert CallStep(sb, fss[k], cs[k], wss[k], fss[k']); }
    }
  }

  /** Any calls, one after the other, until they are done or the disk is full. */
  method RunCalls(fs: FileSystem, ips: seq<Inode>, cs: seq<Call>)
    returns (replies: seq<Reply>, ghost fss: seq<Fs>, ghost wss: seq<seq<Write>>)
    requires FsOk(fs.sb, fs.State()) && Loaded(fs, ips) && forall k :: 0 <= k < |cs| ==> CallOk(cs[k], |ips|)
    modifies fs, ips
    ensures |replies| <= |cs| && replies == FlatReplies(old(Files(fs.sb, fs.State())), cs[..|replies|])
    ensures |replies| < |cs| ==> cs[|replies|].WriteCall? && DiskFull(fs.sb, fs.blk)
    ensures |replies| == |cs| ==> FsOk(fs.sb, fs.State()) && Loaded(fs, ips)
    ensures |replies| == |cs| ==> Files(fs.sb, fs.State()) == FlatFiles(old(Files(fs.sb, fs.State())), cs)
    ensures History(fs.sb, fss, cs[..|replies|], wss) && fss[0] == old(fs.State())
  {
    hide FsOk, DiskFull, FlatReply, FlatFile, Files, Did, History;
    ghost var files := Files(fs.sb, fs.State());
    replies, fss, wss := [], [fs.State()], [];
    HistoryStart(fs.sb, fs.State());
    assert cs[..0] == [];
    var k := 0;
    while k < |cs|
      invariant k == |replies| == |wss| <= |cs| && |fss| == k + 1 && FsOk(fs.sb, fs.State()) && Loaded(fs, ips)
      invariant replies == FlatReplies(files, cs[..k]) && Files(fs.sb, fs.State()) == FlatFiles(files, cs[..k])
      invariant History(fs.sb, fss, cs[..k], wss) && fss[k] == fs.State()
      invariant fss[0] == old(fs.State()) && |fs.ino| == |fss[0].ino|
    {
      FlatNext(files, cs, k);
      ghost var h := fs.stores;
      var ok, r := DoCall(fs, ips, cs[k]);
      if !ok { return; }
      HistoryMore(fs.sb, fss, cs[..k], wss, cs[k], h, fs.stores, fs.State());
      assert cs[..k] + [cs[k]] == cs[..k + 1];
      fss, wss := fss + [fs.State()], wss + [fs.stores[|h|..]];
      replies, k := replies + [r], k + 1;
    }
    assert cs[..k] == cs;
  }

  lemma HistoryStart(sb: Super, fs: Fs)
    requires FsOk(sb, fs)
    ensures History(sb, [fs], [], [])
  {}

  /** What the exact ownership means: a block number is in at most one slot of one file, and its
      bit is set exactly when it is in one. */
  lemma OneOwner(sb: Super, fs: Fs, i: nat, n: nat, j: nat, m: nat)
    requires FsOk(sb, fs) && i < |fs.ino| && j < |fs.ino| && n <= MAXFILE && m <= MAXFILE
    requires SlotAddr(fs.blk, fs.ino[i], n) == SlotAddr(fs.blk, fs.ino[j], m) != 0
    ensures i == j && n == m
    ensures var x := SlotAddr(fs.blk, fs.ino[i], n); sb.datastart <= x < sb.size && Bit(sb, fs.blk, x)
  {
    hide Owned;
    OwnedSlot(sb, fs, i, n);
    OwnedSlot(sb, fs, j, m);
    OwnedBit(sb, fs, SlotAddr(fs.blk, fs.ino[i], n));
  }

  lemma SetBitOwned(sb: Super, fs: Fs, x: nat)
    requires FsOk(sb, fs) && sb.datastart <= x < sb.size && Bit(sb, fs.blk, x)
    ensures exists s: Slot :: s.inum < |fs.ino| && s.n <= MAXFILE && SlotAddr(fs.blk, fs.ino[s.inum], s.n) == x
  {
    hide Owned;
    OwnedBit(sb, fs, x);
    OwnedBlock(sb, fs, x);
    var s := fs.owner[x];
    assert SlotAddr(fs.blk, fs.ino[s.inum], s.n) == x;
  }
}
