/** The file system on top of the log: calls whose block stores go through the logging protocol, one
    operation a call.  Stop the machine at any moment, let recovery be cut short any number of times
    and then complete: the disk holds a consistent file system, and its files are those the calls
    committed so far make of the initial ones. */
module FsCrash {
  import opened Blocks
  import opened LogSpec
  import opened FsSpec
  import opened FsBlocks
  import opened FsFiles
  import opened FsRun
  import LP = LogProtocol

  // ---- A consistent file system depends on nothing below its inodes ----

  ghost predicate SameFrom(lo: nat, d: seq<Block>, e: seq<Block>) {
    |d| == |e| && forall a: nat :: lo <= a < |d| ==> d[a] == e[a]
  }

  lemma OwnedHigh(sb: Super, fs: Fs, a: nat)
    requires InodesOk(sb, fs) && Owned(sb, fs) && a in fs.owner
    ensures sb.inodestart <= sb.bmapstart <= sb.datastart <= a < sb.size
  {
    OwnedBlock(sb, fs, a);
  }

  lemma FrameOwned(sb: Super, fs: Fs, blk: seq<Block>)
    requires InodesOk(sb, fs) && Owned(sb, fs) && SameFrom(sb.inodestart, fs.blk, blk)
    ensures var fs' := fs.(blk := blk);
            && InodesOk(sb, fs') && Owned(sb, fs') && SameSlots(sb, fs, fs', -1) && SameInodeBlocks(sb, fs, blk)
            && SameData(sb, fs, fs')
  {
    var fs' := fs.(blk := blk);
    hide Owned, SlotAddr, Bit;
    assert forall a: nat :: a in fs.owner ==> a < |blk| && blk[a] == fs.blk[a] by {
      forall a: nat | a in fs.owner ensures a < |blk| && blk[a] == fs.blk[a] { OwnedHigh(sb, fs, a); }
    }
    assert SameIndirect(fs, blk);
    forall i: nat, n: nat | i < |fs.ino| && n <= MAXFILE
      ensures SlotAddr(blk, fs.ino[i], n) == SlotAddr(fs.blk, fs.ino[i], n) && SlotOwns(sb, fs', i, n)
    {
      SlotFrame(sb, fs, blk, i, n);
      OwnedSlot(sb, fs, i, n);
    }
    forall a: nat | a < sb.size ensures Bit(sb, blk, a) <==> a < sb.datastart || a in fs.owner {
      BitFrame(sb, fs, blk, a);
      OwnedBit(sb, fs, a);
    }
    forall a: nat | a in fs.owner
      ensures && sb.datastart <= a < sb.size && fs.owner[a].inum < |fs.ino| && fs.owner[a].n <= MAXFILE
              && SlotAddr(blk, fs.ino[fs.owner[a].inum], fs.owner[a].n) == a
    {
      OwnedBlock(sb, fs, a);
    }
    OwnedParts(sb, fs');
  }

  lemma FrameFiles(sb: Super, fs: Fs, blk: seq<Block>)
    requires FsOk(sb, fs) && SameFrom(sb.inodestart, fs.blk, blk)
    ensures FsOk(sb, fs.(blk := blk)) && Files(sb, fs.(blk := blk)) == Files(sb, fs)
  {
    var fs' := fs.(blk := blk);
    assert FsOk(sb, fs') by {
      hide Owned;
      FrameOwned(sb, fs, blk);
      DiskFrame(sb, fs, fs', -1);
      MappedFrame(sb, fs, fs', -1);
    }
    hide FsOk, Contents;
    forall i: nat | i < |fs.ino| ensures Files(sb, fs')[i] == Files(sb, fs)[i] { FrameFile(sb, fs, blk, i); }
  }

  lemma FrameFile(sb: Super, fs: Fs, blk: seq<Block>, i: nat)
    requires FsOk(sb, fs) && FsOk(sb, fs.(blk := blk)) && SameFrom(sb.inodestart, fs.blk, blk) && i < |fs.ino|
    ensures Contents(sb, fs.(blk := blk), i) == Contents(sb, fs, i)
  {
    hide Owned, Bytes;
    FrameOwned(sb, fs, blk);
    FsOkCovers(sb, fs, i);
    SameBytes(sb, fs, fs.(blk := blk), i, fs.ino[i].size);
  }

  // ---- The stores of the calls, as the log sees them ----

  ghost function Tags(op: nat, ws: seq<Write>): (r: seq<LP.OpWrite>)
    ensures |r| == |ws| && forall i :: 0 <= i < |r| ==> r[i] == LP.OpWrite(op, ws[i])
  {
    seq(|ws|, i requires 0 <= i < |ws| => LP.OpWrite(op, ws[i]))
  }

  /** The stores of the first `k` calls, call `j` as operation `ids[j]`. */
  ghost function Tagged(ids: seq<nat>, wss: seq<seq<Write>>, k: nat): seq<LP.OpWrite>
    requires k <= |ids| == |wss|
  {
    if k == 0 then [] else Tagged(ids, wss, k - 1) + Tags(ids[k - 1], wss[k - 1])
  }

  lemma {:induction false} TaggedPrefix(ids: seq<nat>, wss: seq<seq<Write>>, j: nat, k: nat)
    requires j <= k <= |ids| == |wss|
    ensures Tagged(ids, wss, j) <= Tagged(ids, wss, k)
    decreases k - j
  {
    if j < k { TaggedPrefix(ids, wss, j, k - 1); }
  }

  /** Stores of a history lead to the blocks of its states. */
  lemma {:induction false} HistoryBlocks(sb: Super, fss: seq<Fs>, cs: seq<Call>, wss: seq<seq<Write>>, ids: seq<nat>,
      k: nat)
    requires History(sb, fss, cs, wss) && k <= |cs| == |ids|
    ensures var ws := LP.Writes(Tagged(ids, wss, k));
            && WritesFit(fss[0].blk, ws) && Apply(fss[0].blk, ws) == fss[k].blk
            && FsOk(sb, fss[k]) && |fss[k].ino| == |fss[0].ino|
            && forall i :: 0 <= i < |ws| ==> ws[i].addr >= sb.inodestart
  {
    hide FsOk, Files, FlatFile, Apply;
    if k == 0 {
      NoStores(fss[0].blk, LP.Writes([]));
    } else {
      HistoryBlocks(sb, fss, cs, wss, ids, k - 1);
      assert CallStep(sb, fss[k - 1], cs[k - 1], wss[k - 1], fss[k]);
      TaggedWrites(ids, wss, k);
      ApplyConcat(fss[0].blk, LP.Writes(Tagged(ids, wss, k - 1)), wss[k - 1]);
    }
  }

  lemma NoStores(d: Disk, ws: seq<Write>)
    requires |ws| == 0
    ensures Apply(d, ws) == d
  {}

  lemma TaggedWrites(ids: seq<nat>, wss: seq<seq<Write>>, k: nat)
    requires 0 < k <= |ids| == |wss|
    ensures LP.Writes(Tagged(ids, wss, k)) == LP.Writes(Tagged(ids, wss, k - 1)) + wss[k - 1]
  {}

  /** And its calls to the files. */
  lemma {:induction false} HistoryFiles(sb: Super, fss: seq<Fs>, cs: seq<Call>, wss: seq<seq<Write>>, k: nat)
    requires History(sb, fss, cs, wss) && k <= |cs|
    ensures FsOk(sb, fss[k]) && Files(sb, fss[k]) == FlatFiles(Files(sb, fss[0]), cs[..k])
  {
    hide FsOk, FlatFile, FileAt;
    if k > 0 {
      HistoryFiles(sb, fss, cs, wss, k - 1);
      assert CallStep(sb, fss[k - 1], cs[k - 1], wss[k - 1], fss[k]);
      assert cs[..k][..k - 1] == cs[..k - 1];
    }
  }

  /** Stores above `lo` keep blocks that agree from `lo` on agreeing there. */
  lemma {:induction false} ApplySame(lo: nat, d: Disk, e: Disk, ws: seq<Write>)
    requires SameFrom(lo, d, e) && WritesFit(d, ws)
    ensures WritesFit(e, ws) && SameFrom(lo, Apply(d, ws), Apply(e, ws))
    decreases |ws|
  {
    if |ws| > 0 { ApplySame(lo, d, e, ws[..|ws| - 1]); }
  }

  // ---- Runs that log the calls ----

  ghost predicate InProgress(s: LP.State, op: nat) {
    exists p :: 0 <= p < |s.procs| && LP.InOp(s.procs[p]) && s.procs[p].op == op
  }

  /** A step logs the next store in turn, an operation ends when its call has logged all its stores,
      and the machine does not crash. */
  ghost predicate Plays(s: LP.State, step: LP.Step, ids: seq<nat>, wss: seq<seq<Write>>)
    requires |ids| == |wss|
  {
    match step
    case Append(p) =>
      && p < |s.procs| && s.procs[p].Checked?
      && s.committed + s.current + [LP.OpWrite(s.procs[p].op, Write(s.procs[p].bno, s.procs[p].data))]
          <= Tagged(ids, wss, |wss|)
    case End(p) =>
      && p < |s.procs| && s.procs[p].Active?
      && forall j :: 0 <= j < |ids| && ids[j] == s.procs[p].op ==>
           |Tagged(ids, wss, j + 1)| <= |s.committed + s.current|
    case Crash => false
    case _ => true
  }

  /** What has been logged is the calls' stores in order, and a call that has logged some of them
      and ended has logged them all. */
  ghost predicate Follows(s: LP.State, ids: seq<nat>, wss: seq<seq<Write>>)
    requires |ids| == |wss|
  {
    var ows := s.committed + s.current;
    && ows <= Tagged(ids, wss, |wss|)
    && forall j :: 0 <= j < |ids| && LP.Mentions(ows, ids[j]) && !InProgress(s, ids[j]) ==>
         |Tagged(ids, wss, j + 1)| <= |ows|
  }

  lemma FollowsStep(s: LP.State, l: Layout, step: LP.Step, s': LP.State, ids: seq<nat>, wss: seq<seq<Write>>)
    requires |ids| == |wss| && LP.Next(s, l, step, s') && Plays(s, step, ids, wss) && Follows(s, ids, wss)
    ensures Follows(s', ids, wss)
  {
    hide Tagged, CommitWrites, RecoveryWrites, LP.Pinned, LP.HeldBlock;
    var ows, ows' := s.committed + s.current, s'.committed + s'.current;
    assert ows <= ows';
    forall j | 0 <= j < |ids| && LP.Mentions(ows', ids[j]) && !InProgress(s', ids[j])
      ensures |Tagged(ids, wss, j + 1)| <= |ows'|
    {
      Progress(s, l, step, s', ids[j]);
    }
  }

  /** An operation leaves the processes only by ending, and logs only while a process is in it. */
  lemma Progress(s: LP.State, l: Layout, step: LP.Step, s': LP.State, op: nat)
    requires LP.Next(s, l, step, s') && !step.Crash?
    requires LP.Mentions(s'.committed + s'.current, op) && !InProgress(s', op)
    ensures LP.Mentions(s.committed + s.current, op)
    ensures InProgress(s, op) ==> step.End? && s.procs[step.p].op == op
  {
    hide CommitWrites, RecoveryWrites, LP.Pinned, LP.HeldBlock;
    var ows, ows' := s.committed + s.current, s'.committed + s'.current;
    var x :| 0 <= x < |ows'| && ows'[x].op == op;
    if step.Append? {
      assert ows' == ows + [ows'[|ows|]];
      assert LP.InOp(s'.procs[step.p]) && s'.procs[step.p].op == s.procs[step.p].op;
    } else {
      assert ows' == ows;
    }
    assert ows[x].op == op;
    if InProgress(s, op) {
      var p :| 0 <= p < |s.procs| && LP.InOp(s.procs[p]) && s.procs[p].op == op;
      assert !(LP.InOp(s'.procs[p]) && s'.procs[p].op == op);
    }
  }

  lemma {:induction false} RunFollows(states: seq<LP.State>, steps: seq<LP.Step>, l: Layout, base: Disk, i: nat,
      ids: seq<nat>, wss: seq<seq<Write>>)
    requires |ids| == |wss| && LP.IsRun(states, steps, l, base) && i < |states|
    requires forall j :: 0 <= j < i ==> Plays(states[j], steps[j], ids, wss)
    ensures Follows(states[i], ids, wss)
  {
    if i > 0 {
      RunFollows(states, steps, l, base, i - 1, ids, wss);
      assert LP.Next(states[i - 1], l, steps[i - 1], states[i]);
      FollowsStep(states[i - 1], l, steps[i - 1], states[i], ids, wss);
    }
  }

  /** A committed operation is whole: LogProtocol.CrashSafety. */
  ghost predicate Whole(s: LP.State, op: nat) {
    LP.Mentions(s.committed, op) ==> !LP.Mentions(s.current, op) && !InProgress(s, op)
  }

  /** The committed stores are those of the first `k` calls, for some `k`. */
  lemma {:induction false} WholeCalls(s: LP.State, ids: seq<nat>, wss: seq<seq<Write>>, n: nat) returns (k: nat)
    requires n <= |ids| == |wss| && Follows(s, ids, wss) && forall op: nat :: Whole(s, op)
    requires |s.committed| <= |Tagged(ids, wss, n)|
    ensures k <= n && s.committed == Tagged(ids, wss, k)
    decreases n
  {
    if n == 0 {
      k := 0;
    } else if |s.committed| <= |Tagged(ids, wss, n - 1)| {
      k := WholeCalls(s, ids, wss, n - 1);
    } else {
      SplitCall(s, ids, wss, n);
      TaggedPrefix(ids, wss, n, |wss|);
      k := n;
    }
  }

  /** Commit does not stop between two stores of a call. */
  lemma SplitCall(s: LP.State, ids: seq<nat>, wss: seq<seq<Write>>, n: nat)
    requires 0 < n <= |ids| == |wss| && Follows(s, ids, wss) && Whole(s, ids[n - 1])
    requires |Tagged(ids, wss, n - 1)| < |s.committed|
    ensures |Tagged(ids, wss, n)| <= |s.committed|
  {
    var ows, lo := s.committed + s.current, |Tagged(ids, wss, n - 1)|;
    if lo < |Tagged(ids, wss, n)| {
      TaggedPrefix(ids, wss, n, |wss|);
      assert s.committed[lo] == ows[lo] == Tagged(ids, wss, n)[lo];
      assert ows[lo].op == ids[n - 1];
      PendingOp(s, ids, wss, n);
    }
  }

  lemma PendingOp(s: LP.State, ids: seq<nat>, wss: seq<seq<Write>>, n: nat)
    requires 0 < n <= |ids| == |wss| && s.committed + s.current <= Tagged(ids, wss, |wss|)
    requires |Tagged(ids, wss, n - 1)| < |s.committed|
    requires |Tagged(ids, wss, n)| <= |s.committed + s.current|
    ensures |s.committed| < |Tagged(ids, wss, n)| ==> LP.Mentions(s.current, ids[n - 1])
  {
    var ows, m := s.committed + s.current, |s.committed|;
    if m < |Tagged(ids, wss, n)| {
      TaggedPrefix(ids, wss, n, |wss|);
      assert s.current[0] == ows[m] == Tagged(ids, wss, n)[m];
    }
  }

  // ---- Crash safety of the files ----

  /** Recovering disk `d`, cut short as `crashes` says and then completed, gives a consistent file
      system with the files `files`. */
  ghost predicate RecoversFiles(sb: Super, d: Disk, l: Layout, crashes: seq<nat>, ino: seq<Dinode>,
      owner: map<nat, Slot>, files: seq<File>)
  {
    && LogOk(d, l)
    && var f := AfterCrashes(d, l, crashes);
    && WritesFit(f, RecoveryWrites(f, l))
    && var fs := Fs(Apply(f, RecoveryWrites(f, l)), ino, owner);
    && FsOk(sb, fs) && Files(sb, fs) == files
  }

  lemma RecoveredFiles(sb: Super, d: Disk, l: Layout, crashes: seq<nat>, e: Disk, fs: Fs)
    requires LP.RecoversTo(d, l, e) && l.start + l.size <= sb.inodestart
    requires FsOk(sb, fs) && SameFrom(sb.inodestart, fs.blk, e)
    ensures RecoversFiles(sb, d, l, crashes, fs.ino, fs.owner, Files(sb, fs))
  {
    hide FsOk, Files, Recovered, RecoveryWrites, Apply, LogOk;
    var f := AfterCrashes(d, l, crashes);
    FullRecovery(f, l);
    var g := Apply(f, RecoveryWrites(f, l));
    assert SameFrom(sb.inodestart, fs.blk, g) by {
      forall a: nat | sb.inodestart <= a < |g| ensures g[a] == fs.blk[a] { assert Home(l, d, a) && Home(l, f, a); }
    }
    FrameFiles(sb, fs, g);
    assert Fs(g, fs.ino, fs.owner) == fs.(blk := g);
  }

  /** Crash safety of the file system.  Calls have gone through the states `fss` by the stores `wss`
      (FsRun.RunCalls), and a run of the logging protocol has logged those stores, call `j` as
      operation `ids[j]`.  Whenever the machine stops, the log has committed exactly the stores of
      the first `k` calls, and every completed recovery, however often it was cut short before,
      leaves a consistent file system whose files are the initial ones after the first `k` calls. */
  lemma CallsSurvive(states: seq<LP.State>, steps: seq<LP.Step>, l: Layout, base: Disk, i: nat, sb: Super,
      fss: seq<Fs>, cs: seq<Call>, wss: seq<seq<Write>>, ids: seq<nat>)
    returns (k: nat)
    requires LP.IsRun(states, steps, l, base) && LP.Fits(states, l, i)
    requires History(sb, fss, cs, wss) && |ids| == |cs|
    requires LP.SameHome(base, l, fss[0].blk) && l.start + l.size <= sb.inodestart
    requires forall j :: 0 <= j < i ==> Plays(states[j], steps[j], ids, wss)
    ensures k <= |cs| && states[i].committed == Tagged(ids, wss, k)
    ensures states[i].phase.Running? && states[i].outstanding == 0 ==> states[i].current == []
    ensures forall crashes ::
              RecoversFiles(sb, states[i].disk, l, crashes, fss[k].ino, fss[k].owner,
                            FlatFiles(Files(sb, fss[0]), cs[..k]))
  {
    assert i < |states|;
    hide LP.IsRun, LP.Fits, LP.RecoversTo, Follows, Plays, FsOk, Files, FlatFiles, RecoversFiles, Apply;
    var s := states[i];
    RunFollows(states, steps, l, base, i, ids, wss);
    forall op: nat ensures Whole(s, op) { LP.CrashSafety(states, steps, l, base, i, op); }
    CommittedShort(s, ids, wss);
    k := WholeCalls(s, ids, wss, |wss|);
    LP.CrashSafety(states, steps, l, base, i, 0);
    HistoryBlocks(sb, fss, cs, wss, ids, k);
    HistoryFiles(sb, fss, cs, wss, k);
    ApplySame(sb.inodestart, fss[0].blk, base, LP.Writes(s.committed));
    forall crashes ensures RecoversFiles(sb, s.disk, l, crashes, fss[k].ino, fss[k].owner,
                                         FlatFiles(Files(sb, fss[0]), cs[..k]))
    {
      RecoveredFiles(sb, s.disk, l, crashes, LP.After(base, s.committed), fss[k]);
    }
    if s.phase.Running? && s.outstanding == 0 { LP.Durability(states, steps, l, base, i); }
  }

  lemma CommittedShort(s: LP.State, ids: seq<nat>, wss: seq<seq<Write>>)
    requires |ids| == |wss| && Follows(s, ids, wss)
    ensures |s.committed| <= |Tagged(ids, wss, |wss|)|
  {}
}
