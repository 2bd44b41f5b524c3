/** The logging protocol of log.c over any number of processes, down to single block writes,
    with a crash allowed between any two of them.

    A step is one critical section of begin_op, log_write or end_op, the unlocked checks at the
    head of log_write, one block write of commit or of recovery, or a crash.  The block writes are
    those LogCode proves commit and recover_from_log to issue.  The buffer cache limits the runs: every
    block that is logged, or held by a process in log_write, has a buffer of its own
    (LogCode.PinnedFew), and a commit that finds all of them pinned panics before its first write
    (LogCode.Log.Commit). */
module LogProtocol {
  import opened Blocks
  import opened LogSpec
  import opened LogCode
  import Bio

  /** A write of file-system operation `op`. */
  datatype OpWrite = OpWrite(op: nat, w: Write)

  datatype Proc =
    | Idle                                                  // outside any operation
    | Sleeping                                              // in begin_op, asleep on &log
    | Active(op: nat, used: nat)                            // has added `used` blocks to the log
    | Checked(op: nat, used: nat, bno: Word, data: Block)   // in log_write, past the panic checks

  datatype Phase =
    | Running
    | Committing(from: Disk, data: seq<Block>, k: nat)      // k block writes done
    | Recovering(from: Disk, k: nat)

  datatype State = State(
    disk: Disk, phase: Phase, view: seq<Block>, lh: seq<Word>, outstanding: int, procs: seq<Proc>, nextOp: nat,
    committed: seq<OpWrite>,  // writes whose group has reached the disk
    current: seq<OpWrite>,    // writes logged since the last commit
    lost: seq<OpWrite>)       // writes a crash dropped

  datatype Step =
    | Begin(p: nat) | Wait(p: nat) | Check(p: nat, bno: Word, data: Block) | Append(p: nat) | End(p: nat)
    | CommitWrite | Finish | Crash | RecoverWrite | RecoverDone

  function Writes(ows: seq<OpWrite>): (ws: seq<Write>)
    ensures |ws| == |ows| && forall i :: 0 <= i < |ws| ==> ws[i] == ows[i].w
  {
    seq(|ows|, i requires 0 <= i < |ows| => ows[i].w)
  }

  predicate InOp(p: Proc) { p.Active? || p.Checked? }

  predicate TooBigNow(s: State, l: Layout) { TooBig(|s.lh|, l.size) }

  /** The write the committing or recovering process issues next. */
  function NextCommitWrite(s: State, l: Layout): Write
    requires s.phase.Committing? && l.start < |s.phase.from| && |s.lh| == |s.phase.data| <= LOGSIZE
    requires s.phase.k < 2 * |s.lh| + 2
  {
    CommitWrites(s.phase.from, l, s.lh, s.phase.data)[s.phase.k]
  }

  /** Some process in log_write has the block's buffer. */
  predicate HeldBlock(s: State, a: nat) {
    exists p :: 0 <= p < |s.procs| && s.procs[p].Checked? && s.procs[p].bno == a
  }

  /** The blocks whose buffers cannot be recycled: logged, or held by a process in log_write. */
  function Pinned(s: State): set<nat> {
    Named(s.lh) + set p | 0 <= p < |s.procs| && s.procs[p].Checked? :: s.procs[p].bno as nat
  }

  function Named(ts: seq<Word>): (r: set<nat>)
    ensures forall a: nat :: a in r <==> a in ts
  {
    set a | a in ts :: a as nat
  }

  predicate Enabled(s: State, l: Layout, step: Step) {
    match step
    case Begin(p) =>
      p < |s.procs| && s.procs[p].Idle? && s.phase.Running? && RoomFor(|s.lh|, s.outstanding)
    case Wait(p) =>
      && p < |s.procs| && s.procs[p].Idle?
      && (s.phase.Committing? || (s.phase.Running? && !RoomFor(|s.lh|, s.outstanding)))
    case Check(p, bno, data) =>
      && p < |s.procs| && s.procs[p].Active? && Home(l, s.disk, bno) && !TooBigNow(s, l) && s.outstanding >= 1
      && !HeldBlock(s, bno) && |Pinned(s) + {bno as nat}| <= Bio.NBUF
    case Append(p) => p < |s.procs| && s.procs[p].Checked?
    case End(p) => p < |s.procs| && s.procs[p].Active? && s.phase.Running?
    case CommitWrite =>
      && s.phase.Committing? && s.lh != [] && |s.lh| < Bio.NBUF && s.phase.k < 2 * |s.lh| + 2
      && l.start < |s.phase.from| && |s.lh| == |s.phase.data| <= LOGSIZE
      && NextCommitWrite(s, l).addr < |s.disk|
    case Finish => s.phase.Committing? && (s.lh == [] || s.phase.k == 2 * |s.lh| + 2)
    case Crash => true
    case RecoverWrite =>
      && s.phase.Recovering? && LogOk(s.phase.from, l) && s.phase.k < |RecoveryWrites(s.phase.from, l)|
      && RecoveryWrites(s.phase.from, l)[s.phase.k].addr < |s.disk|
    case RecoverDone => s.phase.Recovering? && LogOk(s.phase.from, l) && s.phase.k == |RecoveryWrites(s.phase.from, l)|
  }

  function WakeAll(procs: seq<Proc>): (r: seq<Proc>)
    ensures |r| == |procs| && forall i :: 0 <= i < |r| ==> r[i] == if procs[i].Sleeping? then Idle else procs[i]
  {
    seq(|procs|, i requires 0 <= i < |procs| => if procs[i].Sleeping? then Idle else procs[i])
  }

  /** Block numbers name blocks; true in every reachable state, see Shape. */
  predicate Ready(s: State) {
    && |s.view| == |s.disk|
    && (forall i :: 0 <= i < |s.lh| ==> s.lh[i] < |s.view|)
    && (forall p :: 0 <= p < |s.procs| && s.procs[p].Checked? ==> s.procs[p].bno < |s.view|)
  }

  function Do(s: State, l: Layout, step: Step): State
    requires Enabled(s, l, step) && Ready(s)
  {
    match step
    case Begin(p) =>
      s.(outstanding := s.outstanding + 1, procs := s.procs[p := Active(s.nextOp, 0)], nextOp := s.nextOp + 1)
    case Wait(p) => s.(procs := s.procs[p := Sleeping])
    case Check(p, bno, data) => s.(procs := s.procs[p := Checked(s.procs[p].op, s.procs[p].used, bno, data)])
    case Append(p) =>
      var q := s.procs[p];
      s.(view := s.view[q.bno := q.data], lh := Absorb(s.lh, q.bno),
         procs := s.procs[p := Active(q.op, if q.bno in s.lh then q.used else q.used + 1)],
         current := s.current + [OpWrite(q.op, Write(q.bno, q.data))])
    case End(p) =>
      var procs := s.procs[p := Idle];
      if s.outstanding - 1 == 0
      then s.(outstanding := 0, procs := procs, phase := Committing(s.disk, Contents(s.view, s.lh), 0))
      else s.(outstanding := s.outstanding - 1, procs := WakeAll(procs))
    case CommitWrite =>
      var w := NextCommitWrite(s, l);
      var t := s.(disk := s.disk[w.addr := w.data], phase := Committing(s.phase.from, s.phase.data, s.phase.k + 1));
      if s.phase.k == |s.lh| then t.(committed := s.committed + s.current, current := []) else t
    case Finish => s.(phase := Running, lh := [], procs := WakeAll(s.procs))
    case Crash =>
      s.(phase := Recovering(s.disk, 0), lh := [], outstanding := 0, procs := seq(|s.procs|, _ => Idle),
         lost := s.lost + s.current, current := [])
    case RecoverWrite =>
      var w := RecoveryWrites(s.phase.from, l)[s.phase.k];
      s.(disk := s.disk[w.addr := w.data], phase := Recovering(s.phase.from, s.phase.k + 1))
    case RecoverDone => s.(phase := Running, view := s.disk)
  }

  /** Power-on: any disk with a readable log, about to be recovered.  `base` is what its home
      blocks are worth. */
  ghost predicate Init(s: State, l: Layout, base: Disk) {
    && LogOk(s.disk, l) && RecoversTo(s.disk, l, base) && s.phase == Recovering(s.disk, 0)
    && |s.view| == |s.disk| && s.lh == [] && s.outstanding == 0 && (forall p :: 0 <= p < |s.procs| ==> s.procs[p].Idle?)
    && s.committed == [] && s.current == [] && s.lost == []
  }

  /** Recovering disk `d` gives the home blocks of `e`. */
  ghost predicate RecoversTo(d: Disk, l: Layout, e: Disk) {
    |d| == |e| && LogOk(d, l) && forall a: nat :: Home(l, d, a) ==> Recovered(d, l, a) == e[a]
  }

  ghost predicate SameHome(d: Disk, l: Layout, e: Disk) {
    |d| == |e| && forall a: nat :: Home(l, d, a) ==> d[a] == e[a]
  }

  /** The home blocks after the operations' writes `ows`, one after the other. */
  ghost function After(base: Disk, ows: seq<OpWrite>): (d: Disk)
    requires WritesFit(base, Writes(ows))
    ensures |d| == |base|
  {
    Apply(base, Writes(ows))
  }

  // ---- Counting operations and budgets ----

  function CountOps(procs: seq<Proc>): nat {
    if |procs| == 0 then 0 else CountOps(procs[..|procs|-1]) + if InOp(procs[|procs|-1]) then 1 else 0
  }

  /** The log space the operations in progress may still claim. */
  function Unused(p: Proc): int { if InOp(p) then MAXOPBLOCKS - p.used else 0 }

  function SumUnused(procs: seq<Proc>): int {
    if |procs| == 0 then 0 else SumUnused(procs[..|procs|-1]) + Unused(procs[|procs|-1])
  }

  lemma {:induction false} CountUpdate(procs: seq<Proc>, p: nat, q: Proc)
    requires p < |procs|
    ensures CountOps(procs[p := q]) == CountOps(procs) - (if InOp(procs[p]) then 1 else 0) + (if InOp(q) then 1 else 0)
    ensures SumUnused(procs[p := q]) == SumUnused(procs) - Unused(procs[p]) + Unused(q)
    decreases |procs|
  {
    var n := |procs| - 1;
    if p == n {
      assert procs[p := q][..n] == procs[..n];
    } else {
      CountUpdate(procs[..n], p, q);
      assert procs[p := q][..n] == procs[..n][p := q];
    }
  }

  /** Processes that differ only in being asleep or awake count the same. */
  lemma {:induction false} CountSame(procs: seq<Proc>, procs': seq<Proc>)
    requires |procs| == |procs'|
    requires forall i :: 0 <= i < |procs| ==> if InOp(procs[i]) then procs'[i] == procs[i] else !InOp(procs'[i])
    ensures CountOps(procs') == CountOps(procs) && SumUnused(procs') == SumUnused(procs)
    decreases |procs|
  {
    if |procs| != 0 { CountSame(procs[..|procs|-1], procs'[..|procs|-1]); }
  }

  lemma {:induction false} CountNone(procs: seq<Proc>)
    ensures CountOps(procs) == 0 <==> forall p :: 0 <= p < |procs| ==> !InOp(procs[p])
    ensures CountOps(procs) == 0 ==> SumUnused(procs) == 0
    decreases |procs|
  {
    if |procs| != 0 {
      CountNone(procs[..|procs|-1]);
      assert forall p :: 0 <= p < |procs|-1 ==> procs[..|procs|-1][p] == procs[p];
    }
  }

  lemma {:induction false} UnusedBounds(procs: seq<Proc>, p: nat)
    requires forall i :: 0 <= i < |procs| && InOp(procs[i]) ==> procs[i].used <= MAXOPBLOCKS
    requires p < |procs|
    ensures Unused(procs[p]) <= SumUnused(procs) <= MAXOPBLOCKS * CountOps(procs)
    decreases |procs|
  {
    var n := |procs| - 1;
    if n == 0 {
    } else if p == n {
      UnusedBounds(procs[..n], 0);
      assert Unused(procs[0]) >= 0;
      SumNonNegative(procs[..n]);
    } else {
      UnusedBounds(procs[..n], p);
    }
  }

  lemma {:induction false} SumNonNegative(procs: seq<Proc>)
    requires forall i :: 0 <= i < |procs| && InOp(procs[i]) ==> procs[i].used <= MAXOPBLOCKS
    ensures SumUnused(procs) >= 0
    decreases |procs|
  {
    if |procs| != 0 { SumNonNegative(procs[..|procs|-1]); }
  }

  // ---- Invariants ----

  /** Who counts as outstanding, who sleeps, and that no block is named twice. */
  ghost predicate InvProcs(s: State) {
    && s.outstanding == CountOps(s.procs)
    && (!s.phase.Running? ==> s.outstanding == 0)
    && (s.phase.Running? && s.outstanding == 0 ==> s.lh == [])
    && (s.phase.Recovering? ==> s.lh == [])
    && (forall p :: 0 <= p < |s.procs| && s.procs[p].Sleeping? ==> MustSleep(s))
    && (forall i, j :: 0 <= i < j < |s.lh| ==> s.lh[i] != s.lh[j])
  }

  /** The client's side of the bargain: no operation has added more than MAXOPBLOCKS blocks. */
  ghost predicate Modest(s: State) {
    forall p :: 0 <= p < |s.procs| && InOp(s.procs[p]) ==> s.procs[p].used <= MAXOPBLOCKS
  }

  /** The log's side: what is logged and what the operations may still add fits the header. */
  ghost predicate InvBudget(s: State) {
    && Modest(s) && |s.lh| <= LOGSIZE
    && (s.phase.Running? ==> |s.lh| + SumUnused(s.procs) <= LOGSIZE)
  }

  /** begin_op's reasons to sleep. */
  predicate MustSleep(s: State) {
    s.phase.Committing? || (s.phase.Running? && !RoomFor(|s.lh|, s.outstanding))
  }

  predicate Mentions(ows: seq<OpWrite>, op: nat) { exists i :: 0 <= i < |ows| && ows[i].op == op }

  predicate Touches(ows: seq<OpWrite>, a: nat) { exists i :: 0 <= i < |ows| && ows[i].w.addr == a }

  /** An operation's writes are all committed, all pending or all lost, and one that is still
      running has none committed or lost. */
  ghost predicate InvOps(s: State) {
    && (forall op: nat :: Mentions(s.committed, op) ==> !Mentions(s.current, op) && !Mentions(s.lost, op))
    && (forall op: nat :: Mentions(s.current, op) ==> !Mentions(s.lost, op))
    && (forall op: nat ::
         Mentions(s.committed, op) || Mentions(s.current, op) || Mentions(s.lost, op) ==> op < s.nextOp)
    && (forall p :: 0 <= p < |s.procs| && InOp(s.procs[p]) ==>
          s.procs[p].op < s.nextOp && !Mentions(s.committed, s.procs[p].op) && !Mentions(s.lost, s.procs[p].op))
  }

  ghost predicate AllHome(l: Layout, base: Disk, ows: seq<OpWrite>) {
    forall i :: 0 <= i < |ows| ==> Home(l, base, ows[i].w.addr)
  }

  ghost predicate Shape(s: State, l: Layout, base: Disk) {
    && 0 < l.size && l.start + l.size <= |base| && |s.lh| <= Bio.NBUF && Room(s, l)
    && |s.disk| == |s.view| == |base|
    && (forall i :: 0 <= i < |s.lh| ==> Home(l, base, s.lh[i]))
    && (forall p :: 0 <= p < |s.procs| && s.procs[p].Checked? ==> Home(l, base, s.procs[p].bno))
    && AllHome(l, base, s.committed) && AllHome(l, base, s.current)
  }

  /** The log on disk has room for what is logged, or the commit is going to panic. */
  predicate Room(s: State, l: Layout) { |s.lh| < l.size || |s.lh| == Bio.NBUF }

  /** There are no more pinned blocks than buffers. */
  ghost predicate InvCache(s: State) { |Pinned(s)| <= Bio.NBUF }

  /** The header names exactly the blocks the pending writes touch, until the group is committed. */
  ghost predicate InvLog(s: State) {
    (s.phase.Committing? && s.phase.k > |s.lh| > 0) || forall a: nat :: a in s.lh <==> Touches(s.current, a)
  }

  /** What the disk holds in each phase, against the writes committed and pending. */
  ghost predicate InvDisk(s: State, l: Layout, base: Disk)
    requires Shape(s, l, base)
  {
    match s.phase
    case Running =>
      && RecoversTo(s.disk, l, After(base, s.committed)) && Targets(s.disk, l) == []
      && SameHome(s.view, l, After(base, s.committed + s.current))
    case Committing(from, data, k) =>
      if |s.lh| == Bio.NBUF then k == 0 && RecoversTo(s.disk, l, After(base, s.committed))
      else
        && CanCommit(from, l, s.lh, data) && |from| == |base|
        && SameHome(s.view, l, After(base, s.committed + s.current))
        && (forall a: nat :: Home(l, base, a) ==> Installed(from, s.lh, data, a) == s.view[a])
        && (if s.lh == [] then k == 0 && s.disk == from
            else k <= 2 * |s.lh| + 2 && Wrote(from, [], CommitWrites(from, l, s.lh, data)[..k], s.disk,
                CommitWrites(from, l, s.lh, data)[..k]))
        && (if k <= |s.lh| then SameHome(from, l, After(base, s.committed)) else s.current == [])
    case Recovering(from, k) =>
      && RecoversTo(from, l, After(base, s.committed)) && s.current == []
      && k <= |RecoveryWrites(from, l)|
      && Wrote(from, [], RecoveryWrites(from, l)[..k], s.disk, RecoveryWrites(from, l)[..k])
  }

  ghost predicate Inv(s: State, l: Layout, base: Disk) {
    Shape(s, l, base) && InvProcs(s) && InvCache(s) && InvOps(s) && InvLog(s) && InvDisk(s, l, base)
  }

  lemma CommitRecovers(s: State, l: Layout, base: Disk)
    requires Shape(s, l, base) && InvDisk(s, l, base) && s.phase.Committing?
    ensures RecoversTo(s.disk, l, After(base, s.committed))
  {
    hide After, CommitWrites, LogOk, Apply, Recovered;
    var Committing(from, data, k) := s.phase;
    if |s.lh| == Bio.NBUF { return; }
    if s.lh == [] {
      assert LogOk(from, l) && Targets(from, l) == [];
      NoTargets(from, l);
    } else {
      CommitPoint(from, l, s.lh, data, k);
    }
    if k > |s.lh| { assert s.committed + s.current == s.committed; }
  }

  lemma NoTargets(d: Disk, l: Layout)
    requires LogOk(d, l) && Targets(d, l) == []
    ensures forall a: nat :: Home(l, d, a) ==> Recovered(d, l, a) == d[a]
  {}

  /** In every phase, recovering the disk gives the base with the committed writes applied. */
  lemma DiskRecovers(s: State, l: Layout, base: Disk)
    requires Shape(s, l, base) && InvDisk(s, l, base)
    ensures RecoversTo(s.disk, l, After(base, s.committed))
  {
    hide After, CommitWrites, LogOk, Apply, Recovered, RecoveryWrites, CanCommit;
    match s.phase
    case Running =>
    case Committing(from, data, k) => CommitRecovers(s, l, base);
    case Recovering(from, k) => RecoveryStep(from, l, k);
  }

  // ---- Steps keep the invariants ----

  lemma ProcsLogging(s: State, l: Layout, step: Step)
    requires Ready(s) && InvProcs(s) && Enabled(s, l, step)
    requires step.Begin? || step.Append?
    ensures InvProcs(Do(s, l, step))
  {
    hide LogOk, CommitWrites, RecoveryWrites, Contents, CountOps, Pinned;
    CountUpdate(s.procs, step.p, Do(s, l, step).procs[step.p]);
    CountNone(s.procs);
  }

  lemma ProcsWaiting(s: State, l: Layout, step: Step)
    requires Ready(s) && InvProcs(s) && Enabled(s, l, step)
    requires step.Wait? || step.Check?
    ensures InvProcs(Do(s, l, step))
  {
    hide LogOk, CommitWrites, RecoveryWrites, Contents, CountOps, Pinned;
    CountUpdate(s.procs, step.p, Do(s, l, step).procs[step.p]);
  }

  lemma ProcsEnd(s: State, l: Layout, step: Step)
    requires Ready(s) && InvProcs(s) && Enabled(s, l, step)
    requires step.End?
    ensures InvProcs(Do(s, l, step))
  {
    hide LogOk, CommitWrites, RecoveryWrites, Contents, CountOps, Pinned;
    var procs := s.procs[step.p := Idle];
    CountUpdate(s.procs, step.p, Idle);
    CountNone(procs);
    CountSame(procs, WakeAll(procs));
  }

  lemma ProcsQuiet(s: State, l: Layout, step: Step)
    requires Ready(s) && InvProcs(s) && Enabled(s, l, step)
    requires step.CommitWrite? || step.Finish? || step.Crash? || step.RecoverWrite? || step.RecoverDone?
    ensures InvProcs(Do(s, l, step))
  {
    hide LogOk, CommitWrites, RecoveryWrites, Contents, CountOps, Pinned;
    var t := Do(s, l, step);
    CountNone(s.procs);
    CountNone(t.procs);
    if step.Finish? { CountSame(s.procs, t.procs); }
  }

  lemma ProcsStep(s: State, l: Layout, step: Step)
    requires Ready(s) && InvProcs(s) && Enabled(s, l, step)
    ensures InvProcs(Do(s, l, step))
  {
    hide InvProcs;
    if step.Begin? || step.Append? { ProcsLogging(s, l, step); }
    else if step.Wait? || step.Check? { ProcsWaiting(s, l, step); }
    else if step.End? { ProcsEnd(s, l, step); }
    else { ProcsQuiet(s, l, step); }
  }

  /** Logging a block moves it from the one kind of pinned block to the other. */
  lemma CacheStep(s: State, l: Layout, step: Step)
    requires Ready(s) && InvCache(s) && Enabled(s, l, step)
    ensures InvCache(Do(s, l, step))
  {
    var t := Do(s, l, step);
    var few := if step.Check? then Pinned(s) + {step.bno as nat} else Pinned(s);
    assert |few| <= Bio.NBUF;
    hide Pinned, Do, Enabled, Ready;
    forall a | a in Pinned(t) ensures a in few { PinnedBefore(s, l, step, a); }
    SubsetSize(Pinned(t), few);
  }

  lemma PinnedBefore(s: State, l: Layout, step: Step, a: nat)
    requires Ready(s) && Enabled(s, l, step) && a in Pinned(Do(s, l, step))
    ensures a in Pinned(s) || (step.Check? && step.bno == a)
  {
    hide LogOk, CommitWrites, RecoveryWrites, Contents, HeldBlock;
    var t := Do(s, l, step);
    if a in t.lh {
      assert a in s.lh || (step.Append? && s.procs[step.p].bno == a);
    } else {
      var p :| 0 <= p < |t.procs| && t.procs[p].Checked? && t.procs[p].bno == a;
      assert s.procs[p] == t.procs[p] || step == Check(p, t.procs[p].bno, t.procs[p].data);
    }
  }

  /** So the header in memory never overflows. */
  lemma LoggedFew(s: State)
    requires InvProcs(s) && InvCache(s)
    ensures |s.lh| <= Bio.NBUF
  {
    hide CountOps;
    DistinctSize(s.lh);
    SubsetSize(Named(s.lh), Pinned(s));
  }

  lemma {:induction false} DistinctSize(ts: seq<Word>)
    ensures |Named(ts)| <= |ts| && (Distinct(ts) ==> |Named(ts)| == |ts|)
    decreases |ts|
  {
    if ts == [] {
      assert Named(ts) == {};
    } else {
      var n := |ts| - 1;
      DistinctSize(ts[..n]);
      assert ts == ts[..n] + [ts[n]];
      assert Named(ts) == Named(ts[..n]) + {ts[n] as nat};
    }
  }

  /** begin_op, and the locked part of log_write, keep the promised space within the log. */
  lemma BudgetLogging(s: State, l: Layout, step: Step)
    requires Ready(s) && InvProcs(s) && InvBudget(s) && Enabled(s, l, step) && Modest(Do(s, l, step))
    requires step.Begin? || step.Append?
    ensures InvBudget(Do(s, l, step))
  {
    hide LogOk, CommitWrites, RecoveryWrites, Contents, CountOps, SumUnused, Pinned;
    var t := Do(s, l, step);
    CountUpdate(s.procs, step.p, t.procs[step.p]);
    UnusedBounds(s.procs, step.p);
    SumNonNegative(t.procs);
    CountNone(s.procs);
  }

  lemma BudgetOther(s: State, l: Layout, step: Step)
    requires Ready(s) && InvProcs(s) && InvBudget(s) && Enabled(s, l, step)
    requires step.Wait? || step.Check? || step.End?
    ensures InvBudget(Do(s, l, step))
  {
    hide LogOk, CommitWrites, RecoveryWrites, Contents, CountOps, SumUnused, Pinned;
    if step.End? {
      var procs := s.procs[step.p := Idle];
      CountUpdate(s.procs, step.p, Idle);
      CountSame(procs, WakeAll(procs));
    } else {
      CountUpdate(s.procs, step.p, Do(s, l, step).procs[step.p]);
    }
  }

  lemma BudgetQuiet(s: State, l: Layout, step: Step)
    requires Ready(s) && InvProcs(s) && InvBudget(s) && Enabled(s, l, step)
    requires step.CommitWrite? || step.Finish? || step.Crash? || step.RecoverWrite? || step.RecoverDone?
    ensures InvBudget(Do(s, l, step))
  {
    hide LogOk, CommitWrites, RecoveryWrites, Contents, CountOps, SumUnused, Pinned;
    var t := Do(s, l, step);
    CountNone(s.procs);
    CountNone(t.procs);
    if step.Finish? { CountSame(s.procs, t.procs); }
  }

  lemma BudgetStep(s: State, l: Layout, step: Step)
    requires Ready(s) && InvProcs(s) && InvBudget(s) && Enabled(s, l, step) && Modest(Do(s, l, step))
    ensures InvBudget(Do(s, l, step))
  {
    hide InvBudget, InvProcs, Modest;
    if step.Begin? || step.Append? { BudgetLogging(s, l, step); }
    else if step.Wait? || step.Check? || step.End? { BudgetOther(s, l, step); }
    else { BudgetQuiet(s, l, step); }
  }

  lemma ShapeStep(s: State, l: Layout, base: Disk, step: Step)
    requires Shape(s, l, base) && Enabled(s, l, step) && |Do(s, l, step).lh| <= Bio.NBUF && Room(Do(s, l, step), l)
    ensures Shape(Do(s, l, step), l, base)
  {
    hide LogOk, CommitWrites, RecoveryWrites, Contents, Pinned;
  }

  lemma MentionsSum(a: seq<OpWrite>, b: seq<OpWrite>, op: nat)
    ensures Mentions(a + b, op) <==> Mentions(a, op) || Mentions(b, op)
  {
    var c := a + b;
    if i :| 0 <= i < |a| && a[i].op == op { assert c[i].op == op; }
    if i :| 0 <= i < |b| && b[i].op == op { assert c[|a| + i].op == op; }
  }

  lemma TouchesSum(a: seq<OpWrite>, b: seq<OpWrite>, x: nat)
    ensures Touches(a + b, x) <==> Touches(a, x) || Touches(b, x)
  {
    var c := a + b;
    if i :| 0 <= i < |a| && a[i].w.addr == x { assert c[i].w.addr == x; }
    if i :| 0 <= i < |b| && b[i].w.addr == x { assert c[|a| + i].w.addr == x; }
  }

  lemma OpsStep(s: State, l: Layout, base: Disk, step: Step)
    requires Shape(s, l, base) && InvProcs(s) && InvOps(s) && Enabled(s, l, step)
    ensures InvOps(Do(s, l, step))
  {
    hide LogOk, CommitWrites, RecoveryWrites, Contents, CountOps, SumUnused, Mentions, Pinned;
    var t := Do(s, l, step);
    CountNone(s.procs);
    NoMentions();
    if step.Append? {
      var q := s.procs[step.p];
      var w := [OpWrite(q.op, Write(q.bno, q.data))];
      forall op: nat ensures Mentions(t.current, op) <==> Mentions(s.current, op) || op == q.op {
        MentionsSum(s.current, w, op);
        MentionsOne(w[0], op);
      }
    } else if step.CommitWrite? {
      forall op: nat { MentionsSum(s.committed, s.current, op); }
    } else if step.Crash? {
      forall op: nat { MentionsSum(s.lost, s.current, op); }
    }
  }

  lemma NoMentions()
    ensures forall op: nat :: !Mentions([], op)
  {}

  lemma MentionsOne(w: OpWrite, op: nat)
    ensures Mentions([w], op) <==> w.op == op
  {
    assert [w][0] == w;
  }

  lemma LogStep(s: State, l: Layout, base: Disk, step: Step)
    requires Shape(s, l, base) && InvProcs(s) && InvLog(s) && InvDisk(s, l, base) && Enabled(s, l, step)
    ensures InvLog(Do(s, l, step))
  {
    hide LogOk, CommitWrites, RecoveryWrites, Contents, CountOps, SumUnused, RecoversTo, CanCommit, SameHome, After,
        Wrote, Pinned;
    var t := Do(s, l, step);
    if step.Append? {
      var q := s.procs[step.p];
      var w := OpWrite(q.op, Write(q.bno, q.data));
      CountNone(s.procs);
      forall a: nat ensures a in t.lh <==> Touches(t.current, a) {
        TouchesSum(s.current, [w], a);
        assert Touches([w], a) <==> [w][0].w.addr == a;
      }
    }
  }

  lemma AfterOne(l: Layout, base: Disk, ows: seq<OpWrite>, w: OpWrite)
    requires AllHome(l, base, ows) && Home(l, base, w.w.addr)
    ensures AllHome(l, base, ows + [w])
    ensures After(base, ows + [w]) == After(base, ows)[w.w.addr := w.w.data]
  {
    assert Writes(ows + [w]) == Writes(ows) + [w.w];
    assert (Writes(ows) + [w.w])[..|ows|] == Writes(ows);
  }

  /** Pending writes change only the blocks they touch. */
  lemma AfterFrame(l: Layout, base: Disk, a: seq<OpWrite>, b: seq<OpWrite>, x: nat)
    requires AllHome(l, base, a) && AllHome(l, base, b) && x < |base| && !Touches(b, x)
    ensures AllHome(l, base, a + b) && After(base, a + b)[x] == After(base, a)[x]
  {
    assert Writes(a + b) == Writes(a) + Writes(b);
    ApplyConcat(base, Writes(a), Writes(b));
    forall i | 0 <= i < |b| ensures Writes(b)[i].addr != x {
      assert b[i].w.addr != x;
    }
    ApplyFrame(After(base, a), Writes(b), x);
  }

  lemma DiskAppend(s: State, l: Layout, base: Disk, step: Step)
    requires Inv(s, l, base) && Enabled(s, l, step) && step.Append?
    requires Shape(Do(s, l, step), l, base)
    ensures InvDisk(Do(s, l, step), l, base)
  {
    hide After, LogOk, RecoversTo, InvOps, InvLog, CommitWrites, Contents, RecoveryWrites, Pinned;
    CountNone(s.procs);
    var q := s.procs[step.p];
    var w := OpWrite(q.op, Write(q.bno, q.data));
    AfterOne(l, base, s.committed + s.current, w);
    assert s.committed + (s.current + [w]) == (s.committed + s.current) + [w];
  }

  /** The last end_op starts a commit of everything the kernel sees differently from the disk. */
  lemma DiskEnd(s: State, l: Layout, base: Disk, step: Step)
    requires Inv(s, l, base) && Enabled(s, l, step) && step.End?
    requires Shape(Do(s, l, step), l, base)
    ensures InvDisk(Do(s, l, step), l, base)
  {
    hide After, LogOk, InvOps, CommitWrites, RecoveryWrites, Pinned;
    var t := Do(s, l, step);
    if t.phase.Committing? {
      var data := t.phase.data;
      NoTargets(s.disk, l);
      WroteNone(s.disk, [], CommitWrites(s.disk, l, s.lh, data));
      assert CommitWrites(s.disk, l, s.lh, data)[..0] == [];
      forall a: nat | Home(l, base, a) ensures Installed(s.disk, s.lh, data, a) == s.view[a] {
        if a !in s.lh { PendingElsewhere(s, l, base, a); }
      }
    }
  }

  lemma PendingElsewhere(s: State, l: Layout, base: Disk, a: nat)
    requires Inv(s, l, base) && s.phase.Running? && Home(l, base, a) && a !in s.lh
    ensures s.view[a] == s.disk[a]
  {
    hide After, InvOps, CommitWrites, RecoveryWrites, Pinned;
    NoTargets(s.disk, l);
    AfterFrame(l, base, s.committed, s.current, a);
  }

  lemma DiskCommitWrite(s: State, l: Layout, base: Disk, step: Step)
    requires Inv(s, l, base) && Enabled(s, l, step) && step.CommitWrite?
    requires Shape(Do(s, l, step), l, base)
    ensures InvDisk(Do(s, l, step), l, base)
  {
    hide After, LogOk, InvOps, InvProcs, CommitWrites, RecoveryWrites, Wrote, Pinned;
    var Committing(from, data, k) := s.phase;
    var ws := CommitWrites(from, l, s.lh, data);
    WroteOne(from, [], ws, k, s.disk, ws[..k]);
    assert ws[..k] + [ws[k]] == ws[..k+1];
    assert (s.committed + s.current) + [] == s.committed + s.current;
  }

  lemma DiskFinish(s: State, l: Layout, base: Disk, step: Step)
    requires Inv(s, l, base) && Enabled(s, l, step) && step.Finish?
    requires Shape(Do(s, l, step), l, base)
    ensures InvDisk(Do(s, l, step), l, base)
  {
    hide After, LogOk, InvOps, InvProcs, CommitWrites, RecoveryWrites, RecoversTo, SameHome, Wrote, Pinned;
    DiskRecovers(s, l, base);
    var Committing(from, data, k) := s.phase;
    var ws := CommitWrites(from, l, s.lh, data);
    if s.lh != [] {
      assert ws[..k] == ws;
      CommitDone(from, l, s.lh, data, [], s.disk, ws);
    }
  }

  lemma DiskCrash(s: State, l: Layout, base: Disk, step: Step)
    requires Inv(s, l, base) && Enabled(s, l, step) && step.Crash?
    requires Shape(Do(s, l, step), l, base)
    ensures InvDisk(Do(s, l, step), l, base)
  {
    hide After, LogOk, InvOps, InvProcs, CommitWrites, RecoveryWrites, Wrote, Recovered, Pinned;
    DiskRecovers(s, l, base);
    WroteNone(s.disk, [], RecoveryWrites(s.disk, l));
    assert RecoveryWrites(s.disk, l)[..0] == [];
  }

  lemma DiskRecovery(s: State, l: Layout, base: Disk, step: Step)
    requires Inv(s, l, base) && Enabled(s, l, step) && (step.RecoverWrite? || step.RecoverDone?)
    requires Shape(Do(s, l, step), l, base)
    ensures InvDisk(Do(s, l, step), l, base)
  {
    hide After, LogOk, InvOps, InvProcs, CommitWrites, RecoveryWrites, Apply, Recovered, Pinned, InvLog;
    hide CanCommit, InstallWrites;
    var Recovering(from, k) := s.phase;
    var ws := RecoveryWrites(from, l);
    if step.RecoverWrite? {
      WroteOne(from, [], ws, k, s.disk, ws[..k]);
      assert ws[..k] + [ws[k]] == ws[..k+1];
    } else {
      assert ws[..k] == ws;
      FullRecovery(from, l);
      NoTargets(s.disk, l);
      assert s.committed + s.current == s.committed;
    }
  }

  /** Every step of every process, commit, crash and recovery keeps the invariants, as long as what
      is logged fits. */
  lemma InvStep(s: State, l: Layout, base: Disk, step: Step)
    requires Inv(s, l, base) && Enabled(s, l, step) && Room(Do(s, l, step), l)
    ensures Inv(Do(s, l, step), l, base)
  {
    ProcsStep(s, l, step);
    CacheStep(s, l, step);
    LoggedFew(Do(s, l, step));
    ShapeStep(s, l, base, step);
    OpsStep(s, l, base, step);
    LogStep(s, l, base, step);
    hide InvProcs, InvOps, InvLog, After, LogOk, CommitWrites, RecoveryWrites, Wrote, Recovered, SameHome;
    hide RecoversTo, Pinned;
    match step
    case Append(p) => DiskAppend(s, l, base, step);
    case End(p) => DiskEnd(s, l, base, step);
    case CommitWrite => DiskCommitWrite(s, l, base, step);
    case Finish => DiskFinish(s, l, base, step);
    case Crash => DiskCrash(s, l, base, step);
    case RecoverWrite => DiskRecovery(s, l, base, step);
    case RecoverDone => DiskRecovery(s, l, base, step);
    case _ =>
  }

  // ---- Whole runs ----

  predicate Next(s: State, l: Layout, step: Step, t: State) {
    Enabled(s, l, step) && Ready(s) && t == Do(s, l, step)
  }

  /** `states` is a run from power-on taking `steps` one after the other. */
  ghost predicate IsRun(states: seq<State>, steps: seq<Step>, l: Layout, base: Disk) {
    && |states| == |steps| + 1 && Init(states[0], l, base)
    && forall i :: 0 <= i < |steps| ==> Next(states[i], l, steps[i], states[i+1])
  }

  /** Up to state `i` what is logged fits the log on disk; LogFits says when it does. */
  ghost predicate Fits(states: seq<State>, l: Layout, i: nat) {
    i < |states| && forall j :: 0 <= j <= i ==> Room(states[j], l)
  }

  /** Up to state `i` no operation has added more than MAXOPBLOCKS blocks. */
  ghost predicate Bargain(states: seq<State>, i: nat) {
    i < |states| && forall j :: 0 <= j <= i ==> Modest(states[j])
  }

  lemma InitInv(s: State, l: Layout, base: Disk)
    requires Init(s, l, base)
    ensures Inv(s, l, base)
  {
    hide RecoveryWrites, Recovered, Pinned;
    InitCache(s, l, base);
    CountNone(s.procs);
    WroteNone(s.disk, [], RecoveryWrites(s.disk, l));
    assert RecoveryWrites(s.disk, l)[..0] == [];
    assert Writes([]) == [];
  }

  lemma {:induction false} RunInv(states: seq<State>, steps: seq<Step>, l: Layout, base: Disk, i: nat)
    requires IsRun(states, steps, l, base) && Fits(states, l, i)
    ensures Inv(states[i], l, base)
  {
    hide Inv, Init, Enabled, Ready;
    if i == 0 {
      InitInv(states[0], l, base);
    } else {
      RunInv(states, steps, l, base, i - 1);
      assert Next(states[i-1], l, steps[i-1], states[i]);
      InvStep(states[i-1], l, base, steps[i-1]);
    }
  }

  /** Whatever the size of the log. */
  lemma {:induction false} RunProcs(states: seq<State>, steps: seq<Step>, l: Layout, base: Disk, i: nat)
    requires IsRun(states, steps, l, base) && i < |states|
    ensures InvProcs(states[i])
  {
    hide InvProcs, Enabled, Ready;
    if i == 0 {
      InitProcs(states[0], l, base);
    } else {
      RunProcs(states, steps, l, base, i - 1);
      assert Next(states[i-1], l, steps[i-1], states[i]);
      ProcsStep(states[i-1], l, steps[i-1]);
    }
  }

  lemma InitProcs(s: State, l: Layout, base: Disk)
    requires Init(s, l, base)
    ensures InvProcs(s)
  {
    CountNone(s.procs);
  }

  lemma {:induction false} RunBudget(states: seq<State>, steps: seq<Step>, l: Layout, base: Disk, i: nat)
    requires IsRun(states, steps, l, base) && Bargain(states, i)
    ensures InvBudget(states[i])
  {
    hide InvProcs, InvBudget, Enabled, Ready, Modest;
    if i == 0 {
      InitBudget(states[0], l, base);
    } else {
      RunProcs(states, steps, l, base, i - 1);
      RunBudget(states, steps, l, base, i - 1);
      assert Next(states[i-1], l, steps[i-1], states[i]);
      BudgetStep(states[i-1], l, steps[i-1]);
    }
  }

  lemma InitBudget(s: State, l: Layout, base: Disk)
    requires Init(s, l, base)
    ensures InvBudget(s)
  {}

  lemma {:induction false} RunCache(states: seq<State>, steps: seq<Step>, l: Layout, base: Disk, i: nat)
    requires IsRun(states, steps, l, base) && i < |states|
    ensures InvCache(states[i])
  {
    hide InvCache, Enabled, Ready;
    if i == 0 {
      InitCache(states[0], l, base);
    } else {
      RunCache(states, steps, l, base, i - 1);
      assert Next(states[i-1], l, steps[i-1], states[i]);
      CacheStep(states[i-1], l, steps[i-1]);
    }
  }

  lemma InitCache(s: State, l: Layout, base: Disk)
    requires Init(s, l, base)
    ensures InvCache(s)
  {
    assert Pinned(s) == {};
  }

  /** Whatever the operations log, the header in memory has room for it: there are no more buffers
      than places in the header. */
  lemma HeaderFits(states: seq<State>, steps: seq<Step>, l: Layout, base: Disk, i: nat)
    requires IsRun(states, steps, l, base) && i < |states|
    ensures |states[i].lh| <= Bio.NBUF == LOGSIZE
  {
    hide IsRun;
    RunProcs(states, steps, l, base, i);
    RunCache(states, steps, l, base, i);
    LoggedFew(states[i]);
  }

  /** And a log on disk of at least NBUF blocks, header included, has room for every group that does
      not panic. */
  lemma LogFits(states: seq<State>, steps: seq<Step>, l: Layout, base: Disk, i: nat)
    requires IsRun(states, steps, l, base) && i < |states| && Bio.NBUF <= l.size
    ensures Fits(states, l, i)
  {
    hide IsRun;
    forall j | 0 <= j <= i ensures Room(states[j], l) {
      HeaderFits(states, steps, l, base, j);
    }
  }

  /** Crash safety over all runs.  At any moment, if the machine stopped there, recovery would
      leave the home blocks as the committed operations, applied in order to the initial contents,
      leave them.  The committed operations are whole: every write the operation ever logged is
      among them, and the operation has ended. */
  lemma CrashSafety(states: seq<State>, steps: seq<Step>, l: Layout, base: Disk, i: nat, op: nat)
    requires IsRun(states, steps, l, base) && Fits(states, l, i)
    ensures var s := states[i];
            && WritesFit(base, Writes(s.committed)) && RecoversTo(s.disk, l, After(base, s.committed))
            && (Mentions(s.committed, op) ==>
                  && !Mentions(s.current, op) && !Mentions(s.lost, op)
                  && forall p :: 0 <= p < |s.procs| && InOp(s.procs[p]) ==> s.procs[p].op != op)
  {
    RunInv(states, steps, l, base, i);
    hide After, InvLog, LogOk, RecoversTo;
    DiskRecovers(states[i], l, base);
  }

  /** Once recovery completes, the disk itself holds those home blocks and the log is empty. */
  lemma RecoveryCompletes(states: seq<State>, steps: seq<Step>, l: Layout, base: Disk, i: nat)
    requires IsRun(states, steps, l, base) && i < |steps| && Fits(states, l, i + 1) && steps[i].RecoverDone?
    ensures var s := states[i+1];
            && WritesFit(base, Writes(s.committed)) && SameHome(s.disk, l, After(base, s.committed))
            && LogOk(s.disk, l) && Targets(s.disk, l) == []
  {
    hide After, LogOk, Inv, Next, Init, Apply, Recovered;
    RunInv(states, steps, l, base, i + 1);
    assert Next(states[i], l, steps[i], states[i+1]);
    RecoverDoneRuns(states[i], l, steps[i], states[i+1]);
    RunningDisk(states[i+1], l, base);
  }

  lemma RecoverDoneRuns(s: State, l: Layout, step: Step, s': State)
    requires Next(s, l, step, s') && step.RecoverDone?
    ensures s'.phase.Running?
  {}

  lemma RunningDisk(s: State, l: Layout, base: Disk)
    requires Inv(s, l, base) && s.phase.Running?
    ensures WritesFit(base, Writes(s.committed)) && SameHome(s.disk, l, After(base, s.committed)) && LogOk(s.disk, l)
            && Targets(s.disk, l) == []
  {
    hide After, LogOk, InvProcs, InvOps, InvLog, Apply;
    NoTargets(s.disk, l);
  }

  /** Group commit: while a commit is under way no operation is in progress, so nothing is logged
      during it and end_op's "log.committing" panic cannot fire. */
  lemma GroupCommit(states: seq<State>, steps: seq<Step>, l: Layout, base: Disk, i: nat, p: nat)
    requires IsRun(states, steps, l, base) && i < |states| && states[i].phase.Committing? && p < |states[i].procs|
    ensures states[i].outstanding == 0 && !InOp(states[i].procs[p])
    ensures forall bno, data :: !Enabled(states[i], l, Check(p, bno, data))
    ensures !Enabled(states[i], l, Append(p)) && !Enabled(states[i], l, End(p))
  {
    RunProcs(states, steps, l, base, i);
    CountNone(states[i].procs);
  }

  /** When the last outstanding end_op has returned, everything logged so far is committed. */
  lemma Durability(states: seq<State>, steps: seq<Step>, l: Layout, base: Disk, i: nat)
    requires IsRun(states, steps, l, base) && Fits(states, l, i) && states[i].phase.Running?
             && states[i].outstanding == 0
    ensures states[i].current == [] && states[i].lh == []
  {
    RunInv(states, steps, l, base, i);
    hide InvDisk, InvOps;
    var s := states[i];
    assert forall k :: 0 <= k < |s.current| ==> Touches(s.current, s.current[k].w.addr);
  }

  /** Log space: the header never overflows, its entries are distinct, and what is logged plus what
      the operations in progress may still add fits the log. */
  lemma LogSpace(states: seq<State>, steps: seq<Step>, l: Layout, base: Disk, i: nat)
    requires IsRun(states, steps, l, base) && Bargain(states, i)
    ensures var s := states[i];
            && |s.lh| <= LOGSIZE && (s.phase.Running? ==> |s.lh| + SumUnused(s.procs) <= LOGSIZE)
            && forall j, k :: 0 <= j < k < |s.lh| ==> s.lh[j] != s.lh[k]
  {
    RunBudget(states, steps, l, base, i);
    RunProcs(states, steps, l, base, i);
  }

  /** With a log of more than LOGSIZE blocks log_write panics exactly when the header is full, and
      then every operation in progress has already added its MAXOPBLOCKS blocks: one with budget
      left never panics. */
  lemma TooBigExactly(states: seq<State>, steps: seq<Step>, l: Layout, base: Disk, i: nat, p: nat)
    requires IsRun(states, steps, l, base) && Bargain(states, i) && p < |states[i].procs| && states[i].procs[p].Active?
    ensures LOGSIZE < l.size ==> (TooBigNow(states[i], l) <==> |states[i].lh| == LOGSIZE)
    ensures LOGSIZE < l.size && TooBigNow(states[i], l) ==> states[i].procs[p].used == MAXOPBLOCKS
    ensures states[i].outstanding >= 1
  {
    RunBudget(states, steps, l, base, i);
    RunProcs(states, steps, l, base, i);
    CountNone(states[i].procs);
    UnusedBounds(states[i].procs, p);
  }

  /** No lost wakeup: a process asleep in begin_op still has a reason to sleep, and someone is
      going to wake it: a commit is under way or an operation is outstanding. */
  lemma SleepersWaitForSomeone(states: seq<State>, steps: seq<Step>, l: Layout, base: Disk, i: nat, p: nat)
    requires IsRun(states, steps, l, base) && i < |states| && p < |states[i].procs| && states[i].procs[p].Sleeping?
    ensures MustSleep(states[i]) && (states[i].phase.Committing? || states[i].outstanding > 0)
  {
    RunProcs(states, steps, l, base, i);
  }

  /** What is committed stays committed, in the same order. */
  lemma {:induction false} CommittedGrows(states: seq<State>, steps: seq<Step>, l: Layout, base: Disk, i: nat, j: nat)
    requires IsRun(states, steps, l, base) && i <= j < |states|
    ensures states[i].committed <= states[j].committed
    decreases j
  {
    hide Init, RecoveryWrites, CommitWrites, LogOk, Ready, Pinned;
    if i < j {
      CommittedGrows(states, steps, l, base, i, j - 1);
      assert Next(states[j-1], l, steps[j-1], states[j]);
    }
  }

  // ---- Absorbed writes count against a full log ----

  /** A run in which every operation keeps to MAXOPBLOCKS blocks. */
  ghost predicate FairRun(states: seq<State>, steps: seq<Step>, l: Layout, base: Disk): (r: bool)
    ensures r ==> |states| == |steps| + 1
  {
    IsRun(states, steps, l, base) && Bargain(states, |steps|)
  }

  lemma Extend(states: seq<State>, steps: seq<Step>, l: Layout, base: Disk, step: Step)
    returns (states': seq<State>, steps': seq<Step>)
    requires FairRun(states, steps, l, base) && Enabled(states[|steps|], l, step) && Ready(states[|steps|])
    ensures IsRun(states', steps', l, base) && |steps'| == |steps| + 1 && |states'| == |steps'| + 1
    ensures Modest(Do(states[|steps|], l, step)) ==> FairRun(states', steps', l, base)
    ensures states'[|steps'|] == Do(states[|steps|], l, step)
  {
    hide Init, Do, Enabled, Ready, Modest;
    steps' := steps + [step];
    states' := states + [Do(states[|steps|], l, step)];
    forall i | 0 <= i < |steps'| ensures Next(states'[i], l, steps'[i], states'[i+1]) {
      if i < |steps| { assert Next(states[i], l, steps[i], states[i+1]); }
    }
  }

  /** How far each of three operations is after `m` blocks, one block each in turn. */
  function Share(m: nat, q: nat): int { (m + 2 - q) / 3 }

  /** Nothing committed, and the disk as it was at power-on. */
  ghost predicate Fresh(s: State, l: Layout, base: Disk) {
    && s.committed == [] && |s.disk| == |s.view| == |base|
    && LogOk(s.disk, l) && Targets(s.disk, l) == [] && SameHome(s.disk, l, base)
  }

  ghost predicate Filled(s: State, l: Layout, base: Disk, m: nat) {
    && s.phase.Running? && s.outstanding == 3 && |s.procs| == 3 && Fresh(s, l, base) && |s.lh| == m
    && (forall i :: 0 <= i < m ==> s.lh[i] == l.start + l.size + i)
    && (forall q :: 0 <= q < 3 ==> s.procs[q].Active? && s.procs[q].used == Share(m, q))
  }

  /** Three processes, none in an operation, and an empty log. */
  ghost predicate Booted(s: State, l: Layout, base: Disk) {
    s.phase.Running? && s.outstanding == 0 && s.procs == [Idle, Idle, Idle] && Fresh(s, l, base) && s.lh == []
  }

  lemma Boot(l: Layout, base: Disk) returns (states: seq<State>, steps: seq<Step>)
    requires LogOk(base, l) && Targets(base, l) == []
    ensures FairRun(states, steps, l, base) && |states| == |steps| + 1 && Booted(states[|steps|], l, base)
  {
    var s0 := State(base, Recovering(base, 0), base, [], 0, [Idle, Idle, Idle], 0, [], [], []);
    NoTargets(base, l);
    states, steps := [s0], [];
    assert FairRun(states, steps, l, base);
    assert Enabled(s0, l, RecoverWrite) && Enabled(Do(s0, l, RecoverWrite), l, RecoverDone);
    BootedDisk(s0, l, base);
    hide FairRun, LogOk, SameHome, Pinned;
    states, steps := Extend(states, steps, l, base, RecoverWrite);
    states, steps := Extend(states, steps, l, base, RecoverDone);
  }

  lemma BootedDisk(s: State, l: Layout, base: Disk)
    requires Init(s, l, base) && Ready(s) && Enabled(s, l, RecoverWrite)
    requires var t := Do(s, l, RecoverWrite); Ready(t) && Enabled(t, l, RecoverDone)
    ensures Fresh(Do(Do(s, l, RecoverWrite), l, RecoverDone), l, base)
  {
    InitInv(s, l, base);
    var t := Do(s, l, RecoverWrite);
    var u := Do(t, l, RecoverDone);
    assert u.phase.Running? && u.committed == [] && s.lh == t.lh == u.lh == [] && 0 < l.size && |u.view| == |u.disk|;
    hide Inv, Enabled, Ready, Do, LogOk, Init, Pinned;
    InvStep(s, l, base, RecoverWrite);
    InvStep(t, l, base, RecoverDone);
    RunningDisk(u, l, base);
    assert Writes([]) == [];
  }

  lemma StartThree(l: Layout, base: Disk) returns (states: seq<State>, steps: seq<Step>)
    requires LogOk(base, l) && Targets(base, l) == []
    ensures FairRun(states, steps, l, base) && |states| == |steps| + 1 && Filled(states[|steps|], l, base, 0)
  {
    hide FairRun, LogOk, SameHome, Pinned;
    states, steps := Boot(l, base);
    states, steps := Extend(states, steps, l, base, Begin(0));
    states, steps := Extend(states, steps, l, base, Begin(1));
    states, steps := Extend(states, steps, l, base, Begin(2));
  }

  lemma FewPinned(s: State, extra: set<nat>, a: nat)
    requires forall p :: 0 <= p < |s.procs| && s.procs[p].Checked? ==> s.procs[p].bno as nat in extra
    ensures |Pinned(s) + {a}| <= |s.lh| + |extra| + 1
  {
    DistinctSize(s.lh);
    SubsetSize(Pinned(s) + {a}, Named(s.lh) + extra + {a});
  }

  lemma FillOne(states: seq<State>, steps: seq<Step>, l: Layout, base: Disk, m: nat)
      returns (states': seq<State>, steps': seq<Step>)
    requires |states| == |steps| + 1 && FairRun(states, steps, l, base) && Filled(states[|steps|], l, base, m)
    requires m < LOGSIZE && m < l.size - 1
    requires l.start + l.size + LOGSIZE < |base| < 0x1_0000_0000
    ensures FairRun(states', steps', l, base) && |states'| == |steps'| + 1 && Filled(states'[|steps'|], l, base, m + 1)
  {
    hide FairRun, LogOk, SameHome, Pinned;
    var p: nat := m % 3;
    var bno := l.start + l.size + m;
    assert bno !in states[|steps|].lh;
    FewPinned(states[|steps|], {}, bno);
    states', steps' := Extend(states, steps, l, base, Check(p, bno, ZeroBlock()));
    states', steps' := Extend(states', steps', l, base, Append(p));
  }

  /** Three operations log `n` blocks, taking turns. */
  lemma Fill(l: Layout, base: Disk, n: nat) returns (states: seq<State>, steps: seq<Step>)
    requires LogOk(base, l) && Targets(base, l) == [] && n <= LOGSIZE && n < l.size
    requires l.start + l.size + LOGSIZE < |base| < 0x1_0000_0000
    ensures FairRun(states, steps, l, base) && |states| == |steps| + 1 && Filled(states[|steps|], l, base, n)
  {
    hide FairRun, LogOk, Filled;
    states, steps := StartThree(l, base);
    for m := 0 to n
      invariant FairRun(states, steps, l, base) && |states| == |steps| + 1 && Filled(states[|steps|], l, base, m)
    {
      states, steps := FillOne(states, steps, l, base, m);
    }
  }

  /** "too big a transaction" can fire although no operation adds more than MAXOPBLOCKS blocks:
      three operations fill the log with ten blocks each, and the first then logs one of its own
      blocks again.  The write would have been absorbed, but the guard looks only at the length. */
  lemma AbsorbedWritePanics(l: Layout, base: Disk) returns (states: seq<State>, steps: seq<Step>)
    requires LogOk(base, l) && Targets(base, l) == [] && LOGSIZE < l.size
    requires l.start + l.size + LOGSIZE < |base| < 0x1_0000_0000
    ensures FairRun(states, steps, l, base)
    ensures var s := states[|steps|];
            && s.phase.Running? && |s.procs| == 3 && |s.lh| == LOGSIZE
            && (forall q :: 0 <= q < 3 ==> s.procs[q].Active? && s.procs[q].used <= MAXOPBLOCKS)
            && l.start + l.size in s.lh && TooBigNow(s, l)
  {
    states, steps := Fill(l, base, LOGSIZE);
    hide FairRun;
    assert states[|steps|].lh[0] == l.start + l.size;
  }

  /** No operation with budget left meets "too big a transaction". */
  ghost predicate NoneCutShort(states: seq<State>, l: Layout) {
    forall i, p :: 0 <= i < |states| && 0 <= p < |states[i].procs| ==> !CutShort(states[i], l, states[i].procs[p])
  }

  predicate CutShort(s: State, l: Layout, p: Proc) { p.Active? && p.used < MAXOPBLOCKS && TooBigNow(s, l) }

  /** As long as the operations keep to MAXOPBLOCKS blocks, none is cut short exactly when the log has
      more than LOGSIZE blocks. */
  lemma BudgetExactly(l: Layout, base: Disk)
    requires LogOk(base, l) && Targets(base, l) == [] && 2 <= l.size
    requires l.start + l.size + LOGSIZE < |base| < 0x1_0000_0000
    ensures (forall states, steps :: FairRun(states, steps, l, base) ==> NoneCutShort(states, l)) <==> LOGSIZE < l.size
  {
    hide LogOk, IsRun, Modest;
    if LOGSIZE < l.size {
      forall states, steps | FairRun(states, steps, l, base) ensures NoneCutShort(states, l) {
        LargeLogEnough(states, steps, l, base);
      }
    } else {
      var states, steps := Fill(l, base, l.size - 1);
      assert CutShort(states[|steps|], l, states[|steps|].procs[2]);
    }
  }

  lemma LargeLogEnough(states: seq<State>, steps: seq<Step>, l: Layout, base: Disk)
    requires FairRun(states, steps, l, base) && LOGSIZE < l.size
    ensures NoneCutShort(states, l)
  {
    hide IsRun, Modest;
    forall i, p | 0 <= i < |states| && 0 <= p < |states[i].procs| ensures !CutShort(states[i], l, states[i].procs[p]) {
      if states[i].procs[p].Active? { TooBigExactly(states, steps, l, base, i, p); }
    }
  }

  /** What an operation that takes more than its share leads to: another one, with budget left, meets
      the panic. */
  lemma GreedyPanics(l: Layout, base: Disk) returns (states: seq<State>, steps: seq<Step>)
    requires LogOk(base, l) && Targets(base, l) == [] && LOGSIZE < l.size
    requires l.start + l.size + LOGSIZE < |base| < 0x1_0000_0000
    ensures IsRun(states, steps, l, base)
    ensures var s := states[|steps|];
            && s.phase.Running? && |s.procs| == 3 && TooBigNow(s, l)
            && s.procs[0].Active? && s.procs[0].used == MAXOPBLOCKS + 1
            && s.procs[1].Active? && s.procs[1].used == MAXOPBLOCKS
            && s.procs[2].Active? && s.procs[2].used < MAXOPBLOCKS
  {
    hide FairRun, LogOk, SameHome, Pinned, IsRun;
    var m := LOGSIZE - 1;
    states, steps := Fill(l, base, m);
    var a := l.start + l.size + m;
    assert a !in states[|steps|].lh;
    FewPinned(states[|steps|], {}, a);
    states, steps := Extend(states, steps, l, base, Check(0, a, ZeroBlock()));
    states, steps := Extend(states, steps, l, base, Append(0));
  }

  // ---- A log of fewer than NBUF blocks ----

  /** A block whose contents are not `b`. */
  function Other(b: Block): (r: Block)
    ensures r != b
  {
    var r := b[0 := if b[0] == 0 then 1 else 0];
    assert r[0] != b[0];
    r
  }

  /** All of a log of `l.size` blocks is promised, and the last block logged holds `data`. */
  ghost predicate Overfull(s: State, l: Layout, base: Disk, data: Block) {
    && |s.procs| == 3 && Fresh(s, l, base) && |s.lh| == l.size && Modest(s)
    && (forall i :: 0 <= i < |s.lh| ==> s.lh[i] < |base|)
    && s.view[s.lh[l.size - 1]] == data
  }

  /** `m` blocks are logged, and `p` and `q` are both past log_write's unlocked test. */
  ghost predicate Racing(s: State, l: Layout, base: Disk, data: Block, m: nat, p: nat, q: nat, a: nat) {
    && s.phase.Running? && s.outstanding == 3 && |s.procs| == 3 && Fresh(s, l, base) && |s.lh| == m && Modest(s)
    && (forall i :: 0 <= i < |s.lh| ==> s.lh[i] < a) && a + 1 < |base| && p < 3 && q < 3 && p != q
    && (forall r :: 0 <= r < 3 && r != p && r != q ==> s.procs[r].Active?)
    && s.procs[p].Checked? && s.procs[p].bno == a && s.procs[p].used == Share(m, p)
    && s.procs[q].Checked? && s.procs[q].bno == a + 1 && s.procs[q].used == Share(m, q) && s.procs[q].data == data
  }

  lemma BothCheck(l: Layout, base: Disk, data: Block, m: nat, p: nat, q: nat, a: nat)
    returns (states: seq<State>, steps: seq<Step>)
    requires LogOk(base, l) && Targets(base, l) == [] && m + 2 <= Bio.NBUF && m < l.size - 1
    requires l.start + l.size + LOGSIZE < |base| < 0x1_0000_0000
    requires p == m % 3 && q == (m + 1) % 3 && a == l.start + l.size + m
    ensures FairRun(states, steps, l, base) && Racing(states[|steps|], l, base, data, m, p, q, a)
  {
    hide FairRun, LogOk, SameHome, Pinned, Share;
    states, steps := OneChecks(l, base, data, m, p, a);
    FewPinned(states[|steps|], {a}, a + 1);
    states, steps := Extend(states, steps, l, base, Check(q, a + 1, data));
  }

  /** One of three processes is past the test with block `a`. */
  ghost predicate OneChecked(s: State, l: Layout, base: Disk, m: nat, p: nat, a: nat) {
    && s.phase.Running? && s.outstanding == 3 && |s.procs| == 3 && Fresh(s, l, base) && |s.lh| == m && Modest(s)
    && (forall i :: 0 <= i < |s.lh| ==> s.lh[i] < a) && a + 1 < |base| && p < 3
    && (forall r :: 0 <= r < 3 ==>
          InOp(s.procs[r]) && s.procs[r].used == Share(m, r) && (s.procs[r].Checked? <==> r == p))
    && s.procs[p].Checked? && s.procs[p].bno == a
  }

  lemma OneChecks(l: Layout, base: Disk, data: Block, m: nat, p: nat, a: nat)
    returns (states: seq<State>, steps: seq<Step>)
    requires LogOk(base, l) && Targets(base, l) == [] && m + 2 <= Bio.NBUF && m < l.size - 1
    requires l.start + l.size + LOGSIZE < |base| < 0x1_0000_0000
    requires p < 3 && a == l.start + l.size + m
    ensures FairRun(states, steps, l, base) && OneChecked(states[|steps|], l, base, m, p, a)
  {
    hide FairRun, LogOk, SameHome, Pinned;
    states, steps := Fill(l, base, m);
    FewPinned(states[|steps|], {}, a);
    states, steps := Extend(states, steps, l, base, Check(p, a, data));
  }

  /** The first of them has appended. */
  ghost predicate HalfRaced(s: State, l: Layout, base: Disk, data: Block, m: nat, q: nat, a: nat) {
    && s.phase.Running? && s.outstanding == 3 && |s.procs| == 3 && Fresh(s, l, base) && |s.lh| == m + 1 && Modest(s)
    && (forall i :: 0 <= i < |s.lh| ==> s.lh[i] <= a) && a + 1 < |base| && q < 3
    && (forall r :: 0 <= r < 3 && r != q ==> s.procs[r].Active?)
    && s.procs[q].Checked? && s.procs[q].bno == a + 1 && s.procs[q].used < MAXOPBLOCKS && s.procs[q].data == data
  }

  lemma RaceFirst(l: Layout, base: Disk, data: Block, m: nat, q: nat, a: nat)
    returns (states: seq<State>, steps: seq<Step>)
    requires LogOk(base, l) && Targets(base, l) == [] && 2 <= l.size < Bio.NBUF
    requires l.start + l.size + LOGSIZE < |base| < 0x1_0000_0000
    requires m == l.size - 2 && q == (m + 1) % 3 && a == l.start + l.size + m
    ensures FairRun(states, steps, l, base) && HalfRaced(states[|steps|], l, base, data, m, q, a)
  {
    hide FairRun, LogOk, SameHome, Pinned;
    var p: nat := m % 3;
    states, steps := BothCheck(l, base, data, m, p, q, a);
    states, steps := Extend(states, steps, l, base, Append(p));
  }

  /** Two processes pass log_write's unlocked test when one place is left, then both append. */
  lemma Race(l: Layout, base: Disk, data: Block) returns (states: seq<State>, steps: seq<Step>)
    requires LogOk(base, l) && Targets(base, l) == [] && 2 <= l.size < Bio.NBUF
    requires l.start + l.size + LOGSIZE < |base| < 0x1_0000_0000
    ensures FairRun(states, steps, l, base)
    ensures var s := states[|steps|];
            && Overfull(s, l, base, data) && s.phase.Running? && s.outstanding == 3
            && forall q :: 0 <= q < 3 ==> s.procs[q].Active?
  {
    hide FairRun, LogOk, SameHome, Pinned;
    var m := l.size - 2;
    var q: nat := (m + 1) % 3;
    states, steps := RaceFirst(l, base, data, m, q, l.start + l.size + m);
    states, steps := Extend(states, steps, l, base, Append(q));
  }

  /** `k` blocks of the overfull log have been copied out. */
  ghost predicate Copied(s: State, l: Layout, base: Disk, data: Block, k: nat) {
    && s.phase.Committing? && s.phase.k == k <= |s.lh| == |s.phase.data| == l.size
    && 0 < l.size && s.phase.data[l.size - 1] == data
    && s.committed == [] && |s.disk| == |s.view| == |s.phase.from| == |base| && l.start + l.size < |base|
    && (forall i :: 0 <= i < |s.lh| ==> s.lh[i] < |base|) && (forall p :: 0 <= p < |s.procs| ==> !InOp(s.procs[p]))
    && LogOk(s.disk, l) && Targets(s.disk, l) == []
    && (k == l.size ==> s.disk[l.start + l.size] == data)
  }

  lemma EndThree(l: Layout, base: Disk, data: Block) returns (states: seq<State>, steps: seq<Step>)
    requires LogOk(base, l) && Targets(base, l) == [] && 2 <= l.size < Bio.NBUF
    requires l.start + l.size + LOGSIZE < |base| < 0x1_0000_0000
    ensures FairRun(states, steps, l, base) && |states| == |steps| + 1 && Copied(states[|steps|], l, base, data, 0)
  {
    hide FairRun, LogOk, SameHome, Pinned;
    states, steps := Race(l, base, data);
    states, steps := Extend(states, steps, l, base, End(0));
    states, steps := Extend(states, steps, l, base, End(1));
    states, steps := Extend(states, steps, l, base, End(2));
  }

  lemma CopyOne(states: seq<State>, steps: seq<Step>, l: Layout, base: Disk, data: Block, k: nat)
      returns (states': seq<State>, steps': seq<Step>)
    requires |states| == |steps| + 1 && FairRun(states, steps, l, base) && Copied(states[|steps|], l, base, data, k)
    requires k < l.size < Bio.NBUF
    ensures FairRun(states', steps', l, base) && |states'| == |steps'| + 1
            && Copied(states'[|steps'|], l, base, data, k + 1)
  {
    hide FairRun, LogOk, Pinned;
    var s := states[|steps|];
    assert NextCommitWrite(s, l) == Write(l.start + 1 + k, s.phase.data[k]);
    states', steps' := Extend(states, steps, l, base, CommitWrite);
    SameHeader(s.disk, states'[|steps'|].disk, l);
  }

  lemma SameHeader(d: Disk, e: Disk, l: Layout)
    requires LogOk(d, l) && Targets(d, l) == [] && |e| == |d| && e[l.start] == d[l.start]
    ensures LogOk(e, l) && Targets(e, l) == []
  {}

  /** The commit then writes the last block of the group over the block behind the log.  If the
      machine stops there, nothing is committed, and yet recovery leaves that home block changed. */
  lemma OverflowCorrupts(l: Layout, base: Disk) returns (states: seq<State>, steps: seq<Step>)
    requires LogOk(base, l) && Targets(base, l) == [] && 2 <= l.size < Bio.NBUF
    requires l.start + l.size + LOGSIZE < |base| < 0x1_0000_0000
    ensures FairRun(states, steps, l, base)
    ensures states[|steps|].committed == [] && !RecoversTo(states[|steps|].disk, l, base)
  {
    hide FairRun, LogOk, Copied;
    var a := l.start + l.size;
    states, steps := EndThree(l, base, Other(base[a]));
    for k := 0 to l.size
      invariant FairRun(states, steps, l, base) && |states| == |steps| + 1
      invariant Copied(states[|steps|], l, base, Other(base[a]), k)
    {
      states, steps := CopyOne(states, steps, l, base, Other(base[a]), k);
    }
    LostBlock(states[|steps|], l, base, Other(base[a]));
  }

  lemma LostBlock(s: State, l: Layout, base: Disk, data: Block)
    requires Copied(s, l, base, data, l.size) && data != base[l.start + l.size]
    ensures s.committed == [] && !RecoversTo(s.disk, l, base)
  {
    NoTargets(s.disk, l);
    assert Home(l, s.disk, l.start + l.size);
  }

  ghost predicate SafeRun(states: seq<State>, steps: seq<Step>, l: Layout, base: Disk) {
    forall i :: 0 <= i < |states| ==>
      WritesFit(base, Writes(states[i].committed)) && RecoversTo(states[i].disk, l, After(base, states[i].committed))
  }

  /** Every run is crash safe exactly when the log has at least NBUF blocks, header included; and it
      makes no difference whether the operations keep to MAXOPBLOCKS blocks. */
  lemma SafeExactly(l: Layout, base: Disk)
    requires LogOk(base, l) && Targets(base, l) == [] && 2 <= l.size
    requires l.start + l.size + LOGSIZE < |base| < 0x1_0000_0000
    ensures (forall states, steps :: IsRun(states, steps, l, base) ==> SafeRun(states, steps, l, base)) <==>
            Bio.NBUF <= l.size
    ensures (forall states, steps :: FairRun(states, steps, l, base) ==> SafeRun(states, steps, l, base)) <==>
            Bio.NBUF <= l.size
  {
    hide IsRun, RecoversTo, After, LogOk, SafeRun;
    if Bio.NBUF <= l.size {
      forall states, steps | IsRun(states, steps, l, base) ensures SafeRun(states, steps, l, base) {
        LargeLogSafe(states, steps, l, base);
      }
    } else {
      var states, steps := OverflowCorrupts(l, base);
      Unsafe(states, steps, l, base);
    }
  }

  lemma LargeLogSafe(states: seq<State>, steps: seq<Step>, l: Layout, base: Disk)
    requires IsRun(states, steps, l, base) && Bio.NBUF <= l.size
    ensures SafeRun(states, steps, l, base)
  {
    hide IsRun, RecoversTo, After, Fits;
    forall i | 0 <= i < |states|
      ensures WritesFit(base, Writes(states[i].committed))
              && RecoversTo(states[i].disk, l, After(base, states[i].committed))
    {
      LogFits(states, steps, l, base, i);
      CrashSafety(states, steps, l, base, i, 0);
    }
  }

  lemma Unsafe(states: seq<State>, steps: seq<Step>, l: Layout, base: Disk)
    requires IsRun(states, steps, l, base)
    requires states[|steps|].committed == [] && !RecoversTo(states[|steps|].disk, l, base)
    ensures !SafeRun(states, steps, l, base)
  {
    hide RecoversTo, Init, Next;
    assert Writes([]) == [];
    assert After(base, []) == base;
  }
}
