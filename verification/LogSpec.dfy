/** The on-disk redo log of log.c: a header block naming home blocks, followed by
    their new contents.  A disk is a sequence of blocks and changes by one atomic
    block write at a time, so a crash leaves the disk after some prefix of the
    writes that were on their way. */
module LogSpec {
  import opened Blocks

  const MAXOPBLOCKS: nat := 10
  const LOGSIZE: nat := 30

  /** begin_op's guard: the log has room for one more operation of full size. */
  predicate RoomFor(n: int, outstanding: int) { n + (outstanding + 1) * MAXOPBLOCKS <= LOGSIZE }

  /** log_write's guard for "too big a transaction". */
  predicate TooBig(n: int, size: int) { n >= LOGSIZE || n >= size - 1 }

  type Disk = seq<Block>
  datatype Write = Write(addr: nat, data: Block)

  /** log.start and log.size, as read from the superblock. */
  datatype Layout = Layout(start: nat, size: nat)

  predicate InLog(l: Layout, a: nat) { l.start <= a < l.start + l.size }

  predicate Home(l: Layout, d: Disk, a: nat) { a < |d| && !InLog(l, a) }

  // ---- The header block ----

  function HeaderN(b: Block): nat { GetWord(b, 0) }

  predicate HeaderOk(b: Block) { HeaderN(b) <= LOGSIZE }

  function HeaderTargets(b: Block): (ts: seq<Word>)
    requires HeaderOk(b)
    ensures |ts| == HeaderN(b)
  {
    seq(HeaderN(b), i requires 0 <= i < HeaderN(b) => GetWord(b, 1 + i))
  }

  /** write_head: n and the first n entries are stored; the rest of the block keeps
      what the previous header left there. */
  function PutHeader(b: Block, ts: seq<Word>): Block
    requires |ts| <= LOGSIZE
  {
    PutWords(PutWord(b, 0, |ts|), 1, ts)
  }

  lemma HeaderRoundTrip(b: Block, ts: seq<Word>)
    requires |ts| <= LOGSIZE
    ensures HeaderOk(PutHeader(b, ts)) && HeaderTargets(PutHeader(b, ts)) == ts
  {
    var h := PutHeader(b, ts);
    PutWordsGet(PutWord(b, 0, |ts|), 1, ts, 0);
    PutWordGet(b, 0, |ts|, 0);
    forall i | 0 <= i < |ts| ensures GetWord(h, 1 + i) == ts[i] {
      PutWordsGet(PutWord(b, 0, |ts|), 1, ts, 1 + i);
    }
  }

  // ---- Sequences of block writes ----

  predicate WritesFit(d: Disk, ws: seq<Write>) { forall i :: 0 <= i < |ws| ==> ws[i].addr < |d| }

  function Apply(d: Disk, ws: seq<Write>): (e: Disk)
    requires WritesFit(d, ws)
    ensures |e| == |d|
    decreases |ws|
  {
    if |ws| == 0 then d
    else Apply(d, ws[..|ws|-1])[ws[|ws|-1].addr := ws[|ws|-1].data]
  }

  lemma {:induction false} ApplyConcat(d: Disk, v: seq<Write>, w: seq<Write>)
    requires WritesFit(d, v) && WritesFit(d, w)
    ensures WritesFit(d, v + w) && Apply(d, v + w) == Apply(Apply(d, v), w)
    decreases |w|
  {
    if |w| == 0 {
      assert v + w == v;
    } else {
      var w' := w[..|w|-1];
      assert (v + w)[..|v + w|-1] == v + w';
      ApplyConcat(d, v, w');
    }
  }

  /** A block no write names keeps its content. */
  lemma {:induction false} ApplyFrame(d: Disk, ws: seq<Write>, a: nat)
    requires WritesFit(d, ws) && a < |d|
    requires forall i :: 0 <= i < |ws| ==> ws[i].addr != a
    ensures Apply(d, ws)[a] == d[a]
    decreases |ws|
  {
    if |ws| != 0 {
      ApplyFrame(d, ws[..|ws|-1], a);
    }
  }

  /** A block holds what the last write to it stored. */
  lemma {:induction false} ApplyLast(d: Disk, ws: seq<Write>, i: nat)
    requires WritesFit(d, ws) && i < |ws|
    requires forall j :: i < j < |ws| ==> ws[j].addr != ws[i].addr
    ensures Apply(d, ws)[ws[i].addr] == ws[i].data
    decreases |ws|
  {
    if i < |ws| - 1 {
      ApplyLast(d, ws[..|ws|-1], i);
    }
  }

  // ---- What recovery reads out of a disk ----

  /** The disk carries a readable log: the header fits, and the blocks it names are home blocks. */
  predicate LogOk(d: Disk, l: Layout) {
    && 0 < l.size && l.start + l.size <= |d|
    && HeaderOk(d[l.start])
    && HeaderN(d[l.start]) < l.size
    && forall i :: 0 <= i < HeaderN(d[l.start]) ==> Home(l, d, HeaderTargets(d[l.start])[i])
  }

  function Targets(d: Disk, l: Layout): seq<Word>
    requires LogOk(d, l)
  {
    HeaderTargets(d[l.start])
  }

  /** The logged contents, entry by entry. */
  function LogData(d: Disk, l: Layout): (r: seq<Block>)
    requires LogOk(d, l)
    ensures |r| == |Targets(d, l)| && forall i :: 0 <= i < |r| ==> r[i] == d[l.start + 1 + i]
  {
    d[l.start + 1..l.start + 1 + HeaderN(d[l.start])]
  }

  /** Index of the last entry naming block `a`. */
  function LastIndex(ts: seq<Word>, a: nat): (i: nat)
    requires a in ts
    ensures i < |ts| && ts[i] == a && forall j :: i < j < |ts| ==> ts[j] != a
    decreases |ts|
  {
    if ts[|ts|-1] == a then |ts| - 1 else LastIndex(ts[..|ts|-1], a)
  }

  /** The value a home block has once a completed recovery has replayed the log. */
  function Recovered(d: Disk, l: Layout, a: nat): Block
    requires LogOk(d, l) && Home(l, d, a)
  {
    var ts := Targets(d, l);
    if a in ts then LogData(d, l)[LastIndex(ts, a)] else d[a]
  }

  ghost predicate SameRecovered(d: Disk, e: Disk, l: Layout)
    requires LogOk(d, l) && LogOk(e, l) && |d| == |e|
  {
    forall a: nat :: Home(l, d, a) ==> Recovered(d, l, a) == Recovered(e, l, a)
  }

  // ---- recover_from_log ----

  function InstallWrites(ts: seq<Word>, data: seq<Block>): (ws: seq<Write>)
    requires |ts| == |data|
    ensures |ws| == |ts|
  {
    seq(|ts|, i requires 0 <= i < |ts| => Write(ts[i], data[i]))
  }

  /** install_trans over the logged entries, then write_head with an empty log. */
  function RecoveryWrites(d: Disk, l: Layout): seq<Write>
    requires LogOk(d, l)
  {
    InstallWrites(Targets(d, l), LogData(d, l)) + [Write(l.start, PutHeader(d[l.start], []))]
  }

  /** Two disks with the same log region carry the same log. */
  lemma SameLog(d: Disk, e: Disk, l: Layout)
    requires LogOk(d, l) && |d| == |e|
    requires forall a: nat :: InLog(l, a) ==> e[a] == d[a]
    ensures LogOk(e, l) && Targets(e, l) == Targets(d, l) && LogData(e, l) == LogData(d, l)
  {
    assert e[l.start..l.start + l.size] == d[l.start..l.start + l.size];
    assert e[l.start] == d[l.start];
  }

  /** Installing any part of the log changes neither the log nor what recovery will produce. */
  lemma PartialInstall(d: Disk, l: Layout, k: nat)
    requires LogOk(d, l) && k <= HeaderN(d[l.start])
    ensures WritesFit(d, RecoveryWrites(d, l)[..k])
    ensures var e := Apply(d, RecoveryWrites(d, l)[..k]);
            LogOk(e, l) && SameRecovered(d, e, l)
  {
    var ws := RecoveryWrites(d, l)[..k];
    var ts := Targets(d, l);
    assert forall i :: 0 <= i < k ==> ws[i].addr == ts[i];
    var e := Apply(d, ws);
    forall a: nat | InLog(l, a) ensures e[a] == d[a] { ApplyFrame(d, ws, a); }
    SameLog(d, e, l);
    forall a: nat | Home(l, d, a) ensures Recovered(d, l, a) == Recovered(e, l, a) {
      if a !in ts { ApplyFrame(d, ws, a); }
    }
  }

  /** A completed recovery has put every home block at its recovered value and emptied the log. */
  lemma FullRecovery(d: Disk, l: Layout)
    requires LogOk(d, l)
    ensures WritesFit(d, RecoveryWrites(d, l))
    ensures var e := Apply(d, RecoveryWrites(d, l));
            && LogOk(e, l) && Targets(e, l) == []
            && forall a: nat :: Home(l, d, a) ==> e[a] == Recovered(d, l, a)
  {
    var ws := RecoveryWrites(d, l);
    var e := Apply(d, ws);
    HeaderRoundTrip(d[l.start], []);
    ApplyLast(d, ws, |ws| - 1);
    forall a: nat | Home(l, d, a) ensures e[a] == Recovered(d, l, a) {
      if a in Targets(d, l) {
        ApplyLast(d, ws, LastIndex(Targets(d, l), a));
      } else {
        ApplyFrame(d, ws, a);
      }
    }
  }

  /** Recovery interrupted after any number of its writes, any number of times;
      `crashes[i]` is how far the i-th attempt got. */
  function AfterCrashes(d: Disk, l: Layout, crashes: seq<nat>): (e: Disk)
    requires LogOk(d, l)
    ensures |e| == |d| && LogOk(e, l) && SameRecovered(d, e, l)
    decreases |crashes|
  {
    if |crashes| == 0 then d
    else
      var ws := RecoveryWrites(d, l);
      var k := if crashes[0] < |ws| then crashes[0] else |ws|;
      RecoveryStep(d, l, k);
      AfterCrashes(Apply(d, ws[..k]), l, crashes[1..])
  }

  lemma RecoveryStep(d: Disk, l: Layout, k: nat)
    requires LogOk(d, l) && k <= |RecoveryWrites(d, l)|
    ensures WritesFit(d, RecoveryWrites(d, l)[..k])
    ensures var e := Apply(d, RecoveryWrites(d, l)[..k]); LogOk(e, l) && SameRecovered(d, e, l)
  {
    if k == |RecoveryWrites(d, l)| {
      assert RecoveryWrites(d, l)[..k] == RecoveryWrites(d, l);
      FullRecovery(d, l);
    } else {
      PartialInstall(d, l, k);
    }
  }

  // ---- commit ----

  /** write_log, write_head, install_trans and the clearing write_head, in order. */
  function CommitWrites(d: Disk, l: Layout, ts: seq<Word>, data: seq<Block>): (ws: seq<Write>)
    requires l.start < |d| && |ts| == |data| <= LOGSIZE
    ensures |ws| == 2 * |ts| + 2
  {
    var h := PutHeader(d[l.start], ts);
    LogWrites(l, data) + [Write(l.start, h)] + InstallWrites(ts, data) + [Write(l.start, PutHeader(h, []))]
  }

  function LogWrites(l: Layout, data: seq<Block>): (ws: seq<Write>)
    ensures |ws| == |data|
  {
    seq(|data|, i requires 0 <= i < |data| => Write(l.start + 1 + i, data[i]))
  }

  /** A transaction that may be committed on an empty log. */
  predicate CanCommit(d: Disk, l: Layout, ts: seq<Word>, data: seq<Block>) {
    && LogOk(d, l) && Targets(d, l) == []
    && |ts| == |data| <= LOGSIZE && |ts| < l.size
    && forall i :: 0 <= i < |ts| ==> Home(l, d, ts[i])
  }

  /** The value of home block `a` once the transaction is in. */
  function Installed(d: Disk, ts: seq<Word>, data: seq<Block>, a: nat): Block
    requires |ts| == |data| && a < |d|
  {
    if a in ts then data[LastIndex(ts, a)] else d[a]
  }

  /** Recovery from `e` would leave every home block as it is on `d`. */
  ghost predicate RecoversOld(e: Disk, d: Disk, l: Layout) {
    |e| == |d| && LogOk(e, l) && forall a: nat :: Home(l, d, a) ==> Recovered(e, l, a) == d[a]
  }

  /** Recovery from `e` would leave every home block as the transaction wants it. */
  ghost predicate RecoversNew(e: Disk, d: Disk, l: Layout, ts: seq<Word>, data: seq<Block>)
    requires |ts| == |data|
  {
    |e| == |d| && LogOk(e, l) && forall a: nat :: Home(l, d, a) ==> Recovered(e, l, a) == Installed(d, ts, data, a)
  }

  /** Before the first header write the log still reads as empty. */
  lemma BeforeHeader(d: Disk, l: Layout, ts: seq<Word>, data: seq<Block>, k: nat)
    requires CanCommit(d, l, ts, data) && k <= |ts|
    ensures WritesFit(d, CommitWrites(d, l, ts, data)[..k])
    ensures RecoversOld(Apply(d, CommitWrites(d, l, ts, data)[..k]), d, l)
  {
    var ws := CommitWrites(d, l, ts, data)[..k];
    forall a: nat | a < |d| && (a == l.start || Home(l, d, a)) ensures Apply(d, ws)[a] == d[a] {
      ApplyFrame(d, ws, a);
    }
  }

  /** The disk when the header has just been written. */
  lemma HeaderWritten(d: Disk, l: Layout, ts: seq<Word>, data: seq<Block>)
    requires CanCommit(d, l, ts, data)
    ensures WritesFit(d, CommitWrites(d, l, ts, data)[..|ts|+1])
    ensures var e := Apply(d, CommitWrites(d, l, ts, data)[..|ts|+1]);
            && |e| == |d| && e[l.start] == PutHeader(d[l.start], ts)
            && (forall i :: 0 <= i < |ts| ==> e[l.start + 1 + i] == data[i])
            && (forall a: nat :: Home(l, d, a) ==> e[a] == d[a])
  {
    hide PutHeader, HeaderN, HeaderTargets;
    var n := |ts|;
    var h := PutHeader(d[l.start], ts);
    var ws := LogWrites(l, data) + [Write(l.start, h)];
    assert ws == CommitWrites(d, l, ts, data)[..n+1];
    var e := Apply(d, ws);
    assert e[l.start] == h by { ApplyLast(d, ws, n); }
    forall i | 0 <= i < n ensures e[l.start + 1 + i] == data[i] { ApplyLast(d, ws, i); }
    forall a: nat | Home(l, d, a) ensures e[a] == d[a] { ApplyFrame(d, ws, a); }
  }

  /** The first header write makes the whole transaction recoverable. */
  lemma AtHeader(d: Disk, l: Layout, ts: seq<Word>, data: seq<Block>)
    requires CanCommit(d, l, ts, data)
    ensures WritesFit(d, CommitWrites(d, l, ts, data)[..|ts|+1])
    ensures var e := Apply(d, CommitWrites(d, l, ts, data)[..|ts|+1]);
            && e[l.start] == PutHeader(d[l.start], ts)
            && LogOk(e, l) && Targets(e, l) == ts && LogData(e, l) == data
            && RecoversNew(e, d, l, ts, data)
  {
    hide Apply, CommitWrites, PutHeader, WritesFit;
    HeaderWritten(d, l, ts, data);
    HeaderRoundTrip(d[l.start], ts);
    var e := Apply(d, CommitWrites(d, l, ts, data)[..|ts|+1]);
    assert LogData(e, l) == data;
  }

  /** From the header write on, commit does exactly what a recovery would do. */
  lemma AfterHeader(d: Disk, l: Layout, ts: seq<Word>, data: seq<Block>)
    requires CanCommit(d, l, ts, data)
    ensures var ws := CommitWrites(d, l, ts, data);
            && WritesFit(d, ws[..|ts|+1])
            && var e := Apply(d, ws[..|ts|+1]);
               LogOk(e, l) && ws == ws[..|ts|+1] + RecoveryWrites(e, l)
  {
    hide Apply, PutHeader, InstallWrites, LogWrites, RecoversNew;
    AtHeader(d, l, ts, data);
    var ws := CommitWrites(d, l, ts, data);
    var e := Apply(d, ws[..|ts|+1]);
    assert ws[|ts|+1..] == InstallWrites(ts, data) + [Write(l.start, PutHeader(PutHeader(d[l.start], ts), []))];
    assert ws == ws[..|ts|+1] + ws[|ts|+1..];
  }

  lemma SameRecoversNew(e: Disk, f: Disk, d: Disk, l: Layout, ts: seq<Word>, data: seq<Block>)
    requires |ts| == |data| && RecoversNew(e, d, l, ts, data)
    requires |e| == |f| && LogOk(f, l) && SameRecovered(e, f, l)
    ensures RecoversNew(f, d, l, ts, data)
  {}

  /** Commit interrupted after `k` writes: the transaction is recoverable in full or not at all,
      and it is in exactly when the header write happened. */
  lemma CommitPoint(d: Disk, l: Layout, ts: seq<Word>, data: seq<Block>, k: nat)
    requires CanCommit(d, l, ts, data) && k <= 2 * |ts| + 2
    ensures WritesFit(d, CommitWrites(d, l, ts, data)[..k])
    ensures var e := Apply(d, CommitWrites(d, l, ts, data)[..k]);
            if k <= |ts| then RecoversOld(e, d, l) else RecoversNew(e, d, l, ts, data)
  {
    assert l.start < |d|;
    hide Apply, PutHeader, LogOk, RecoversNew, RecoversOld, WritesFit;
    var n := |ts|;
    if k <= n {
      BeforeHeader(d, l, ts, data, k);
    } else {
      var ws := CommitWrites(d, l, ts, data);
      AtHeader(d, l, ts, data);
      AfterHeader(d, l, ts, data);
      var e := Apply(d, ws[..n+1]);
      var rs := RecoveryWrites(e, l)[..k-n-1];
      assert ws[..k] == ws[..n+1] + rs;
      RecoveryStep(e, l, k - n - 1);
      ApplyConcat(d, ws[..n+1], rs);
      SameRecoversNew(e, Apply(e, rs), d, l, ts, data);
    }
  }

  /** Crash atomicity.  Cut a commit after any number of its block writes, let recovery be cut
      any number of times, and let it finally run to completion: every home block then holds its
      old content, or every home block holds its new content; new exactly when the first header
      write had reached the disk.  The log ends empty, ready for the next transaction. */
  lemma CrashAtomicity(d: Disk, l: Layout, ts: seq<Word>, data: seq<Block>, k: nat, crashes: seq<nat>)
    requires CanCommit(d, l, ts, data) && k <= 2 * |ts| + 2
    ensures WritesFit(d, CommitWrites(d, l, ts, data)[..k])
    ensures var e := Apply(d, CommitWrites(d, l, ts, data)[..k]);
            && LogOk(e, l)
            && var f := AfterCrashes(e, l, crashes);
            && WritesFit(f, RecoveryWrites(f, l))
            && var g := Apply(f, RecoveryWrites(f, l));
            && LogOk(g, l) && Targets(g, l) == []
            && forall a: nat :: Home(l, d, a) ==>
                 g[a] == if k <= |ts| then d[a] else Installed(d, ts, data, a)
  {
    CommitPoint(d, l, ts, data, k);
    var e := Apply(d, CommitWrites(d, l, ts, data)[..k]);
    var f := AfterCrashes(e, l, crashes);
    FullRecovery(f, l);
  }

  /** With distinct block numbers, which log absorption guarantees, the i-th logged buffer
      is what ends up in the i-th named block. */
  lemma InstalledDistinct(d: Disk, ts: seq<Word>, data: seq<Block>, i: nat)
    requires |ts| == |data| && i < |ts| && ts[i] < |d|
    requires forall j, k :: 0 <= j < k < |ts| ==> ts[j] != ts[k]
    ensures Installed(d, ts, data, ts[i]) == data[i]
  {
    var j := LastIndex(ts, ts[i]);
    assert j >= i;
  }
}
