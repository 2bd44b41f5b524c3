/** log.c as code, on top of the buffer cache.  A method's `ok` is false when a bread inside it
    panicked for want of a buffer; the disk then holds a prefix of the intended writes, which is
    what a crash would have left. */
module LogCode {
  import opened Blocks
  import opened LogSpec
  import opened Bio
  import opened BioCode

  /** Disk `d` with history `h` moved to `d'` and `h'` by exactly the writes `ws`. */
  ghost predicate Wrote(d: Disk, h: seq<Write>, ws: seq<Write>, d': Disk, h': seq<Write>) {
    WritesFit(d, ws) && h' == h + ws && d' == Apply(d, ws)
  }

  lemma WroteNone(d: Disk, h: seq<Write>, ws: seq<Write>)
    ensures Wrote(d, h, ws[..0], d, h)
  {}

  lemma WroteOne(d: Disk, h: seq<Write>, ws: seq<Write>, k: nat, d': Disk, h': seq<Write>)
    requires k < |ws| && Wrote(d, h, ws[..k], d', h') && ws[k].addr < |d|
    ensures Wrote(d, h, ws[..k+1], d'[ws[k].addr := ws[k].data], h' + [ws[k]])
  {
    assert ws[..k+1] == ws[..k] + [ws[k]];
    assert ws[..k+1][..k] == ws[..k];
  }

  lemma WroteThen(d: Disk, h: seq<Write>, v: seq<Write>, d': Disk, h': seq<Write>, w: seq<Write>, d'': Disk,
                  h'': seq<Write>)
    requires Wrote(d, h, v, d', h') && Wrote(d', h', w, d'', h'')
    ensures Wrote(d, h, v + w, d'', h'')
  {
    ApplyConcat(d, v, w);
  }

  /** Log absorption: a block already named is not named again. */
  function Absorb(ts: seq<Word>, b: Word): (r: seq<Word>)
    ensures (forall i, j :: 0 <= i < j < |ts| ==> ts[i] != ts[j]) ==> forall i, j :: 0 <= i < j < |r| ==> r[i] != r[j]
    ensures forall x :: x in r <==> x in ts || x == b
  {
    if b in ts then ts else ts + [b]
  }

  /** The blocks named by `ts`, as `view` has them. */
  function Contents(view: seq<Block>, ts: seq<Word>): (r: seq<Block>)
    requires forall i :: 0 <= i < |ts| ==> ts[i] < |view|
    ensures |r| == |ts| && forall i :: 0 <= i < |r| ==> r[i] == view[ts[i]]
  {
    seq(|ts|, i requires 0 <= i < |ts| => view[ts[i]])
  }

  /** `v` is `v0` with the first `k` of `data` in the log blocks; home blocks look the same. */
  ghost predicate LogCopied(l: Layout, v0: seq<Block>, data: seq<Block>, k: nat, v: seq<Block>) {
    && k <= |data| && |v| == |v0| && l.start + 1 + k <= |v|
    && v[..l.start + 1] == v0[..l.start + 1]
    && v[l.start + 1..l.start + 1 + k] == data[..k]
    && v[l.start + 1 + k..] == v0[l.start + 1 + k..]
  }

  lemma LogCopiedNone(l: Layout, v: seq<Block>, data: seq<Block>)
    requires l.start < |v|
    ensures LogCopied(l, v, data, 0, v)
  {}

  lemma LogCopiedOne(l: Layout, v0: seq<Block>, data: seq<Block>, k: nat, v: seq<Block>)
    requires LogCopied(l, v0, data, k, v) && k < |data| && l.start + 1 + k < |v|
    ensures LogCopied(l, v0, data, k + 1, v[l.start + 1 + k := data[k]])
  {}

  lemma LogCopiedElsewhere(l: Layout, v0: seq<Block>, data: seq<Block>, k: nat, v: seq<Block>, a: nat)
    requires LogCopied(l, v0, data, k, v) && k < l.size && a < |v| && !InLog(l, a)
    ensures v[a] == v0[a]
  {
    if a <= l.start {
      assert v[a] == v[..l.start + 1][a];
    } else {
      assert v[a] == v[l.start + 1 + k..][a - l.start - 1 - k];
    }
  }

  /** One more block in the log. */
  lemma LogOne(l: Layout, d: Disk, h: seq<Write>, v: seq<Block>, ts: seq<Word>, data: seq<Block>, k: nat,
               d': Disk, h': seq<Write>, v': seq<Block>)
    requires |ts| == |data| < l.size && l.start + l.size <= |v| == |d| && k < |ts|
    requires forall i :: 0 <= i < |ts| ==> ts[i] < |v| && !InLog(l, ts[i])
    requires data == Contents(v, ts)
    requires Wrote(d, h, LogWrites(l, data)[..k], d', h') && LogCopied(l, v, data, k, v')
    ensures |d'| == |d| && |v'| == |v| && v'[ts[k]] == data[k]
    ensures Wrote(d, h, LogWrites(l, data)[..k+1], d'[l.start + k + 1 := data[k]], h'
            + [Write(l.start + k + 1, data[k])])
    ensures LogCopied(l, v, data, k + 1, v'[l.start + k + 1 := data[k]])
  {
    assert |v'| == |v|;
    hide LogCopied, Wrote;
    var ws := LogWrites(l, data);
    LogCopiedElsewhere(l, v, data, k, v', ts[k]);
    LogCopiedOne(l, v, data, k, v');
    WroteSize(d, h, ws[..k], d', h');
    assert ws[k] == Write(l.start + k + 1, data[k]);
    WroteOne(d, h, ws, k, d', h');
  }

  /** `v'` is `v` after the stores `ws`. */
  ghost predicate Moved(v: seq<Block>, ws: seq<Write>, v': seq<Block>) {
    WritesFit(v, ws) && v' == Apply(v, ws)
  }

  lemma MovedNone(v: seq<Block>, ws: seq<Write>)
    ensures Moved(v, ws[..0], v)
  {}

  lemma MovedOne(v: seq<Block>, ws: seq<Write>, k: nat, v': seq<Block>)
    requires k < |ws| && Moved(v, ws[..k], v') && ws[k].addr < |v|
    ensures |v| == |v'| && Moved(v, ws[..k+1], v'[ws[k].addr := ws[k].data])
  {
    assert ws[..k+1][..k] == ws[..k];
  }

  /** While installing, the log blocks keep what they hold. */
  lemma InstallReads(l: Layout, v: seq<Block>, ts: seq<Word>, data: seq<Block>, k: nat, v': seq<Block>)
    requires |ts| == |data| < l.size && l.start + l.size <= |v| && k < |ts|
    requires forall i :: 0 <= i < |ts| ==> ts[i] < |v| && !InLog(l, ts[i])
    requires v[l.start + 1..l.start + 1 + |data|] == data
    requires Moved(v, InstallWrites(ts, data)[..k], v')
    ensures |v'| == |v| && v'[l.start + 1 + k] == data[k]
  {
    ApplyFrame(v, InstallWrites(ts, data)[..k], l.start + 1 + k);
    assert v[l.start + 1 + k] == v[l.start + 1..l.start + 1 + |data|][k];
  }

  /** One more block installed. */
  lemma InstallOne(l: Layout, d: Disk, h: seq<Write>, v: seq<Block>, ts: seq<Word>, data: seq<Block>, k: nat,
                   d': Disk, h': seq<Write>, v': seq<Block>)
    requires |ts| == |data| < l.size && l.start + l.size <= |v| == |d| && k < |ts|
    requires forall i :: 0 <= i < |ts| ==> ts[i] < |v| && !InLog(l, ts[i])
    requires v[l.start + 1..l.start + 1 + |data|] == data
    requires Wrote(d, h, InstallWrites(ts, data)[..k], d', h') && Moved(v, InstallWrites(ts, data)[..k], v')
    ensures |d'| == |d| && |v'| == |v| && v'[l.start + 1 + k] == data[k]
    ensures Wrote(d, h, InstallWrites(ts, data)[..k+1], d'[ts[k] := data[k]], h' + [Write(ts[k], data[k])])
    ensures Moved(v, InstallWrites(ts, data)[..k+1], v'[ts[k] := data[k]])
  {
    hide Moved, Wrote;
    var ws := InstallWrites(ts, data);
    InstallReads(l, v, ts, data, k, v');
    WroteSize(d, h, ws[..k], d', h');
    WroteOne(d, h, ws, k, d', h');
    MovedOne(v, ws, k, v');
  }

  /** Stores to home blocks leave the log's header block alone. */
  lemma MovedKeeps(v: seq<Block>, l: Layout, ws: seq<Write>, v': seq<Block>)
    requires Moved(v, ws, v') && l.start < |v| && 0 < l.size
    requires forall i :: 0 <= i < |ws| ==> !InLog(l, ws[i].addr)
    ensures |v'| == |v| && v'[l.start] == v[l.start]
  {
    ApplyFrame(v, ws, l.start);
  }

  lemma MovedInstalled(v: seq<Block>, ts: seq<Word>, data: seq<Block>, v': seq<Block>, a: nat)
    requires |ts| == |data| && a < |v| && Moved(v, InstallWrites(ts, data), v')
    ensures |v'| == |v| && v'[a] == Installed(v, ts, data, a)
  {
    if a in ts {
      ApplyLast(v, InstallWrites(ts, data), LastIndex(ts, a));
    } else {
      ApplyFrame(v, InstallWrites(ts, data), a);
    }
  }

  /** Installing what the view already shows changes nothing a reader can see. */
  lemma InstalledSame(v: seq<Block>, v': seq<Block>, ts: seq<Word>, a: nat)
    requires |v| == |v'| && a < |v| && v'[a] == v[a]
    requires forall i :: 0 <= i < |ts| ==> ts[i] < |v|
    ensures Installed(v', ts, Contents(v, ts), a) == v[a]
  {}

  lemma LogCopiedView(l: Layout, v: seq<Block>, data: seq<Block>, v': seq<Block>)
    requires LogCopied(l, v, data, |data|, v') && |data| < l.size && l.start + l.size <= |v|
    ensures |v'| == |v| && v'[l.start] == v[l.start] && v'[l.start + 1..l.start + 1 + |data|] == data
    ensures forall a: nat :: a < |v| && !InLog(l, a) ==> v'[a] == v[a]
  {
    assert v'[l.start] == v'[..l.start + 1][l.start];
    forall a: nat | a < |v| && !InLog(l, a) ensures v'[a] == v[a] {
      LogCopiedElsewhere(l, v, data, |data|, v', a);
    }
  }

  lemma CommitParts(d: Disk, l: Layout, ts: seq<Word>, data: seq<Block>, k: nat)
    requires l.start < |d| && |ts| == |data| <= LOGSIZE && k <= |ts|
    ensures var ws, h := CommitWrites(d, l, ts, data), PutHeader(d[l.start], ts);
            && ws[..k] == LogWrites(l, data)[..k] && ws[|ts|] == Write(l.start, h)
            && ws[|ts|+1..] == InstallWrites(ts, data) + [Write(l.start, PutHeader(h, []))]
  {
    hide PutHeader, LogWrites, InstallWrites;
  }

  lemma StoreBelow(v: seq<Block>, a: nat, b: Block, lo: nat, hi: nat)
    requires a < lo <= hi <= |v|
    ensures v[a := b][lo..hi] == v[lo..hi]
  {}

  lemma WroteNothing(d: Disk, h: seq<Write>, ws: seq<Write>, d': Disk, h': seq<Write>)
    requires Wrote(d, h, ws[..0], d', h')
    ensures d' == d && h' == h
  {}

  lemma WroteSize(d: Disk, h: seq<Write>, ws: seq<Write>, d': Disk, h': seq<Write>)
    requires Wrote(d, h, ws, d', h')
    ensures |d'| == |d|
  {}

  lemma CommitDone(d: Disk, l: Layout, ts: seq<Word>, data: seq<Block>, h: seq<Write>, d': Disk, h': seq<Write>)
    requires CanCommit(d, l, ts, data) && Wrote(d, h, CommitWrites(d, l, ts, data), d', h')
    ensures LogOk(d', l) && Targets(d', l) == []
  {
    var ws := CommitWrites(d, l, ts, data);
    AfterHeader(d, l, ts, data);
    var e := Apply(d, ws[..|ts|+1]);
    FullRecovery(e, l);
    ApplyConcat(d, ws[..|ts|+1], RecoveryWrites(e, l));
  }

  // ---- Buffers other processes hold ----

  /** What is held stays held and as it was, and nothing else is. */
  ghost predicate SameHeld(bufs: seq<Buf>, bufs': seq<Buf>) {
    && |bufs'| == |bufs|
    && forall i :: 0 <= i < |bufs| ==>
         bufs'[i].busy == bufs[i].busy && (bufs[i].busy ==> bufs'[i] == bufs[i])
  }

  lemma HeldSame(bufs: seq<Buf>)
    ensures SameHeld(bufs, bufs)
  {}

  lemma HeldTrans(b0: seq<Buf>, b1: seq<Buf>, b2: seq<Buf>)
    requires SameHeld(b0, b1) && SameHeld(b1, b2)
    ensures SameHeld(b0, b2)
  {}

  lemma QuietKept(bufs: seq<Buf>, bufs': seq<Buf>)
    requires SameHeld(bufs, bufs') && forall i :: 0 <= i < |bufs| ==> !bufs[i].busy
    ensures forall i :: 0 <= i < |bufs'| ==> !bufs'[i].busy
  {}

  lemma HeldBusy(bufs: seq<Buf>, bufs': seq<Buf>, a: nat)
    requires SameHeld(bufs, bufs')
    ensures Busy(bufs', a) <==> Busy(bufs, a)
  {
    if i: nat :| i < |bufs| && bufs[i].busy && Caches(bufs[i], ROOTDEV, a) { assert bufs'[i].busy; }
    if i: nat :| i < |bufs| && bufs'[i].busy && Caches(bufs'[i], ROOTDEV, a) { assert bufs[i].busy; }
  }

  /** No one holds a block of the log or one of the blocks `ts`. */
  ghost predicate FreeOf(bufs: seq<Buf>, l: Layout, ts: seq<Word>) {
    forall a: nat :: InLog(l, a) || a in ts ==> !Busy(bufs, a)
  }

  lemma FreeAt(bufs: seq<Buf>, l: Layout, a: nat)
    requires FreeOf(bufs, l, []) && InLog(l, a)
    ensures !Busy(bufs, a)
  {}

  lemma FreeKept(bufs: seq<Buf>, bufs': seq<Buf>, l: Layout, ts: seq<Word>)
    requires FreeOf(bufs, l, ts) && SameHeld(bufs, bufs')
    ensures FreeOf(bufs', l, ts)
  {
    forall a: nat { HeldBusy(bufs, bufs', a); }
  }

  lemma FreeQuiet(bufs: seq<Buf>, disk: Disk, l: Layout, ts: seq<Word>)
    requires forall i :: 0 <= i < |bufs| ==> !bufs[i].busy
    ensures FreeOf(bufs, l, ts) && ReadersOnly(bufs, disk)
  {}

  /** Whoever holds a buffer has not changed it. */
  ghost predicate ReadersOnly(bufs: seq<Buf>, disk: Disk) {
    forall i :: 0 <= i < |bufs| && bufs[i].busy && bufs[i].valid && !bufs[i].dirty && bufs[i].blockno < |disk| ==>
      bufs[i].data == disk[bufs[i].blockno]
  }

  lemma ReadersKept(bufs: seq<Buf>, d: Disk, bufs': seq<Buf>, dst: nat, b: Block)
    requires SameHeld(bufs, bufs') && ReadersOnly(bufs, d) && dst < |d| && !Busy(bufs, dst)
    requires forall i :: 0 <= i < |bufs| && bufs[i].busy ==> bufs[i].dev == ROOTDEV
    ensures ReadersOnly(bufs', d[dst := b])
  {
    forall i | 0 <= i < |bufs| && bufs'[i].busy ensures bufs'[i].blockno != dst {
      assert bufs[i].busy && bufs[i].dev == ROOTDEV;
    }
  }

  lemma HeldDev(c: Cache)
    requires CacheOk(c)
    ensures forall i :: 0 <= i < NBUF && c.bufs[i].busy ==> c.bufs[i].dev == ROOTDEV
  {
    forall i | 0 <= i < NBUF && c.bufs[i].busy ensures c.bufs[i].dev == ROOTDEV {
      assert BufOk(c.bufs[i], c.disk, c.view);
    }
  }

  /** A block that is not dirty has its current contents on the disk. */
  lemma ReadersAgree(c: Cache, a: nat)
    requires CacheOk(c) && ReadersOnly(c.bufs, c.disk) && a < |c.disk| && !Dirty(c.bufs, a)
    ensures c.view[a] == c.disk[a]
  {
    if Cached(c.bufs, a) {
      var i: nat :| Holds(c.bufs, i, a);
      assert BufOk(c.bufs[i], c.disk, c.view);
      assert !c.bufs[i].dirty;
    }
  }

  // ---- Counting buffers ----

  ghost predicate AllDirty(bufs: seq<Buf>, ts: seq<Word>, from: nat) {
    forall i :: from <= i < |ts| ==> Dirty(bufs, ts[i])
  }

  /** Writing out block `a` leaves the other entries dirty. */
  lemma StillDirty(bufs: seq<Buf>, bufs': seq<Buf>, ts: seq<Word>, from: nat, to: nat, a: nat)
    requires AllDirty(bufs, ts, from) && from <= to && forall x: nat :: Dirty(bufs', x) <==> Dirty(bufs, x) && x != a
    requires forall i :: to <= i < |ts| ==> ts[i] != a
    ensures AllDirty(bufs', ts, to)
  {}

  lemma EntryDirty(bufs: seq<Buf>, ts: seq<Word>, from: nat, i: nat)
    requires AllDirty(bufs, ts, from) && from <= i < |ts|
    ensures Dirty(bufs, ts[i])
  {}

  /** Buffers that are held and not dirty. */
  ghost function HeldClean(bufs: seq<Buf>): set<nat> { set i: nat | i < |bufs| && bufs[i].busy && !bufs[i].dirty }

  ghost predicate Distinct(ts: seq<Word>) { forall i, j :: 0 <= i < j < |ts| ==> ts[i] != ts[j] }

  /** The numbers below `n`. */
  ghost function Range(n: nat): (r: set<nat>)
    ensures |r| == n && forall i: nat :: i in r <==> i < n
  {
    if n == 0 then {} else Range(n - 1) + {n - 1}
  }

  lemma SubsetSize(a: set<nat>, b: set<nat>)
    requires a <= b
    ensures |a| <= |b| && (|a| == |b| ==> a == b)
  {
    assert b == a + (b - a);
  }

  /** Buffers that cache the blocks `ts`, one each, are as many as those. */
  lemma {:induction false} OneEach(bufs: seq<Buf>, d: set<nat>, ts: seq<Word>)
    requires Distinct(ts) && forall i :: i in d ==> i < |bufs| && bufs[i].blockno in ts
    requires forall i, j :: i in d && j in d && i != j ==> bufs[i].blockno != bufs[j].blockno
    requires forall t :: t in ts ==> exists i :: i in d && bufs[i].blockno == t
    ensures |d| == |ts|
    decreases |ts|
  {
    if ts == [] {
      assert d == {};
    } else {
      var n := |ts| - 1;
      var t, rest := ts[n], ts[..n];
      assert t in ts;
      var i :| i in d && bufs[i].blockno == t;
      forall u | u in rest ensures exists j :: j in d - {i} && bufs[j].blockno == u {
        assert u in ts && u != t;
        var j :| j in d && bufs[j].blockno == u;
        assert j in d - {i};
      }
      OneEach(bufs, d - {i}, rest);
    }
  }

  /** When just the blocks `ts` are dirty, a buffer can be recycled exactly when these and the clean
      buffers others hold are fewer than all. */
  lemma SpareExactly(c: Cache, ts: seq<Word>)
    requires CacheOk(c) && Distinct(ts) && forall a: nat :: Dirty(c.bufs, a) <==> a in ts
    ensures Spare(c.bufs) <==> |ts| + |HeldClean(c.bufs)| < NBUF
  {
    hide Range;
    var h, all := HeldClean(c.bufs), Range(NBUF);
    var d := set i: nat | i < NBUF && c.bufs[i].dirty;
    DirtyCount(c, d, ts);
    assert d + h <= all && d !! h;
    SubsetSize(d + h, all);
    if Spare(c.bufs) {
      var i: nat :| i < NBUF && Recyclable(c.bufs[i]);
      assert i in all && i !in d + h;
    } else {
      forall i | i in all ensures i in d + h { assert !Recyclable(c.bufs[i]); }
      assert d + h == all;
    }
  }

  lemma DirtyCount(c: Cache, d: set<nat>, ts: seq<Word>)
    requires CacheOk(c) && Distinct(ts) && (forall a: nat :: Dirty(c.bufs, a) <==> a in ts)
    requires d == set i: nat | i < NBUF && c.bufs[i].dirty
    ensures |d| == |ts|
  {
    forall i | i in d ensures c.bufs[i].dev == ROOTDEV && c.bufs[i].blockno in ts {
      assert BufOk(c.bufs[i], c.disk, c.view);
      assert Dirty(c.bufs, c.bufs[i].blockno);
    }
    forall t | t in ts ensures exists i :: i in d && c.bufs[i].blockno == t {
      assert Dirty(c.bufs, t);
      var i: nat :| i < NBUF && c.bufs[i].dirty && Caches(c.bufs[i], ROOTDEV, t);
      assert i in d;
    }
    OneEach(c.bufs, d, ts);
  }

  /** Blocks that are dirty or held have a buffer each, so there are at most NBUF of them. */
  lemma PinnedFew(c: Cache, ts: seq<Word>)
    requires CacheOk(c) && Distinct(ts) && forall t: nat :: t in ts ==> Dirty(c.bufs, t) || Busy(c.bufs, t)
    ensures |ts| <= NBUF
  {
    hide Range;
    var d := set i: nat | i < NBUF && (c.bufs[i].dirty || c.bufs[i].busy) && c.bufs[i].blockno in ts;
    forall i | i in d ensures c.bufs[i].dev == ROOTDEV { assert BufOk(c.bufs[i], c.disk, c.view); }
    forall t: Word | t in ts ensures exists i :: i in d && c.bufs[i].blockno == t { PinnedAt(c, d, ts, t); }
    OneEach(c.bufs, d, ts);
    SubsetSize(d, Range(NBUF));
  }

  lemma PinnedAt(c: Cache, d: set<nat>, ts: seq<Word>, t: Word)
    requires |c.bufs| == NBUF && t in ts && (Dirty(c.bufs, t) || Busy(c.bufs, t))
    requires d == set i: nat | i < NBUF && (c.bufs[i].dirty || c.bufs[i].busy) && c.bufs[i].blockno in ts
    ensures exists i :: i in d && c.bufs[i].blockno == t
  {
    if Dirty(c.bufs, t) {
      var i: nat :| i < |c.bufs| && c.bufs[i].dirty && Caches(c.bufs[i], ROOTDEV, t);
      assert i in d && c.bufs[i].blockno == t;
    } else {
      var i: nat :| i < |c.bufs| && c.bufs[i].busy && Caches(c.bufs[i], ROOTDEV, t);
      assert i in d && c.bufs[i].blockno == t;
    }
  }

  /** A block that is cached but neither busy nor dirty leaves its buffer to be recycled. */
  lemma CleanSpare(bufs: seq<Buf>, a: nat)
    requires !Busy(bufs, a)
    ensures !Dirty(bufs, a) && !Spare(bufs) ==> forall i :: 0 <= i < |bufs| ==> !Caches(bufs[i], ROOTDEV, a)
  {}

  /** After the first of two breads. */
  lemma StillIdle(bufs: seq<Buf>, bufs': seq<Buf>, i: nat, first: nat, second: nat)
    requires i < |bufs| == |bufs'| && forall k :: 0 <= k < |bufs| && k != i ==> bufs'[k] == bufs[k]
    requires first != second && !Busy(bufs, second) && Holds(bufs', i, first)
    ensures !Busy(bufs', second)
    ensures SpareTwo(bufs) ==> Spare(bufs')
  {
    if SpareTwo(bufs) {
      var p, q :| 0 <= p < q < |bufs| && Recyclable(bufs[p]) && Recyclable(bufs[q]);
      assert Recyclable(bufs'[if p == i then q else p]);
    }
  }

  /** No one holds a buffer and nothing is dirty. */
  ghost predicate AllIdle(bufs: seq<Buf>) {
    (forall i :: 0 <= i < |bufs| ==> !bufs[i].busy) && forall a: nat :: !Dirty(bufs, a)
  }

  /** Installing the entries from `k` on will find its buffers: they are in the cache, or all of it
      is free. */
  ghost predicate Able(bufs: seq<Buf>, ts: seq<Word>, k: nat) {
    (Spare(bufs) && AllDirty(bufs, ts, k) && Distinct(ts)) || AllIdle(bufs)
  }

  lemma AbleNext(bufs: seq<Buf>, bufs': seq<Buf>, ts: seq<Word>, k: nat)
    requires Able(bufs, ts, k) && k < |ts| && SameHeld(bufs, bufs') && Spare(bufs')
    requires forall x: nat :: Dirty(bufs', x) <==> Dirty(bufs, x) && x != ts[k]
    ensures Able(bufs', ts, k + 1)
  {
    hide Dirty, Spare;
    if AllIdle(bufs) { QuietKept(bufs, bufs'); } else { StillDirty(bufs, bufs', ts, k, k + 1, ts[k]); }
  }

  lemma AbleNow(bufs: seq<Buf>, ts: seq<Word>, k: nat)
    requires Able(bufs, ts, k) && k < |ts|
    ensures AllIdle(bufs) || (Spare(bufs) && Dirty(bufs, ts[k]))
  {}

  lemma SpareAt(bufs: seq<Buf>, i: nat)
    requires i < |bufs| && Recyclable(bufs[i])
    ensures Spare(bufs)
  {}

  /** What a reader finds is on the disk or dirty. */
  lemma SourceOk(c: Cache, c': Cache, i: nat)
    requires CacheOk(c) && CacheOk(c') && c'.disk == c.disk && c'.view == c.view && SameDirty(c.bufs, c'.bufs)
    requires i < NBUF && c'.bufs[i].busy && c'.bufs[i].valid && !Busy(c.bufs, c'.bufs[i].blockno)
    ensures c'.bufs[i].blockno < |c.disk|
    ensures c'.bufs[i].dirty || c'.bufs[i].data == c.disk[c'.bufs[i].blockno]
  {
    var b := c'.bufs[i];
    assert BufOk(b, c'.disk, c'.view);
    if !Dirty(c.bufs, b.blockno) {
      Agreement(c, b.blockno);
    } else if k: nat :| k < NBUF && c'.bufs[k].dirty && Caches(c'.bufs[k], ROOTDEV, b.blockno) {
      assert k == i;
    }
  }

  /** Two buffers may be recycled. */
  ghost predicate SpareTwo(bufs: seq<Buf>) {
    exists i, j :: 0 <= i < j < |bufs| && Recyclable(bufs[i]) && Recyclable(bufs[j])
  }

  lemma AbleSpare(c: Cache, ts: seq<Word>, k: nat)
    requires CacheOk(c) && Able(c.bufs, ts, k)
    ensures Spare(c.bufs)
  {
    if AllIdle(c.bufs) { AllSpare(c); }
  }

  lemma AllSpare(c: Cache)
    requires CacheOk(c) && AllIdle(c.bufs)
    ensures Spare(c.bufs) && SpareTwo(c.bufs)
  {
    forall i | 0 <= i < NBUF ensures Recyclable(c.bufs[i]) {
      assert BufOk(c.bufs[i], c.disk, c.view);
      assert !Dirty(c.bufs, c.bufs[i].blockno);
    }
    assert Recyclable(c.bufs[0]) && Recyclable(c.bufs[1]);
  }

  /** What is dirty now was dirty then and is not among `ts`. */
  ghost predicate DirtyOutside(bufs: seq<Buf>, ts: seq<Word>, bufs': seq<Buf>) {
    forall a: nat :: Dirty(bufs', a) ==> Dirty(bufs, a) && a !in ts
  }

  lemma DirtyMore(bufs: seq<Buf>, i: nat, bufs': seq<Buf>)
    requires i < |bufs| && bufs[i].dev == ROOTDEV && bufs' == bufs[i := bufs[i].(dirty := true)]
    ensures forall a: nat :: Dirty(bufs', a) <==> Dirty(bufs, a) || a == bufs[i].blockno
  {
    assert bufs'[i].dirty && Caches(bufs'[i], ROOTDEV, bufs[i].blockno);
    forall a: nat ensures Dirty(bufs', a) <==> Dirty(bufs, a) || a == bufs[i].blockno {
      if k: nat :| k < |bufs| && bufs[k].dirty && Caches(bufs[k], ROOTDEV, a) { assert bufs'[k].dirty; }
      if k: nat :| k < |bufs| && bufs'[k].dirty && Caches(bufs'[k], ROOTDEV, a) { assert bufs[k].dirty || k == i; }
    }
  }

  lemma DirtySame(bufs: seq<Buf>, ts: seq<Word>)
    ensures DirtyOutside(bufs, ts[..0], bufs)
  {}

  lemma DirtyLess(b0: seq<Buf>, b1: seq<Buf>, b2: seq<Buf>, ts: seq<Word>, k: nat)
    requires k < |ts| && DirtyOutside(b0, ts[..k], b1)
    requires forall x: nat :: Dirty(b2, x) <==> Dirty(b1, x) && x != ts[k]
    ensures DirtyOutside(b0, ts[..k+1], b2)
  {
    hide Dirty;
    assert ts[..k+1] == ts[..k] + [ts[k]];
  }

  datatype LogWriteOutcome = Logged | PanicTooBig | PanicOutside

  class Log {
    const bc: BufferCache
    const l: Layout
    var n: nat                  // log.lh.n
    const block: array<Word>    // log.lh.block
    var outstanding: int
    var committing: bool

    ghost predicate Valid()
      reads this, block, bc, bc.bufs, bc.next, bc.prev
    {
      && block.Length == LOGSIZE && n <= LOGSIZE
      && block as object != bc.next && block as object != bc.prev && block as object != bc.bufs
      && bc.Valid()
      && 0 < l.size && l.start + l.size <= |bc.disk|
    }

    /** No buffer is in anyone's hands. */
    ghost predicate Quiet()
      reads bc, bc.bufs
    {
      forall i :: 0 <= i < bc.bufs.Length ==> !bc.bufs[i].busy
    }

    /** Others hold buffers only to read them, and none of the log or of a logged block; bread would
        wait for those. */
    ghost predicate Undisturbed()
      reads this, block, bc, bc.bufs
      requires block.Length == LOGSIZE && n <= LOGSIZE
    {
      ReadersOnly(bc.bufs[..], bc.disk) && FreeOf(bc.bufs[..], l, block[..n])
    }

    /** The entries from `from` on are dirty, hence cached. */
    ghost predicate Pinned(from: nat)
      reads this, block, bc, bc.bufs
      requires block.Length == LOGSIZE && n <= LOGSIZE
    {
      AllDirty(bc.bufs[..], block[..n], from)
    }

    /** The blocks in the log header are home blocks and fit the log. */
    ghost predicate EntriesOk()
      reads this, block, bc
      requires block.Length == LOGSIZE && n <= LOGSIZE
    {
      n < l.size && forall i :: 0 <= i < n ==> Home(l, bc.disk, block[i])
    }

    ghost predicate OnlyEntriesDirty(from: nat)
      reads this, block, bc, bc.bufs
      requires block.Length == LOGSIZE && n <= LOGSIZE
    {
      forall a: nat :: Dirty(bc.bufs[..], a) ==> exists j :: from <= j < n && block[j] == a
    }

    constructor (bc: BufferCache, l: Layout)
      requires bc.Valid() && 0 < l.size && l.start + l.size <= |bc.disk|
      ensures Valid() && this.bc == bc && this.l == l && n == 0 && fresh(block)
      ensures outstanding == 0 && !committing
    {
      this.bc, this.l, n, outstanding, committing := bc, l, 0, 0, false;
      block := new Word[LOGSIZE];
    }

    /** Two breads in a row. */
    method ReadPair(first: nat, second: nat) returns (ok: bool, i: nat, j: nat)
      requires Valid() && first != second && first < |bc.disk| && second < |bc.disk|
      requires !Busy(bc.bufs[..], first) && !Busy(bc.bufs[..], second)
      modifies bc, bc.bufs
      ensures Valid() && unchanged(bc)
      ensures old(Spare(bc.bufs[..])) && old(Dirty(bc.bufs[..], second)) ==> ok
      ensures old(SpareTwo(bc.bufs[..])) ==> ok
      ensures !old(Spare(bc.bufs[..])) && !old(Dirty(bc.bufs[..], first)) ==> !ok
      ensures ok ==> i < NBUF && j < NBUF && i != j && !old(bc.bufs[i].busy) && !old(bc.bufs[j].busy)
      ensures ok ==> bc.bufs[i].busy && Holds(bc.bufs[..], i, first) && bc.bufs[j].busy && Holds(bc.bufs[..], j, second)
      ensures ok ==> forall k :: 0 <= k < NBUF && k != i && k != j ==> bc.bufs[k] == old(bc.bufs[k])
      ensures SameDirty(old(bc.bufs[..]), bc.bufs[..])
    {
      hide Linked, LruSorted, CacheOk;
      ok, i, j := false, 0, 0;
      ghost var b0 := bc.bufs[..];
      var r := bc.Bread(first);
      CleanSpare(b0, first);
      if !r.Got? { return; }
      i := r.i;
      ghost var b1 := bc.bufs[..];
      assert forall k :: 0 <= k < NBUF && k != i ==> b1[k] == b0[k];
      StillIdle(b0, b1, i, first, second);
      r := bc.Bread(second);
      if !r.Got? { return; }
      ok, j := true, r.i;
    }

    /** The body shared by the loops of write_log and install_trans: read two blocks, copy one
        onto the other, write the copy out, release source then destination. */
    method Transfer(first: nat, second: nat, ontoFirst: bool) returns (ok: bool)
      requires Valid() && first != second && first < |bc.disk| && second < |bc.disk|
      requires !Busy(bc.bufs[..], first) && !Busy(bc.bufs[..], second) && ReadersOnly(bc.bufs[..], bc.disk)
      modifies bc, bc.bufs, bc.next, bc.prev
      ensures Valid()
      ensures old(Spare(bc.bufs[..])) && old(Dirty(bc.bufs[..], second)) ==> ok
      ensures old(SpareTwo(bc.bufs[..])) ==> ok
      ensures !old(Spare(bc.bufs[..])) && !old(Dirty(bc.bufs[..], first)) ==> !ok
      ensures !ok ==> bc.disk == old(bc.disk) && bc.writes == old(bc.writes) && bc.view == old(bc.view)
      ensures !ok ==> SameDirty(old(bc.bufs[..]), bc.bufs[..])
      ensures ok ==> SameHeld(old(bc.bufs[..]), bc.bufs[..]) && ReadersOnly(bc.bufs[..], bc.disk) && Spare(bc.bufs[..])
      ensures ok ==> var (src, dst) := if ontoFirst then (second, first) else (first, second);
                     && bc.disk == old(bc.disk)[dst := old(bc.view[src])]
                     && bc.view == old(bc.view)[dst := old(bc.view[src])]
                     && bc.writes == old(bc.writes) + [Write(dst, old(bc.view[src]))]
                     && forall a: nat :: Dirty(bc.bufs[..], a) <==> old(Dirty(bc.bufs[..], a)) && a != dst
    {
      hide Linked, LruSorted, CacheOk, Dirty, Busy, Spare, SpareTwo;
      ghost var c0 := bc.Model();
      var i, j;
      ok, i, j := ReadPair(first, second);
      if !ok { return; }
      var from, to := if ontoFirst then j else i, if ontoFirst then i else j;
      ghost var src, dst := bc.bufs[from].blockno, bc.bufs[to].blockno;
      SourceOk(c0, bc.Model(), from);
      CopyOut(from, to);
      HeldDev(c0);
      ReadersKept(c0.bufs, c0.disk, bc.bufs[..], dst, bc.disk[dst]);
      SpareAt(bc.bufs[..], to);
    }

    /** One round of write_log or of install_trans, between entry `tail` and its log block. */
    method MoveOne(tail: nat, toLog: bool) returns (ok: bool)
      requires Valid() && Undisturbed() && EntriesOk() && tail < n
      modifies bc, bc.bufs, bc.next, bc.prev
      ensures Valid()
      ensures old(Spare(bc.bufs[..])) && old(Dirty(bc.bufs[..], block[tail])) ==> ok
      ensures old(AllIdle(bc.bufs[..])) ==> ok
      ensures !old(Spare(bc.bufs[..])) && !old(Dirty(bc.bufs[..], l.start + tail + 1)) ==> !ok
      ensures !ok ==> bc.disk == old(bc.disk) && bc.writes == old(bc.writes) && bc.view == old(bc.view)
      ensures !ok ==> SameDirty(old(bc.bufs[..]), bc.bufs[..])
      ensures ok ==> Undisturbed() && SameHeld(old(bc.bufs[..]), bc.bufs[..]) && Spare(bc.bufs[..])
      ensures ok ==> var a := l.start + tail + 1;
                     var (src, dst) := if toLog then (block[tail] as nat, a) else (a, block[tail] as nat);
                     && bc.disk == old(bc.disk)[dst := old(bc.view[src])]
                     && bc.view == old(bc.view)[dst := old(bc.view[src])]
                     && bc.writes == old(bc.writes) + [Write(dst, old(bc.view[src]))]
                     && forall x: nat :: Dirty(bc.bufs[..], x) <==> old(Dirty(bc.bufs[..], x)) && x != dst
    {
      hide CacheOk, Linked, LruSorted, Dirty, Spare, SpareTwo, Busy, SameHeld, ReadersOnly;
      ghost var b0 := bc.bufs[..];
      assert block[tail] in Entries();
      if AllIdle(b0) { AllSpare(bc.Model()); }
      ok := Transfer(l.start + tail + 1, block[tail], toLog);
      if ok { FreeKept(b0, bc.bufs[..], l, Entries()); }
    }

    /** memmove, bwrite and the two brelse calls. */
    method CopyOut(from: nat, to: nat)
      requires Valid() && from < NBUF && to < NBUF && from != to
      requires bc.bufs[from].busy && bc.bufs[from].valid && bc.bufs[to].busy && bc.bufs[to].valid
      requires bc.bufs[from].dirty || bc.bufs[from].data == bc.disk[bc.bufs[from].blockno]
      modifies bc, bc.bufs, bc.next, bc.prev
      ensures Valid() && !bc.bufs[from].busy && !bc.bufs[to].busy && !bc.bufs[to].dirty
      ensures forall k :: 0 <= k < NBUF && k != from && k != to ==> bc.bufs[k] == old(bc.bufs[k])
      ensures var src, dst := old(bc.bufs[from].blockno), old(bc.bufs[to].blockno);
              && src < |old(bc.view)| && dst < |old(bc.view)|
              && bc.disk == old(bc.disk)[dst := old(bc.view)[src]]
              && bc.view == old(bc.view)[dst := old(bc.view)[src]]
              && bc.writes == old(bc.writes) + [Write(dst, old(bc.view)[src])]
              && forall a: nat :: Dirty(bc.bufs[..], a) <==> old(Dirty(bc.bufs[..], a)) && a != dst
    {
      assert BufOk(bc.bufs[from], bc.disk, bc.view) && BufOk(bc.bufs[to], bc.disk, bc.view);
      assert bc.bufs[from].blockno != bc.bufs[to].blockno;
      hide CacheOk, Linked, LruSorted, Dirty;
      StoreOut(to, bc.bufs[from].data);
      ReleaseBoth(from, to);
    }

    /** memmove into a held buffer, then bwrite. */
    method StoreOut(b: nat, data: Block)
      requires Valid() && b < NBUF && bc.bufs[b].busy && bc.bufs[b].valid
      modifies bc, bc.bufs
      ensures Valid() && bc.order == old(bc.order)
      ensures var a := old(bc.bufs[b].blockno);
              && a < |old(bc.disk)| && bc.disk == old(bc.disk)[a := data] && bc.view == old(bc.view)[a := data]
              && bc.writes == old(bc.writes) + [Write(a, data)]
              && forall x: nat :: Dirty(bc.bufs[..], x) <==> old(Dirty(bc.bufs[..], x)) && x != a
      ensures bc.bufs[..] == old(bc.bufs[..])[b := old(bc.bufs[b]).(data := data, dirty := false)]
    {
      bc.Store(b, data);
      bc.Bwrite(b);
    }

    method ReleaseBoth(i: nat, j: nat)
      requires Valid() && i < NBUF && j < NBUF && i != j
      requires bc.bufs[i].busy && bc.bufs[i].valid && bc.bufs[j].busy && bc.bufs[j].valid
      requires bc.bufs[i].dirty || (bc.bufs[i].blockno < |bc.disk| && bc.bufs[i].data == bc.disk[bc.bufs[i].blockno])
      requires bc.bufs[j].dirty || (bc.bufs[j].blockno < |bc.disk| && bc.bufs[j].data == bc.disk[bc.bufs[j].blockno])
      modifies bc`order, bc`releases, bc.bufs, bc.next, bc.prev
      ensures Valid()
      ensures bc.bufs[..]
              == old(bc.bufs[..])[i := old(bc.bufs[i]).(busy := false)][j := old(bc.bufs[j]).(busy := false)]
      ensures SameDirty(old(bc.bufs[..]), bc.bufs[..])
    {
      bc.Brelse(i);
      bc.Brelse(j);
    }

    /** The block numbers in the log header. */
    ghost function Entries(): seq<Word>
      reads this, block
      requires block.Length == LOGSIZE && n <= LOGSIZE
    {
      block[..n]
    }

    /** The current contents of the logged blocks. */
    ghost function Pending(): (r: seq<Block>)
      reads this, block, bc
      requires block.Length == LOGSIZE && n <= LOGSIZE && |bc.view| == |bc.disk|
      requires EntriesOk()
      ensures |r| == n
    {
      Contents(bc.view, block[..n])
    }

    /** Copy modified blocks from cache to log; `k` says how many copies reached the disk. */
    method WriteLog() returns (ok: bool, ghost k: nat)
      requires Valid() && Undisturbed() && EntriesOk()
      modifies bc, bc.bufs, bc.next, bc.prev
      ensures Valid() && k <= n
      ensures Wrote(old(bc.disk), old(bc.writes), LogWrites(l, old(Pending()))[..k], bc.disk, bc.writes)
      ensures ok ==> k == n && Undisturbed() && SameHeld(old(bc.bufs[..]), bc.bufs[..])
      ensures ok ==> LogCopied(l, old(bc.view), old(Pending()), n, bc.view)
      ensures old(Spare(bc.bufs[..])) && old(Pinned(0)) ==> ok && Spare(bc.bufs[..]) && Pinned(0)
      ensures n > 0 && !old(Spare(bc.bufs[..])) && !old(Dirty(bc.bufs[..], l.start + 1)) ==> !ok && k == 0
      ensures DirtyWithin(old(bc.bufs[..]), bc.bufs[..])
    {
      hide CacheOk, Linked, LruSorted, Dirty, Wrote, LogCopied, Spare, Busy, SameHeld, ReadersOnly, FreeOf, AllDirty;
      hide LogWrites, Contents;
      ghost var d, h, v, b0 := bc.disk, bc.writes, bc.view, bc.bufs[..];
      ghost var ts, data := Entries(), Pending();
      ghost var enough := Spare(b0) && AllDirty(b0, ts, 0);
      var tail := 0;
      ok, k := true, 0;
      WroteNone(d, h, LogWrites(l, data));
      LogCopiedNone(l, v, data);
      HeldSame(b0);
      while tail < n
        invariant tail == k <= n && Entries() == ts && Valid() && Undisturbed() && |bc.disk| == |d|
        invariant SameHeld(b0, bc.bufs[..]) && DirtyWithin(b0, bc.bufs[..])
        invariant Wrote(d, h, LogWrites(l, data)[..k], bc.disk, bc.writes)
        invariant LogCopied(l, v, data, k, bc.view)
        invariant enough ==> Spare(bc.bufs[..]) && AllDirty(bc.bufs[..], ts, 0)
        invariant 0 < k ==> Spare(b0) || Dirty(b0, l.start + 1)
        invariant k == 0 ==> bc.bufs[..] == b0
      {
        assert block[tail] == ts[k];
        ghost var b1 := bc.bufs[..];
        LogOne(l, d, h, v, ts, data, k, bc.disk, bc.writes, bc.view);
        if enough { EntryDirty(b1, ts, 0, tail); }
        ok := MoveOne(tail, true);
        DirtyWithinTrans(b0, b1, bc.bufs[..]);
        if !ok { return; }
        HeldTrans(b0, b1, bc.bufs[..]);
        if enough { StillDirty(b1, bc.bufs[..], ts, 0, 0, l.start + tail + 1); }
        tail, k := tail + 1, k + 1;
      }
    }

    /** Copy logged blocks to their home locations; `data` is what the log blocks hold. */
    method InstallTrans(ghost data: seq<Block>) returns (ok: bool, ghost k: nat)
      requires Valid() && Undisturbed() && EntriesOk()
      requires |data| == n && bc.view[l.start + 1..l.start + 1 + n] == data
      modifies bc, bc.bufs, bc.next, bc.prev
      ensures Valid() && k <= n
      ensures Wrote(old(bc.disk), old(bc.writes), InstallWrites(Entries(), data)[..k], bc.disk, bc.writes)
      ensures Moved(old(bc.view), InstallWrites(Entries(), data)[..k], bc.view)
      ensures ok ==> k == n && Undisturbed() && SameHeld(old(bc.bufs[..]), bc.bufs[..])
      ensures old(Able(bc.bufs[..], Entries(), 0)) ==> ok && Able(bc.bufs[..], Entries(), n)
      ensures DirtyOutside(old(bc.bufs[..]), Entries()[..k], bc.bufs[..])
    {
      hide CacheOk, Linked, LruSorted, Dirty, Wrote, Moved, Spare, Busy, SameHeld, ReadersOnly, FreeOf, AllIdle, Able;
      hide InstallWrites;
      var tail := 0;
      ghost var ts, b0 := Entries(), bc.bufs[..];
      ghost var d, h, v, ws := bc.disk, bc.writes, bc.view, InstallWrites(ts, data);
      ok, k := true, 0;
      WroteNone(d, h, ws);
      MovedNone(v, ws);
      HeldSame(b0);
      DirtySame(b0, ts);
      while tail < n
        invariant tail == k <= n && Entries() == ts && Valid() && Undisturbed() && |bc.disk| == |d|
        invariant Wrote(d, h, ws[..k], bc.disk, bc.writes) && Moved(v, ws[..k], bc.view)
        invariant SameHeld(b0, bc.bufs[..]) && DirtyOutside(b0, ts[..k], bc.bufs[..])
        invariant Able(b0, ts, 0) ==> Able(bc.bufs[..], ts, k)
      {
        assert block[tail] == ts[k];
        ghost var b1 := bc.bufs[..];
        InstallOne(l, d, h, v, ts, data, k, bc.disk, bc.writes, bc.view);
        if Able(b0, ts, 0) { AbleNow(b1, ts, k); }
        ok := MoveOne(tail, false);
        if !ok { return; }
        HeldTrans(b0, b1, bc.bufs[..]);
        if Able(b0, ts, 0) { AbleNext(b1, bc.bufs[..], ts, k); }
        DirtyLess(b0, b1, bc.bufs[..], ts, k);
        tail, k := tail + 1, k + 1;
      }
    }

    /** Write the in-memory header to the log's header block. */
    method WriteHead() returns (ok: bool)
      requires Valid() && !Busy(bc.bufs[..], l.start) && ReadersOnly(bc.bufs[..], bc.disk)
      modifies bc, bc.bufs, bc.next, bc.prev
      ensures Valid()
      ensures old(Spare(bc.bufs[..])) ==> ok
      ensures !ok ==> unchanged(bc) && bc.bufs[..] == old(bc.bufs[..])
      ensures ok ==> var hb := PutHeader(old(bc.view)[l.start], Entries());
                     && bc.disk == old(bc.disk)[l.start := hb] && bc.view == old(bc.view)[l.start := hb]
                     && bc.writes == old(bc.writes) + [Write(l.start, hb)]
      ensures ok ==> SameHeld(old(bc.bufs[..]), bc.bufs[..]) && ReadersOnly(bc.bufs[..], bc.disk) && Spare(bc.bufs[..])
      ensures ok ==> forall a: nat :: Dirty(bc.bufs[..], a) <==> old(Dirty(bc.bufs[..], a)) && a != l.start
    {
      HeldDev(bc.Model());
      hide CacheOk, Linked, LruSorted, Dirty, Busy;
      ghost var b0, d0 := bc.bufs[..], bc.disk;
      var r := bc.Bread(l.start);
      ok := r.Got?;
      if !ok { return; }
      var b := r.i;
      var hb := HeaderImage(bc.bufs[b].data);
      StoreOut(b, hb);
      bc.Brelse(b);
      ReadersKept(b0, d0, bc.bufs[..], l.start, hb);
      assert Recyclable(bc.bufs[..][b]);
    }

    /** The stores of write_head into the header block's buffer. */
    method HeaderImage(b: Block) returns (hb: Block)
      requires block.Length == LOGSIZE && n <= LOGSIZE
      ensures hb == PutHeader(b, block[..n])
    {
      hb := PutWord(b, 0, n);
      for i := 0 to n
        invariant hb == PutWords(PutWord(b, 0, n), 1, block[..i])
      {
        assert block[..i+1][..i] == block[..i];
        hb := PutWord(hb, 1 + i, block[i]);
      }
    }

    /** Read the log header from disk into memory. */
    method ReadHead() returns (ok: bool)
      requires Valid() && !Busy(bc.bufs[..], l.start) && ReadersOnly(bc.bufs[..], bc.disk)
      requires !Dirty(bc.bufs[..], l.start) && HeaderOk(bc.disk[l.start])
      modifies this`n, block, bc, bc.bufs, bc.next, bc.prev
      ensures Valid() && bc.disk == old(bc.disk) && bc.writes == old(bc.writes) && bc.view == old(bc.view)
      ensures ok <==> old(Spare(bc.bufs[..]))
      ensures ok ==> Entries() == HeaderTargets(bc.disk[l.start]) && SameHeld(old(bc.bufs[..]), bc.bufs[..])
      ensures SameDirty(old(bc.bufs[..]), bc.bufs[..])
    {
      assert bc.view[l.start] == bc.disk[l.start] by { ReadersAgree(bc.Model(), l.start); }
      CleanSpare(bc.bufs[..], l.start);
      hide CacheOk, Linked, LruSorted, Dirty, Busy;
      var r := bc.Bread(l.start);
      ok := r.Got?;
      if !ok { return; }
      var b := r.i;
      CopyHead(bc.bufs[b].data);
      bc.Brelse(b);
    }

    /** The loads of read_head from the header block's buffer. */
    method CopyHead(hb: Block)
      requires block.Length == LOGSIZE && HeaderOk(hb)
      modifies this`n, block
      ensures n <= LOGSIZE && Entries() == HeaderTargets(hb)
    {
      n := GetWord(hb, 0);
      for i := 0 to n
        modifies block
        invariant block[..i] == HeaderTargets(hb)[..i]
      {
        block[i] := GetWord(hb, 1 + i);
      }
    }

    /** The first half of commit: the group's blocks into the log, then the header.  It fails on the
        very first bread or not at all. */
    method LogPhase() returns (ok: bool)
      requires Valid() && Undisturbed() && EntriesOk() && OnlyEntriesDirty(0) && Pinned(0) && 0 < n
      modifies bc, bc.bufs, bc.next, bc.prev
      ensures Valid() && |old(Pending())| == n
      ensures ok <==> old(Spare(bc.bufs[..]))
      ensures !ok ==> bc.disk == old(bc.disk) && bc.writes == old(bc.writes)
      ensures ok ==> Wrote(old(bc.disk), old(bc.writes),
                           CommitWrites(old(bc.disk), l, Entries(), old(Pending()))[..n + 1], bc.disk, bc.writes)
      ensures ok ==> Undisturbed() && OnlyEntriesDirty(0) && Pinned(0) && Spare(bc.bufs[..])
      ensures ok ==> SameHeld(old(bc.bufs[..]), bc.bufs[..])
      ensures ok ==> bc.view[l.start] == PutHeader(old(bc.disk)[l.start], Entries())
      ensures ok ==> bc.view[l.start + 1..l.start + 1 + n] == old(Pending())
      ensures ok ==> forall a: nat :: Home(l, bc.disk, a) ==> bc.view[a] == old(bc.view)[a]
    {
      hide CacheOk, Linked, LruSorted, Dirty, Wrote, PutHeader, LogCopied, CommitWrites, LogWrites, Contents, Spare,
          Busy, SameHeld, ReadersOnly, AllDirty;
      ghost var d, h, v, ts, data := bc.disk, bc.writes, bc.view, Entries(), Pending();
      ghost var ws, k := CommitWrites(d, l, ts, data), 0;
      assert v[l.start] == d[l.start] by { ReadersAgree(bc.Model(), l.start); }
      assert !Dirty(bc.bufs[..], l.start + 1);
      ok, k := WriteLog();
      CommitParts(d, l, ts, data, k);
      if !ok {
        WroteNothing(d, h, LogWrites(l, data), bc.disk, bc.writes);
        return;
      }
      ghost var d1, h1, v1, b1 := bc.disk, bc.writes, bc.view, bc.bufs[..];
      LogCopiedView(l, v, data, v1);
      ok := WriteHead();
      StoreBelow(v1, l.start, bc.view[l.start], l.start + 1, l.start + 1 + n);
      WroteOne(d, h, ws, k, d1, h1);
      HeldTrans(old(bc.bufs[..]), b1, bc.bufs[..]);
      FreeKept(b1, bc.bufs[..], l, ts);
      StillDirty(b1, bc.bufs[..], ts, 0, 0, l.start);
    }

    /** The second half of commit, and all of recovery but read_head: install the group, then clear
        the header.  The group is pinned, or nothing is dirty and no one holds a buffer. */
    method InstallPhase(ghost data: seq<Block>)
      requires Valid() && Undisturbed() && EntriesOk() && OnlyEntriesDirty(0)
      requires Able(bc.bufs[..], Entries(), 0)
      requires |data| == n && bc.view[l.start + 1..l.start + 1 + n] == data
      modifies this`n, bc, bc.bufs, bc.next, bc.prev
      ensures Valid() && n == 0 && SameHeld(old(bc.bufs[..]), bc.bufs[..]) && ReadersOnly(bc.bufs[..], bc.disk)
      ensures forall a: nat :: !Dirty(bc.bufs[..], a)
      ensures var ws := InstallWrites(old(Entries()), data) + [Write(l.start, PutHeader(old(bc.view)[l.start], []))];
              Wrote(old(bc.disk), old(bc.writes), ws, bc.disk, bc.writes)
      ensures |bc.view| == |old(bc.view)|
      ensures forall a: nat :: Home(l, bc.disk, a) ==> bc.view[a] == Installed(old(bc.view), old(Entries()), data, a)
    {
      hide CacheOk, Linked, LruSorted, Dirty, Wrote, PutHeader, Moved, Spare, Busy, SameHeld, ReadersOnly, Able;
      ghost var d, h, v, ts := bc.disk, bc.writes, bc.view, Entries();
      ghost var iw := InstallWrites(ts, data);
      ghost var ws := iw + [Write(l.start, PutHeader(v[l.start], []))];
      ghost var k;
      var ok;
      ok, k := InstallTrans(data);
      assert iw[..k] == ws[..k] && iw[..k] == iw && ts[..k] == ts;
      ghost var d1, h1, v1, b1 := bc.disk, bc.writes, bc.view, bc.bufs[..];
      MovedKeeps(v, l, iw, v1);
      AbleSpare(bc.Model(), ts, n);
      n := 0;
      ok := WriteHead();
      HeldTrans(old(bc.bufs[..]), b1, bc.bufs[..]);
      WroteOne(d, h, ws, k, d1, h1);
      assert ws[..k+1] == ws;
      forall a: nat | Home(l, bc.disk, a) ensures bc.view[a] == Installed(v, ts, data, a) {
        MovedInstalled(v, ts, data, v1, a);
      }
    }

    /** Replay a committed transaction, if the header names one, and clear the log: at boot, when no
        one holds a buffer and nothing is dirty, this never runs out of buffers. */
    method RecoverFromLog()
      requires Valid() && Quiet() && LogOk(bc.disk, l)
      requires bc.view == bc.disk && forall a: nat :: !Dirty(bc.bufs[..], a)
      modifies this`n, block, bc, bc.bufs, bc.next, bc.prev
      ensures Valid() && Quiet() && n == 0 && forall a: nat :: !Dirty(bc.bufs[..], a)
      ensures Wrote(old(bc.disk), old(bc.writes), RecoveryWrites(old(bc.disk), l), bc.disk, bc.writes)
    {
      hide CacheOk, Linked, LruSorted, Dirty, Wrote, PutHeader, Spare, SpareTwo, SameHeld, ReadersOnly, FreeOf, Busy,
          Installed;
      ghost var d, b0 := bc.disk, bc.bufs[..];
      AllSpare(bc.Model());
      FreeQuiet(b0, d, l, []);
      FreeAt(b0, l, l.start);
      var ok := ReadHead();
      ghost var b1 := bc.bufs[..];
      QuietKept(b0, b1);
      FreeQuiet(b1, d, l, Entries());
      InstallPhase(LogData(d, l));
      QuietKept(b1, bc.bufs[..]);
    }

    /** Commit the current group.  The disk moves by the writes of a commit, and every home block is
        then on the disk as the kernel last saw it.  Or, exactly when the group and the clean buffers
        others hold take up the whole cache, the first bread panics and nothing is written. */
    method Commit() returns (ok: bool)
      requires Valid() && Undisturbed() && EntriesOk() && OnlyEntriesDirty(0) && Pinned(0) && Distinct(Entries())
      requires LogOk(bc.disk, l) && Targets(bc.disk, l) == []
      modifies this`n, bc, bc.bufs, bc.next, bc.prev
      ensures Valid() && old(CanCommit(bc.disk, l, Entries(), Pending()))
      ensures ok <==> old(n) == 0 || old(n) + |HeldClean(old(bc.bufs[..]))| < NBUF
      ensures !ok || old(n) == 0 ==> bc.disk == old(bc.disk) && bc.writes == old(bc.writes) && n == old(n)
      ensures ok && old(n) > 0 ==>
                Wrote(old(bc.disk), old(bc.writes),
                      CommitWrites(old(bc.disk), l, old(Entries()), old(Pending())), bc.disk, bc.writes)
      ensures ok ==> n == 0 && SameHeld(old(bc.bufs[..]), bc.bufs[..]) && LogOk(bc.disk, l) && Targets(bc.disk, l) == []
      ensures ok ==> forall a: nat :: Home(l, bc.disk, a) ==> bc.disk[a] == bc.view[a] == old(bc.view)[a]
    {
      ghost var ts := Entries();
      assert forall a: nat :: Dirty(bc.bufs[..], a) <==> a in ts by { JustEntries(); }
      SpareExactly(bc.Model(), ts);
      hide CacheOk, Linked, LruSorted, Wrote, PutHeader, Dirty, Spare;
      if n == 0 {
        forall a: nat | Home(l, bc.disk, a) ensures bc.disk[a] == bc.view[a] { ReadersAgree(bc.Model(), a); }
        return true;
      }
      ok := CommitGroup();
    }

    lemma JustEntries()
      requires Valid() && OnlyEntriesDirty(0) && Pinned(0)
      ensures forall a: nat :: Dirty(bc.bufs[..], a) <==> a in Entries()
    {
      hide Dirty;
      assert forall i :: 0 <= i < n ==> Entries()[i] == block[i];
    }

    method CommitGroup() returns (ok: bool)
      requires Valid() && Undisturbed() && EntriesOk() && OnlyEntriesDirty(0) && Pinned(0) && Distinct(Entries())
               && 0 < n
      requires CanCommit(bc.disk, l, Entries(), Pending())
      modifies this`n, bc, bc.bufs, bc.next, bc.prev
      ensures Valid()
      ensures ok <==> old(Spare(bc.bufs[..]))
      ensures !ok ==> bc.disk == old(bc.disk) && bc.writes == old(bc.writes) && n == old(n)
      ensures ok ==> Wrote(old(bc.disk), old(bc.writes),
                           CommitWrites(old(bc.disk), l, old(Entries()), old(Pending())), bc.disk, bc.writes)
      ensures ok ==> n == 0 && SameHeld(old(bc.bufs[..]), bc.bufs[..]) && LogOk(bc.disk, l) && Targets(bc.disk, l) == []
      ensures ok ==> |bc.view| == |old(bc.view)|
      ensures ok ==> forall a: nat :: Home(l, bc.disk, a) ==> bc.disk[a] == bc.view[a] == old(bc.view)[a]
    {
      hide CacheOk, Linked, LruSorted, Wrote, PutHeader, Dirty, LogOk, HeaderOk, CommitWrites, InstallWrites, Spare,
          Busy;
      ghost var d, h, v, ts, data := bc.disk, bc.writes, bc.view, Entries(), Pending();
      ghost var ws, m := CommitWrites(d, l, ts, data), n + 1;
      ok := LogPhase();
      if !ok { return; }
      ghost var d1, h1, v1, b1 := bc.disk, bc.writes, bc.view, bc.bufs[..];
      WroteSize(d, h, ws[..m], d1, h1);
      InstallPhase(data);
      HeldTrans(old(bc.bufs[..]), b1, bc.bufs[..]);
      ghost var iw := InstallWrites(ts, data) + [Write(l.start, PutHeader(v1[l.start], []))];
      CommitParts(d, l, ts, data, 0);
      assert ws[m..] == iw;
      assert ws[..m] + iw == ws;
      WroteThen(d, h, ws[..m], d1, h1, iw, bc.disk, bc.writes);
      CommitDone(d, l, ts, data, h, bc.disk, bc.writes);
      forall a: nat | Home(l, bc.disk, a) ensures bc.disk[a] == bc.view[a] == v[a] {
        ReadersAgree(bc.Model(), a);
        InstalledSame(v, v1, ts, a);
      }
    }

    /** One pass of begin_op's loop under log.lock; false means the caller sleeps on &log. */
    method BeginOp() returns (began: bool)
      modifies this`outstanding
      ensures began <==> !committing && RoomFor(n, old(outstanding))
      ensures outstanding == old(outstanding) + if began then 1 else 0
    {
      if committing {
        return false;
      } else if n + (outstanding + 1) * MAXOPBLOCKS > LOGSIZE {
        return false;
      }
      outstanding := outstanding + 1;
      return true;
    }

    /** The first critical section of end_op; a caller told to commit does so, the others wake
        the sleepers.  `panic` is "log.committing". */
    method EndOp() returns (doCommit: bool, panic: bool)
      modifies this`outstanding, this`committing
      ensures panic <==> old(committing)
      ensures outstanding == old(outstanding) - 1
      ensures doCommit <==> !panic && outstanding == 0
      ensures committing <==> old(committing) || doCommit
    {
      doCommit := false;
      outstanding := outstanding - 1;
      panic := committing;
      if panic { return; }
      if outstanding == 0 {
        doCommit := true;
        committing := true;
      }
    }

    /** log_write on a held buffer: the block number is absorbed into the header and the buffer
        pinned, or the call panics and nothing changes. */
    method LogWrite(b: nat) returns (r: LogWriteOutcome)
      requires Valid() && b < NBUF && bc.bufs[b].busy && bc.bufs[b].valid && bc.bufs[b].blockno < 0x1_0000_0000
      modifies this`n, block, bc.bufs
      ensures Valid()
      ensures r.PanicTooBig? <==> TooBig(old(n), l.size)
      ensures r.PanicOutside? <==> !TooBig(old(n), l.size) && outstanding < 1
      ensures !r.Logged? ==> Entries() == old(Entries()) && bc.bufs[..] == old(bc.bufs[..])
      ensures r.Logged? ==> Entries() == Absorb(old(Entries()), old(bc.bufs[b].blockno))
      ensures r.Logged? ==> bc.bufs[..] == old(bc.bufs[..])[b := old(bc.bufs[b]).(dirty := true)]
      ensures r.Logged? ==> forall a: nat :: Dirty(bc.bufs[..], a) <==>
              old(Dirty(bc.bufs[..], a)) || a == old(bc.bufs[b].blockno)
    {
      assert bc.bufs[b].dev == ROOTDEV by { assert BufOk(bc.bufs[b], bc.disk, bc.view); }
      hide CacheOk, Linked, LruSorted, Dirty;
      ghost var b0 := bc.bufs[..];
      if n >= LOGSIZE || n >= l.size - 1 { return PanicTooBig; }
      if outstanding < 1 { return PanicOutside; }
      var bno: Word := bc.bufs[b].blockno;
      var i := 0;
      while i < n
        invariant 0 <= i <= n && bno !in block[..i]
      {
        if block[i] == bno { break; }
        assert block[..i+1] == block[..i] + [block[i]];
        i := i + 1;
      }
      assert i < n ==> block[..n][i] == bno;
      block[i] := bno;
      if i == n { n := n + 1; }
      bc.Pin(b);
      DirtyMore(b0, b, bc.bufs[..]);
      r := Logged;
    }
  }

  /** What Commit asks for, when no one holds a buffer: just the blocks named are dirty. */
  ghost predicate Group(log: Log, m: nat)
    reads log, log.block, log.bc, log.bc.bufs, log.bc.next, log.bc.prev
  {
    && log.Valid() && log.Quiet() && log.n == m && Distinct(log.Entries())
    && forall a: nat :: Dirty(log.bc.bufs[..], a) <==> a in log.Entries()
  }

  /** bread, log_write and brelse of a block that is not yet in the log. */
  method LogBlock(log: Log, a: Word)
    requires Group(log, log.n) && a !in log.Entries() && log.n < LOGSIZE < log.l.size && log.outstanding > 0
    requires a < |log.bc.disk|
    modifies log`n, log.block, log.bc, log.bc.bufs, log.bc.next, log.bc.prev
    ensures Group(log, old(log.n) + 1) && log.Entries() == old(log.Entries()) + [a]
    ensures log.bc.disk == old(log.bc.disk) && log.bc.writes == old(log.bc.writes)
  {
    ghost var ts := log.Entries();
    SpareExactly(log.bc.Model(), ts);
    assert HeldClean(log.bc.bufs[..]) == {};
    hide CacheOk, Linked, LruSorted, Dirty, HeldClean;
    var r := log.bc.Bread(a);
    var w := log.LogWrite(r.i);
    assert w.Logged?;
    log.bc.Brelse(r.i);
  }

  /** Three operations begin. */
  method StartGroup(disk: Disk, l: Layout) returns (log: Log)
    requires LogOk(disk, l)
    ensures Group(log, 0) && log.n == 0 && log.outstanding == 3 && !log.committing && log.l == l
    ensures fresh(log) && fresh(log.bc) && fresh(log.bc.bufs) && fresh(log.bc.next) && fresh(log.bc.prev)
            && fresh(log.block)
    ensures log.block.Length == LOGSIZE && log.bc.disk == disk && log.bc.writes == []
  {
    var bc := new BufferCache(disk);
    log := new Log(bc, l);
    assert Group(log, 0);
    hide Group;
    var b0 := log.BeginOp();
    var b1 := log.BeginOp();
    var b2 := log.BeginOp();
  }

  /** Between them they log LOGSIZE blocks. */
  method FillGroup(log: Log)
    requires Group(log, 0) && log.n == 0 && log.block.Length == LOGSIZE && log.outstanding > 0
    requires LOGSIZE < log.l.size && log.l.start + log.l.size + LOGSIZE <= |log.bc.disk| < 0x1_0000_0000
    modifies log`n, log.block, log.bc, log.bc.bufs, log.bc.next, log.bc.prev
    ensures Group(log, LOGSIZE) && log.n == LOGSIZE
    ensures log.bc.disk == old(log.bc.disk) && log.bc.writes == old(log.bc.writes)
    ensures forall i :: 0 <= i < LOGSIZE ==> log.Entries()[i] == log.l.start + log.l.size + i
  {
    hide Group;
    for m := 0 to LOGSIZE
      invariant Group(log, m) && log.n == m
      invariant log.bc.disk == old(log.bc.disk) && log.bc.writes == old(log.bc.writes)
      invariant forall i :: 0 <= i < m ==> log.Entries()[i] == log.l.start + log.l.size + i
    {
      LogBlock(log, log.l.start + log.l.size + m);
      GroupSize(log, m + 1);
    }
  }

  lemma GroupSize(log: Log, m: nat)
    requires Group(log, m)
    ensures log.n == m && log.block.Length == LOGSIZE && m <= LOGSIZE
  {}

  /** A full group: three operations, each of which logs MAXOPBLOCKS blocks, leave as many blocks
      pinned as there are buffers.  The commit then finds no buffer for its first log block. */
  method FullGroupStops(disk: Disk, l: Layout) returns (log: Log, ok: bool)
    requires LogOk(disk, l) && Targets(disk, l) == [] && LOGSIZE < l.size
    requires l.start + l.size + LOGSIZE <= |disk| < 0x1_0000_0000
    ensures !ok && log.n == LOGSIZE == 3 * MAXOPBLOCKS && log.bc.disk == disk && log.bc.writes == []
  {
    log := StartGroup(disk, l);
    FillGroup(log);
    var c0, p0 := log.EndOp();
    var c1, p1 := log.EndOp();
    var c2, p2 := log.EndOp();
    assert c2;
    GroupCommits(log, LOGSIZE);
    ok := log.Commit();
  }

  lemma GroupCommits(log: Log, m: nat)
    requires Group(log, m) && forall i :: 0 <= i < m ==> log.Entries()[i] >= log.l.start + log.l.size
    requires m < log.l.size && forall i :: 0 <= i < m ==> log.Entries()[i] < |log.bc.disk|
    ensures log.Undisturbed() && log.EntriesOk() && log.OnlyEntriesDirty(0) && log.Pinned(0) && Distinct(log.Entries())
    ensures HeldClean(log.bc.bufs[..]) == {} && log.n == m
  {
    hide CacheOk, Linked, LruSorted, Dirty;
    FreeQuiet(log.bc.bufs[..], log.bc.disk, log.l, log.Entries());
    assert forall i :: 0 <= i < m ==> log.Entries()[i] == log.block[i];
  }
}
