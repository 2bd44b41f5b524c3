/** The buffer cache used by any number of clients at once.  A client is one use of a buffer, from
    the call of bread to brelse; a kernel thread holding two buffers is two clients.  A step is one
    critical section of bget or brelse, one transfer by iderw, or a holder changing its buffer. */
module BioProtocol {
  import opened Blocks
  import opened LogSpec
  import opened Bio

  datatype Client =
    | Out
    | Wanting(bno: nat)           // in bget, about to scan
    | Asleep(bno: nat, i: nat)    // in bget, asleep on buffer i
    | Holding(bno: nat, i: nat)   // between bget's return and brelse

  datatype State = State(c: Cache, clients: seq<Client>, releases: seq<nat>)

  datatype Step =
    | Want(p: nat, bno: nat) | Get(p: nat) | Fill(p: nat) | Modify(p: nat, data: Block)
    | MarkDirty(p: nat) | WriteBack(p: nat) | Release(p: nat)

  predicate Holds(s: State, p: nat) {
    p < |s.clients| && s.clients[p].Holding? && s.clients[p].i < |s.c.bufs|
  }

  /** brelse wakes everyone asleep on the buffer; they scan again from the start. */
  function WakeOn(clients: seq<Client>, i: nat): (r: seq<Client>)
    ensures |r| == |clients|
    ensures forall p :: 0 <= p < |r| ==>
              r[p] == if clients[p].Asleep? && clients[p].i == i then Wanting(clients[p].bno) else clients[p]
  {
    seq(|clients|, p requires 0 <= p < |clients| =>
      if clients[p].Asleep? && clients[p].i == i then Wanting(clients[p].bno) else clients[p])
  }

  ghost predicate Next(s: State, step: Step, t: State) {
    match step
    case Want(p, bno) =>
      p < |s.clients| && s.clients[p].Out? && bno < |s.c.disk| && t == s.(clients := s.clients[p := Wanting(bno)])
    case Get(p) =>
      p < |s.clients| && s.clients[p].Wanting? && GetNext(s, p, t)
    case Fill(p) =>
      // bread: read the block in when bget recycled a buffer
      && Holds(s, p) && !Held(s, p).valid && IderwOk(Held(s, p), s.c.disk)
      && t == s.(c := WithBuf(s.c, s.clients[p].i, IderwBuf(Held(s, p), s.c.disk)))
    case Modify(p, data) =>
      && Holds(s, p) && Held(s, p).valid && Held(s, p).blockno < |s.c.view|
      && t == s.(c := ModifySpec(s.c, s.clients[p].i, data))
    case MarkDirty(p) =>
      && Holds(s, p) && Held(s, p).valid
      && t == s.(c := WithBuf(s.c, s.clients[p].i, Held(s, p).(dirty := true)))
    case WriteBack(p) =>
      && Holds(s, p) && Held(s, p).valid && IderwOk(Held(s, p).(dirty := true), s.c.disk)
      && t == s.(c := BwriteSpec(s.c, s.clients[p].i))
    case Release(p) =>
      // a client that changed its buffer has logged it or written it before letting go
      && Holds(s, p) && Held(s, p).valid && s.clients[p].i in s.c.order
      && (Held(s, p).dirty || (Held(s, p).blockno < |s.c.disk| && Held(s, p).data == s.c.disk[Held(s, p).blockno]))
      && t == State(BrelseSpec(s.c, s.clients[p].i), WakeOn(s.clients, s.clients[p].i)[p := Out], s.releases
           + [s.clients[p].i])
  }

  function Held(s: State, p: nat): Buf
    requires Holds(s, p)
  {
    s.c.bufs[s.clients[p].i]
  }

  ghost predicate GetNext(s: State, p: nat, t: State)
    requires p < |s.clients| && s.clients[p].Wanting?
  {
    var bno := s.clients[p].bno;
    exists r :: BgetRel(s.c, ROOTDEV, bno, t.c, r) && !r.NoBuffers? && t.releases == s.releases &&
                t.clients == s.clients[p := if r.Got? then Holding(bno, r.i) else Asleep(bno, r.i)]
  }

  // ---- Invariant ----

  ghost predicate ClientOk(s: State, q: Client) {
    match q
    case Out => true
    case Wanting(bno) => bno < |s.c.disk|
    case Asleep(bno, i) => bno < |s.c.disk| && i < |s.c.bufs| && s.c.bufs[i].busy
    case Holding(bno, i) =>
      bno < |s.c.disk| && i < |s.c.bufs| && s.c.bufs[i].busy && Caches(s.c.bufs[i], ROOTDEV, bno)
  }

  ghost predicate HeldBy(clients: seq<Client>, i: nat, p: nat) {
    p < |clients| && clients[p].Holding? && clients[p].i == i
  }

  ghost predicate SomeHolder(clients: seq<Client>, i: nat) { exists p: nat :: HeldBy(clients, i, p) }

  ghost predicate Inv(s: State) {
    && CacheOk(s.c) && LruSorted(s.c.order, s.releases)
    && (forall p :: 0 <= p < |s.clients| ==> ClientOk(s, s.clients[p]))
    && (forall p: nat, q: nat :: HeldBy(s.clients, p, q) ==> p < NBUF)
    && (forall i: nat, p: nat, q: nat :: HeldBy(s.clients, i, p) && HeldBy(s.clients, i, q) ==> p == q)
    && (forall i: nat :: i < NBUF && s.c.bufs[i].busy ==> SomeHolder(s.clients, i))
  }

  /** A cold cache: binit's list, no buffer in use. */
  ghost predicate Init(s: State) {
    && CacheOk(s.c) && s.c.order == seq(NBUF, k => NBUF - 1 - k) && s.releases == [] && s.c.view == s.c.disk
    && (forall i :: 0 <= i < NBUF ==> !s.c.bufs[i].busy && !s.c.bufs[i].valid && !s.c.bufs[i].dirty)
    && (forall p :: 0 <= p < |s.clients| ==> s.clients[p].Out?)
  }

  /** A change to held buffer `b` that keeps it busy and caching the same block. */
  lemma HolderStep(s: State, p: nat, c': Cache)
    requires Inv(s) && Holds(s, p) && CacheOk(c') && c'.order == s.c.order && |c'.disk| == |s.c.disk|
    requires var b := s.clients[p].i;
             && c'.bufs == s.c.bufs[b := c'.bufs[b]] && c'.bufs[b].busy
             && c'.bufs[b].dev == s.c.bufs[b].dev && c'.bufs[b].blockno == s.c.bufs[b].blockno
    ensures Inv(s.(c := c'))
  {
    assert |s.c.bufs| == NBUF && |c'.bufs| == NBUF;
    hide CacheOk, LruSorted;
  }

  lemma GetStep(s: State, p: nat, t: State)
    requires Inv(s) && p < |s.clients| && s.clients[p].Wanting? && GetNext(s, p, t)
    ensures Inv(t)
  {
    var bno := s.clients[p].bno;
    var r :| BgetRel(s.c, ROOTDEV, bno, t.c, r) && !r.NoBuffers? && t.releases == s.releases &&
             t.clients == s.clients[p := if r.Got? then Holding(bno, r.i) else Asleep(bno, r.i)];
    GetOk(s.c, bno, t.c, r);
    assert |s.c.bufs| == NBUF && |t.c.bufs| == NBUF;
    hide CacheOk, LruSorted, IsVictim, Absent;
    if r.Got? {
      forall i: nat, q: nat ensures HeldBy(t.clients, i, q) <==> HeldBy(s.clients, i, q) || (q == p && i == r.i) {}
      forall i: nat, q: nat | HeldBy(s.clients, i, q) ensures i != r.i { assert ClientOk(s, s.clients[q]); }
      assert !s.c.bufs[r.i].busy by { GotWasFree(s.c, bno, t.c, r); }
      assert HeldBy(t.clients, r.i, p);
      forall i: nat | i < NBUF && t.c.bufs[i].busy ensures SomeHolder(t.clients, i) {
        if i != r.i {
          var q: nat :| HeldBy(s.clients, i, q);
          assert HeldBy(t.clients, i, q);
        }
      }
    } else {
      forall i: nat, q: nat ensures HeldBy(t.clients, i, q) <==> HeldBy(s.clients, i, q) {}
      forall i: nat | i < NBUF && t.c.bufs[i].busy ensures SomeHolder(t.clients, i) {
        var q: nat :| HeldBy(s.clients, i, q);
        assert HeldBy(t.clients, i, q);
      }
    }
  }

  lemma GotWasFree(c: Cache, bno: nat, c': Cache, r: Outcome)
    requires BgetRel(c, ROOTDEV, bno, c', r) && r.Got?
    ensures !c.bufs[r.i].busy
  {}

  lemma ReleaseStep(s: State, p: nat, t: State)
    requires Inv(s) && Next(s, Release(p), t)
    ensures Inv(t)
  {
    var b := s.clients[p].i;
    BrelseOk(s.c, b);
    ReleaseKeepsLru(s.c.order, s.releases, b);
    hide CacheOk, LruSorted, MoveToFront;
    forall i: nat, q: nat ensures HeldBy(t.clients, i, q) <==> HeldBy(s.clients, i, q) && q != p {}
    forall i: nat | i < NBUF && t.c.bufs[i].busy ensures SomeHolder(t.clients, i) {
      var q: nat :| HeldBy(s.clients, i, q);
      assert q != p;
      assert HeldBy(t.clients, i, q);
    }
    forall q | 0 <= q < |t.clients| ensures ClientOk(t, t.clients[q]) {
      if t.clients[q].Holding? {
        assert HeldBy(s.clients, t.clients[q].i, q) && HeldBy(s.clients, b, p);
      }
    }
  }

  /** Every step of every client keeps the cache in agreement. */
  lemma InvStep(s: State, step: Step, t: State)
    requires Inv(s) && Next(s, step, t)
    ensures Inv(t)
  {
    match step
    case Want(p, bno) =>
      hide CacheOk, LruSorted;
      forall i: nat, q: nat ensures HeldBy(t.clients, i, q) <==> HeldBy(s.clients, i, q) {}
      forall i: nat | SomeHolder(s.clients, i) ensures SomeHolder(t.clients, i) {
        var q: nat :| HeldBy(s.clients, i, q);
        assert HeldBy(t.clients, i, q);
      }
    case Get(p) => GetStep(s, p, t);
    case Fill(p) => FillOk(s.c, s.clients[p].i); HolderStep(s, p, t.c);
    case Modify(p, data) => ModifyOk(s.c, s.clients[p].i, data); HolderStep(s, p, t.c);
    case MarkDirty(p) => MarkDirtyOk(s.c, s.clients[p].i); HolderStep(s, p, t.c);
    case WriteBack(p) => BwriteOk(s.c, s.clients[p].i); HolderStep(s, p, t.c);
    case Release(p) => ReleaseStep(s, p, t);
  }

  // ---- Whole runs ----

  ghost predicate IsRun(states: seq<State>, steps: seq<Step>) {
    && |states| == |steps| + 1 && Init(states[0])
    && forall i :: 0 <= i < |steps| ==> Next(states[i], steps[i], states[i+1])
  }

  lemma InitInv(s: State)
    requires Init(s)
    ensures Inv(s)
  {
    forall i: nat, p: nat ensures !HeldBy(s.clients, i, p) {}
  }

  lemma {:induction false} RunInv(states: seq<State>, steps: seq<Step>, i: nat)
    requires IsRun(states, steps) && i < |states|
    ensures Inv(states[i])
  {
    hide Inv, Init, Next;
    if i == 0 {
      InitInv(states[0]);
    } else {
      RunInv(states, steps, i - 1);
      assert Next(states[i-1], steps[i-1], states[i]);
      InvStep(states[i-1], steps[i-1], states[i]);
    }
  }

  /** Step `step` taken in `s` stores into block `bno`. */
  predicate StoresInto(s: State, step: Step, bno: nat) {
    step.Modify? && step.p < |s.clients| && s.clients[step.p].Holding? && s.clients[step.p].bno == bno
  }

  /** What the last holder to store into block `bno` left there, or what was on the disk at boot. */
  ghost function LastStored(states: seq<State>, steps: seq<Step>, i: nat, bno: nat): Block
    requires |states| == |steps| + 1 && i < |states| && bno < |states[0].c.disk|
  {
    if i == 0 then states[0].c.disk[bno]
    else if StoresInto(states[i-1], steps[i-1], bno) then steps[i-1].data
    else LastStored(states, steps, i - 1, bno)
  }

  lemma {:induction false} ViewIsLastStored(states: seq<State>, steps: seq<Step>, i: nat, bno: nat)
    requires IsRun(states, steps) && i < |states| && bno < |states[0].c.disk|
    ensures |states[i].c.disk| == |states[0].c.disk| == |states[i].c.view|
    ensures states[i].c.view[bno] == LastStored(states, steps, i, bno)
  {
    hide Inv, Next, Init, StoresInto;
    if i == 0 {
      assert states[0].c.view == states[0].c.disk by { InitView(states[0]); }
    } else {
      ViewIsLastStored(states, steps, i - 1, bno);
      RunInv(states, steps, i - 1);
      assert Next(states[i-1], steps[i-1], states[i]);
      StepView(states[i-1], steps[i-1], states[i], bno);
    }
  }

  lemma InitView(s: State)
    requires Init(s)
    ensures s.c.view == s.c.disk
  {}

  lemma StepView(s: State, step: Step, t: State, bno: nat)
    requires Inv(s) && Next(s, step, t) && bno < |s.c.disk|
    ensures |t.c.disk| == |s.c.disk| && |t.c.view| == |s.c.view| == |s.c.disk|
    ensures t.c.view[bno] == if StoresInto(s, step, bno) then step.data else s.c.view[bno]
  {
    assert |s.c.view| == |s.c.disk|;
    hide BgetRel, IsVictim, LruSorted, CacheOk;
    match step
    case Get(p) => GetKeepsView(s, p, t);
    case Modify(p, data) => assert ClientOk(s, s.clients[p]);
    case _ =>
  }

  lemma GetKeepsView(s: State, p: nat, t: State)
    requires p < |s.clients| && s.clients[p].Wanting? && GetNext(s, p, t)
    ensures t.c.view == s.c.view && t.c.disk == s.c.disk
  {}

  /** Cache agreement over all runs: a client that has read its block in sees what the last client
      to store into that block left, whoever that was and however often the block was evicted; it
      is alone with the block; and what is valid, clean and not in use is what the disk holds. */
  lemma CacheAgreement(states: seq<State>, steps: seq<Step>, i: nat, p: nat)
    requires IsRun(states, steps) && i < |states| && Holds(states[i], p) && Held(states[i], p).valid
    ensures var s := states[i];
            && s.clients[p].bno < |states[0].c.disk|
            && Held(s, p).data == LastStored(states, steps, i, s.clients[p].bno)
            && forall q ::
                 0 <= q < |s.clients| && s.clients[q].Holding? && s.clients[q].bno == s.clients[p].bno ==> q == p
  {
    RunInv(states, steps, i);
    var s := states[i];
    assert ClientOk(s, s.clients[p]);
    assert BufOk(Held(s, p), s.c.disk, s.c.view);
    RunSize(states, steps, i);
    ViewIsLastStored(states, steps, i, s.clients[p].bno);
    forall q: nat | q < |s.clients| && s.clients[q].Holding? && s.clients[q].bno == s.clients[p].bno ensures q == p {
      assert ClientOk(s, s.clients[q]);
      assert s.clients[q].i == s.clients[p].i;
      assert HeldBy(s.clients, s.clients[p].i, p) && HeldBy(s.clients, s.clients[p].i, q);
    }
  }

  lemma {:induction false} RunSize(states: seq<State>, steps: seq<Step>, i: nat)
    requires IsRun(states, steps) && i < |states|
    ensures |states[i].c.disk| == |states[0].c.disk|
  {
    if i > 0 {
      RunSize(states, steps, i - 1);
      assert Next(states[i-1], steps[i-1], states[i]);
      if steps[i-1].Get? { GetKeepsView(states[i-1], steps[i-1].p, states[i]); }
    }
  }

  lemma CleanMatchesDisk(states: seq<State>, steps: seq<Step>, i: nat, b: nat)
    requires IsRun(states, steps) && i < |states| && b < NBUF
    ensures var s := states[i];
            && |s.c.bufs| == NBUF && Unique(s.c.bufs)
            && (s.c.bufs[b].valid && !s.c.bufs[b].busy && !s.c.bufs[b].dirty ==>
                  s.c.bufs[b].blockno < |s.c.disk| && s.c.bufs[b].data == s.c.disk[s.c.bufs[b].blockno])
  {
    RunInv(states, steps, i);
    assert BufOk(states[i].c.bufs[b], states[i].c.disk, states[i].c.view);
  }

  /** A logged block is never dropped: it stays dirty in the cache until its holder writes it out. */
  lemma DirtyStays(states: seq<State>, steps: seq<Step>, i: nat, a: nat)
    requires IsRun(states, steps) && i < |steps| && Dirty(states[i].c.bufs, a)
    ensures Dirty(states[i+1].c.bufs, a) ||
            (steps[i].WriteBack? && Holds(states[i], steps[i].p) && Held(states[i], steps[i].p).blockno == a
             && |states[i].c.disk| == |states[i].c.view| == |states[i+1].c.disk|
             && a < |states[i].c.view| && states[i+1].c.disk[a] == states[i].c.view[a])
  {
    RunInv(states, steps, i);
    var s, step, t := states[i], steps[i], states[i+1];
    assert Next(s, step, t);
    var k: nat :| k < |s.c.bufs| && s.c.bufs[k].dirty && Caches(s.c.bufs[k], ROOTDEV, a);
    if step.WriteBack? && s.clients[step.p].i == k {
      BwriteOk(s.c, k);
    } else {
      if step.Get? { GetKeepsDirty(s, step.p, t, k); }
      assert t.c.bufs[k].dirty && Caches(t.c.bufs[k], ROOTDEV, a);
    }
  }

  lemma GetKeepsDirty(s: State, p: nat, t: State, k: nat)
    requires p < |s.clients| && s.clients[p].Wanting? && GetNext(s, p, t) && k < |s.c.bufs| && s.c.bufs[k].dirty
    ensures |t.c.bufs| == |s.c.bufs|
    ensures t.c.bufs[k].dirty && t.c.bufs[k].dev == s.c.bufs[k].dev && t.c.bufs[k].blockno == s.c.bufs[k].blockno
  {}

  /** LRU: at any moment the recency list holds every buffer once, from the most to the least
      recently released, and a buffer picked for recycling was released before every other buffer
      that could have been picked. */
  lemma LeastRecentlyReleased(states: seq<State>, steps: seq<Step>, i: nat, v: nat, b: nat)
    requires IsRun(states, steps) && i < |states|
    requires IsVictim(states[i].c, v) && b < NBUF && b != v && |states[i].c.bufs| == NBUF
             && Recyclable(states[i].c.bufs[b])
    ensures Complete(states[i].c.order) && LruSorted(states[i].c.order, states[i].releases)
    ensures LastRelease(states[i].releases, v) < LastRelease(states[i].releases, b)
  {
    RunInv(states, steps, i);
    VictimIsLeastRecent(states[i].c, states[i].releases, v, b);
  }

  /** No stranded sleeper: whoever sleeps in bget sleeps on a buffer some client holds and will
      release with a wakeup. */
  lemma SleeperHasHolder(states: seq<State>, steps: seq<Step>, i: nat, p: nat)
    requires IsRun(states, steps) && i < |states| && p < |states[i].clients| && states[i].clients[p].Asleep?
    ensures exists q: nat :: HeldBy(states[i].clients, states[i].clients[p].i, q)
  {
    RunInv(states, steps, i);
    var s := states[i];
    assert ClientOk(s, s.clients[p]);
    assert SomeHolder(s.clients, s.clients[p].i);
  }
}
