/** What the calls on a pipe return: the bytes each read got and each write stored, in every run with
    any number of processes and kills. */
module PipeCalls {
  import opened Blocks
  import opened Options
  import opened PipeRing
  import opened PipeProtocol

  // ---- What a call has done so far ----

  predicate Drained(s: State) { |s.w| == |s.d| }

  /** A read that has finished copying has all it asked for, or the pipe is drained; it has nothing
      only when the write end is closed as well. */
  predicate ReadDone(s: State, n: nat, got: seq<Byte>) {
    (|got| < n ==> Drained(s)) && (got == [] && n > 0 ==> !s.writeopen)
  }

  predicate Waking(pc: Pc) { pc == WakeAcq || pc == WakeScan || pc == WakeRel }

  ghost predicate CallOk(s: State, p: nat)
    requires p < |s.procs|
  {
    var Proc(op, pc, killed, ret) := s.procs[p];
    match op
    case NoOp => true
    case Write(msg, i) =>
      pc == Release ==>
        if i < |msg| then ret == -1 && |s.w| == |s.d| + PIPESIZE && (killed || !s.readopen) else ret == |msg|
    case Read(n, got) =>
      && |got| <= n && (pc == Copy || Waking(pc) || pc == Release || got == [])
      && (pc == Copy && got == [] ==> !(Drained(s) && s.writeopen))
      && (Waking(pc) ==> ReadDone(s, n, got))
      && (pc == Release ==>
           if ret == -1 then killed && got == [] && Drained(s) && s.writeopen else ret == |got| && ReadDone(s, n, got))
    case Close(writable) =>
      && (pc != Acquire && pc != Body ==> if writable then !s.writeopen else !s.readopen)
      && (pc == Release ==> ret == 0)
  }

  ghost predicate CallsOk(s: State) { forall p: nat :: p < |s.procs| ==> CallOk(s, p) }

  /** Everything but the stepping process is as it was, except for sleepers that are woken. */
  ghost predicate SameOthers(s: State, p: nat, s': State) {
    && |s'.procs| == |s.procs|
    && forall q: nat :: q < |s.procs| && q != p ==>
         s'.procs[q] == s.procs[q] || (s.procs[q].pc == Asleep && s'.procs[q] == s.procs[q].(pc := Woken))
  }

  /** No byte moves and no end is closed. */
  ghost predicate SamePipe(s: State, s': State) {
    s'.w == s.w && s'.d == s.d && s'.readopen == s.readopen && s'.writeopen == s.writeopen
  }

  /** What a step of `p` does to the bytes: a writer in its body stores the next byte of its message, a
      reader that copies takes the next byte of the pipe, and every other step leaves them alone. */
  ghost predicate BytesMove(s: State, p: nat, s': State)
    requires p < |s.procs| && p < |s'.procs|
  {
    var q, q' := s.procs[p], s'.procs[p];
    || (s'.w == s.w && s'.d == s.d && (q'.op == q.op || q.pc == Idle || q.pc == Release))
    || (q.pc == Body && q.op.Write? && q.op.i < |q.op.msg| && q'.op == Write(q.op.msg, q.op.i + 1) && q'.pc == Body
        && s'.w == s.w + [q.op.msg[q.op.i]] && s'.d == s.d)
    || (q.pc == Copy && q.op.Read? && q'.pc == Copy && |s'.d| == |s.d| + 1 && s.d <= s'.d && s'.w == s.w
        && q'.op == Read(q.op.n, q.op.got + [s'.d[|s.d|]]))
  }

  lemma OthersKept(s: State, p: nat, s': State)
    requires Inv(s) && CallsOk(s) && SameOthers(s, p, s') && p < |s.procs| && CallOk(s', p)
    requires SamePipe(s, s') || (s.plock == Some(p) && (s'.readopen ==> s.readopen) && (s'.writeopen ==> s.writeopen))
    ensures CallsOk(s')
  {
    forall q: nat | q < |s'.procs| ensures CallOk(s', q) {
      assert CallOk(s, q);
      assert ProcOk(s, q);
    }
  }

  /** What a step of the body leaves of a call. */
  lemma WriteBody(s: State, p: nat, s': State)
    requires p < |s.procs| && s.procs[p].op.Write? && |s.ring.data| == PIPESIZE && s' == BodyStep(s, p)
    requires Full(s.ring) <==> |s.w| == |s.d| + PIPESIZE
    requires s.procs[p].op.i <= |s.procs[p].op.msg| && s.procs[p].pc == Body
    ensures SameOthers(s, p, s') && CallOk(s', p) && s'.readopen == s.readopen && s'.writeopen == s.writeopen
    ensures BytesMove(s, p, s')
  {
    hide Full, Put;
    var Write(msg, i) := s.procs[p].op;
    if i == |msg| { assert s' == Goto(s, p, WakeAcq); }
    else if !Full(s.ring) { assert s'.procs == s.procs[p := s.procs[p].(op := Write(msg, i + 1))]; }
    else if !s.readopen || s.procs[p].killed { assert s'.procs == Fail(s, p).procs; }
    else { assert s' == Goto(s, p, WakeAcq); }
  }

  lemma ReadBody(s: State, p: nat, s': State)
    requires p < |s.procs| && s.procs[p].op.Read? && s.procs[p].op.got == [] && |s.ring.data| == PIPESIZE
             && s' == BodyStep(s, p)
    requires Empty(s.ring) <==> |s.w| == |s.d|
    requires s.procs[p].pc == Body
    ensures SameOthers(s, p, s') && CallOk(s', p) && SamePipe(s, s') && BytesMove(s, p, s')
  {
    hide Empty;
  }

  lemma CloseBody(s: State, p: nat, s': State)
    requires p < |s.procs| && s.procs[p].op.Close? && s.procs[p].pc == Body && |s.ring.data| == PIPESIZE
             && s' == BodyStep(s, p)
    ensures SameOthers(s, p, s') && CallOk(s', p) && (s'.readopen ==> s.readopen) && (s'.writeopen ==> s.writeopen)
    ensures BytesMove(s, p, s')
  {
    hide Full, Empty;
  }

  lemma BodyCalls(s: State, p: nat, s': State)
    requires Inv(s) && CallsOk(s) && p < |s.procs| && s.procs[p].pc == Body && |s.ring.data| == PIPESIZE
             && s' == BodyStep(s, p)
    ensures CallsOk(s')
  {
    assert CallOk(s, p) && ProcOk(s, p);
    Occupancy(s.ring, s.w, s.d);
    hide Inv, CallsOk, Full, Empty, BodyStep, CallOk, SameOthers;
    match s.procs[p].op {
      case NoOp =>
      case Write(_, _) => WriteBody(s, p, s'); OthersKept(s, p, s');
      case Read(_, _) =>
        assert s.procs[p].op.got == [] by { NothingYet(s, p); }
        ReadBody(s, p, s');
        OthersKept(s, p, s');
      case Close(_) => CloseBody(s, p, s'); OthersKept(s, p, s');
    }
  }

  lemma NothingYet(s: State, p: nat)
    requires p < |s.procs| && CallOk(s, p) && s.procs[p].op.Read? && s.procs[p].pc == Body
    ensures s.procs[p].op.got == []
  {}

  lemma CopyCalls(s: State, p: nat, s': State)
    requires Inv(s) && CallsOk(s) && p < |s.procs| && s.procs[p].pc == Copy && |s.ring.data| == PIPESIZE
             && s.procs[p].op.Read? && s' == CopyStep(s, p)
    ensures CallsOk(s')
  {
    assert CallOk(s, p) && ProcOk(s, p);
    Occupancy(s.ring, s.w, s.d);
    hide RingOk, Full, Empty, Get, Got;
    OthersKept(s, p, s');
  }

  /** The other steps move no byte; the stepping process's call stays as good as it was. */
  lemma StartCall(s: State, p: nat, s': State)
    requires Start(s, p, s')
    ensures SameOthers(s, p, s') && SamePipe(s, s') && CallOk(s', p)
  {
    if msg: seq<Byte> :| s.wfd && s' == Call(s, p, Write(msg, 0), Acquire) {
    } else if n: nat :| s.rfd && s' == Call(s, p, Read(n, []), Acquire) {
    }
  }

  /** The process moves on inside its call, past none of the points that decide what it returns. */
  lemma GoesOn(s: State, p: nat, pc: Pc, s': State)
    requires p < |s.procs| && CallOk(s, p) && s'.procs == s.procs[p := s.procs[p].(pc := pc)] && SamePipe(s, s')
    requires var q := s.procs[p];
             && pc != Copy && pc != Release && (Waking(pc) ==> Waking(q.pc))
             && (q.op.Read? && !Waking(pc) ==> q.op.got == []) && (q.op.Close? ==> Waking(pc) || pc == Body)
    ensures SameOthers(s, p, s') && CallOk(s', p)
  {}

  lemma QuietStep(s: State, p: nat, s': State)
    requires Step(s, p, s') && ProcOk(s, p) && CallOk(s, p)
    requires var pc := s.procs[p].pc; pc != Idle && pc != Body && pc != Copy && pc != WakeScan
    ensures SameOthers(s, p, s') && SamePipe(s, s') && CallOk(s', p)
  {
    var pc := s.procs[p].pc;
    if pc == Release { ReleaseStep(s, p, s'); }
    else if pc == WakeRel { WakeRelStep(s, p, s'); }
    else {
      var pc' := LockStep(s, p, s');
      assert s.procs[p].op.Read? && !Waking(pc) ==> s.procs[p].op.got == [];
      assert s.procs[p].op.Close? ==> !Sleepy(pc) && pc != Woken;
      hide CallOk, ProcOk, Step, SameOthers;
      GoesOn(s, p, pc', s');
    }
  }

  /** The steps that only take and release locks. */
  lemma LockStep(s: State, p: nat, s': State) returns (pc': Pc)
    requires Step(s, p, s')
    requires var pc := s.procs[p].pc;
             pc != Idle && pc != Body && pc != Copy && pc != WakeScan && pc != WakeRel && pc != Release
    ensures s'.procs == s.procs[p := s.procs[p].(pc := pc')] && SamePipe(s, s')
    ensures pc' != Copy && pc' != Release && (Waking(pc') <==> s.procs[p].pc == WakeAcq)
    ensures s.procs[p].pc == Acquire ==> pc' == Body
  {
    hide Start, BodyStep, CopyStep, Waken, Waked, Call;
    match s.procs[p].pc {
      case Acquire => pc' := Body;
      case WakeAcq => pc' := WakeScan;
      case SleepAcq => pc' := SleepRel;
      case SleepRel => pc' := SleepSet;
      case SleepSet => pc' := SleepSched;
      case SleepSched => pc' := Asleep;
      case _ => pc' := Acquire;
    }
  }

  lemma ReleaseStep(s: State, p: nat, s': State)
    requires Step(s, p, s') && s.procs[p].pc == Release
    ensures SameOthers(s, p, s') && SamePipe(s, s') && CallOk(s', p)
  {}

  lemma WakeRelStep(s: State, p: nat, s': State)
    requires Step(s, p, s') && s.procs[p].pc == WakeRel && CallOk(s, p) && Shape(s.procs[p].op, WakeRel)
    ensures SameOthers(s, p, s') && SamePipe(s, s') && CallOk(s', p)
  {}

  lemma ScanStep(s: State, p: nat, s': State)
    requires Step(s, p, s') && ProcOk(s, p) && CallOk(s, p) && s.procs[p].pc == WakeScan
    ensures SameOthers(s, p, s') && SamePipe(s, s') && CallOk(s', p)
  {
    hide Full, Empty, SleepOk, Waked;
  }

  lemma StepCalls(s: State, p: nat, s': State)
    requires Inv(s) && CallsOk(s) && Step(s, p, s')
    ensures CallsOk(s')
  {
    assert CallOk(s, p) && ProcOk(s, p);
    hide Inv, CallsOk, ProcOk, CallOk, SameOthers, BodyStep, CopyStep, Start;
    match s.procs[p].pc {
      case Body => BodyCalls(s, p, s');
      case Copy => CopyCalls(s, p, s');
      case Idle => StartCall(s, p, s'); OthersKept(s, p, s');
      case WakeScan => ScanStep(s, p, s'); OthersKept(s, p, s');
      case _ => QuietStep(s, p, s'); OthersKept(s, p, s');
    }
  }

  lemma KillCalls(s: State, p: nat, s': State)
    requires Inv(s) && CallsOk(s) && KillStep(s, p, s')
    ensures CallsOk(s')
  {
    assert CallOk(s, p) && ProcOk(s, p);
    hide Inv;
    OthersKept(s, p, s');
  }

  lemma {:induction false} RunCalls(states: seq<State>, k: nat)
    requires IsRun(states) && k < |states|
    ensures Inv(states[k]) && CallsOk(states[k])
  {
    RunInv(states, k);
    if k > 0 {
      var j := k - 1;
      RunCalls(states, j);
      hide Inv, CallsOk, Step, KillStep;
      assert Next(states[j], states[k]);
      var p: nat :| Step(states[j], p, states[k]) || KillStep(states[j], p, states[k]);
      if Step(states[j], p, states[k]) { StepCalls(states[j], p, states[k]); }
      else { KillCalls(states[j], p, states[k]); }
    }
  }

  // ---- Bytes and processes in one step ----

  lemma StepBytes(s: State, p: nat, s': State)
    requires Inv(s) && CallsOk(s) && Step(s, p, s')
    ensures p < |s.procs| && SameOthers(s, p, s') && BytesMove(s, p, s')
    ensures s.procs[p].pc != Body && s.procs[p].pc != Copy ==> SamePipe(s, s')
    ensures s.procs[p].pc != Body || !s.procs[p].op.Close? ==> s'.readopen == s.readopen && s'.writeopen == s.writeopen
  {
    assert CallOk(s, p) && ProcOk(s, p);
    hide Inv, CallsOk, ProcOk, CallOk, SameOthers, BytesMove, BodyStep, CopyStep, Start;
    match s.procs[p].pc {
      case Body => BodyBytes(s, p, s');
      case Copy => CopyBytes(s, p, s');
      case Idle => StartCall(s, p, s'); MovesNone(s, p, s');
      case WakeScan => ScanStep(s, p, s'); ScanOp(s, p, s'); MovesNone(s, p, s');
      case Release => ReleaseStep(s, p, s'); MovesNone(s, p, s');
      case _ => QuietStep(s, p, s'); QuietOp(s, p, s'); MovesNone(s, p, s');
    }
  }

  lemma MovesNone(s: State, p: nat, s': State)
    requires p < |s.procs| && p < |s'.procs| && s'.w == s.w && s'.d == s.d
    requires s'.procs[p].op == s.procs[p].op || s.procs[p].pc == Idle || s.procs[p].pc == Release
    ensures BytesMove(s, p, s')
  {}

  lemma BodyBytes(s: State, p: nat, s': State)
    requires Inv(s) && p < |s.procs| && ProcOk(s, p) && CallOk(s, p) && s.procs[p].pc == Body
    requires |s.ring.data| == PIPESIZE && s' == BodyStep(s, p)
    ensures SameOthers(s, p, s') && BytesMove(s, p, s')
    ensures !s.procs[p].op.Close? ==> s'.readopen == s.readopen && s'.writeopen == s.writeopen
  {
    Occupancy(s.ring, s.w, s.d);
    hide Inv, CallOk, Full, Empty, SameOthers, BytesMove, BodyStep;
    match s.procs[p].op {
      case NoOp =>
      case Write(_, _) => WriteBody(s, p, s');
      case Read(_, _) => NothingYet(s, p); ReadBody(s, p, s');
      case Close(_) => CloseBody(s, p, s');
    }
  }

  lemma CopyBytes(s: State, p: nat, s': State)
    requires p < |s.procs| && s.procs[p].pc == Copy && |s.ring.data| == PIPESIZE && s.procs[p].op.Read?
             && s' == CopyStep(s, p)
    ensures SameOthers(s, p, s') && BytesMove(s, p, s') && s'.readopen == s.readopen && s'.writeopen == s.writeopen
  {
    hide Empty, Get, Got;
  }

  lemma ScanOp(s: State, p: nat, s': State)
    requires Step(s, p, s') && s.procs[p].pc == WakeScan
    ensures |s'.procs| == |s.procs| && s'.procs[p].op == s.procs[p].op
  {
    hide Waked;
  }

  lemma QuietOp(s: State, p: nat, s': State)
    requires Step(s, p, s')
    requires var pc := s.procs[p].pc; pc != Idle && pc != Body && pc != Copy && pc != WakeScan && pc != Release
    ensures |s'.procs| == |s.procs| && s'.procs[p].op == s.procs[p].op
  {
    if s.procs[p].pc != WakeRel { var _ := LockStep(s, p, s'); }
  }

  // ---- Steps as one process sees them ----

  /** Process `p` finds itself where it was, but for being woken or killed. */
  predicate Undisturbed(q: Proc, q': Proc) {
    q' == q.(killed := q'.killed, pc := q'.pc) && (q'.pc == q.pc || (q.pc == Asleep && q'.pc == Woken))
  }

  /** A step of the run either is a step of `p` or leaves it undisturbed, and then it moves bytes only
      when `p` does not have the pipe's lock. */
  lemma Seen(s: State, s': State, p: nat) returns (mine: bool)
    requires Inv(s) && CallsOk(s) && Next(s, s') && p < |s.procs|
    ensures |s'.procs| == |s.procs|
    ensures mine ==> Step(s, p, s') && BytesMove(s, p, s')
    ensures !mine ==> Undisturbed(s.procs[p], s'.procs[p]) && (s.plock == Some(p) ==> s'.w == s.w && s'.d == s.d)
  {
    hide CallsOk, Step, BytesMove, RingOk;
    var q: nat :| Step(s, q, s') || KillStep(s, q, s');
    mine := Step(s, q, s') && q == p;
    if Step(s, q, s') {
      StepBytes(s, q, s');
      if q != p && s.plock == Some(p) { NotHolding(s, q, p); }
    }
  }

  lemma NotHolding(s: State, q: nat, p: nat)
    requires Inv(s) && q < |s.procs| && q != p && s.plock == Some(p)
    ensures s.procs[q].pc != Body && s.procs[q].pc != Copy
  {
    assert ProcOk(s, q);
  }

  lemma RunNext(states: seq<State>, i: nat, k: nat)
    requires IsRun(states) && k == i + 1 && k < |states|
    ensures Next(states[i], states[k])
  {
    hide Next, Init;
  }

  // ---- Reads ----

  /** A read past its waiting loop. */
  predicate Reading(q: Proc) { q.op.Read? && (q.pc == Copy || Waking(q.pc) || q.pc == Release) }

  /** From `j` to `k` process `p` has the lock and is in a read that had nothing at `j`; no byte has
      come in, and those that went out are the ones it got. */
  ghost predicate Stretch(states: seq<State>, j: nat, k: nat, p: nat)
    requires j <= k < |states| && forall i :: 0 <= i < |states| ==> p < |states[i].procs|
  {
    && (forall i :: j <= i <= k ==> states[i].plock == Some(p) && states[i].procs[p].op.Read?)
    && states[k].procs[p].op.Read? && states[j].procs[p].op == Read(states[k].procs[p].op.n, [])
    && states[k].w == states[j].w && states[k].d == states[j].d + states[k].procs[p].op.got
  }

  /** The bytes `x` went from the pipe to the read. */
  ghost predicate Gets(s: State, p: nat, s': State, x: seq<Byte>)
    requires p < |s.procs| && p < |s'.procs|
  {
    && s.procs[p].op.Read? && s'.procs[p].op == Read(s.procs[p].op.n, s.procs[p].op.got + x)
    && s'.d == s.d + x && s'.w == s.w
  }

  /** What the move of the bytes means for a process that is reading afterwards. */
  lemma MoveGets(s: State, p: nat, s': State) returns (x: seq<Byte>)
    requires p < |s.procs| && p < |s'.procs| && BytesMove(s, p, s') && s'.procs[p].op.Read?
    requires s.procs[p].pc != Idle && s.procs[p].pc != Release
    ensures Gets(s, p, s', x)
  {
    x := s'.d[|s.d|..];
    assert s'.d == s.d + x;
    if x == [] && s.procs[p].op.Read? { assert s.procs[p].op.got + x == s.procs[p].op.got; }
  }

  lemma NotReading(s: State, p: nat, s': State)
    requires Step(s, p, s')
    requires var pc := s.procs[p].pc; pc == Idle || pc == Release || pc == Acquire || Sleepy(pc) || pc == Woken
    ensures |s'.procs| == |s.procs| && !Reading(s'.procs[p])
  {
    var pc := s.procs[p].pc;
    if pc == Idle { StartsAcquire(s, p, s'); }
    else if pc == Release { hide Step; ReleasesIdle(s, p, s'); }
    else { hide Step; var _ := LockStep(s, p, s'); }
  }

  lemma StartsAcquire(s: State, p: nat, s': State)
    requires Start(s, p, s')
    ensures |s'.procs| == |s.procs| && s'.procs[p].pc == Acquire
  {}

  lemma ReleasesIdle(s: State, p: nat, s': State)
    requires Step(s, p, s') && s.procs[p].pc == Release
    ensures |s'.procs| == |s.procs| && s'.procs[p].pc == Idle
  {
    hide Start, BodyStep, CopyStep, Waken, Waked;
  }

  /** How a process comes to be reading, or goes on: by its own step. */
  lemma ReadStepIs(s: State, p: nat, s': State) returns (x: seq<Byte>)
    requires p < |s.procs| && Step(s, p, s') && p < |s'.procs| && BytesMove(s, p, s') && Reading(s'.procs[p])
    ensures Gets(s, p, s', x) && (s.procs[p].pc == Body || Reading(s.procs[p]))
  {
    hide Step, Gets, BytesMove;
    var pc := s.procs[p].pc;
    if pc == Idle || pc == Release || pc == Acquire || Sleepy(pc) || pc == Woken { NotReading(s, p, s'); }
    x := MoveGets(s, p, s');
    assert s.procs[p].op.Read? by { GetsIs(s, p, s', x); }
  }

  lemma GetsIs(s: State, p: nat, s': State, x: seq<Byte>)
    requires p < |s.procs| && p < |s'.procs| && Gets(s, p, s', x)
    ensures s.procs[p].op.Read?
  {}

  /** Whoever is reading, or about to, has the lock. */
  lemma ReaderHolds(s: State, p: nat)
    requires Inv(s) && p < |s.procs| && (Reading(s.procs[p]) || s.procs[p].pc == Body)
    ensures s.plock == Some(p)
  {
    assert ProcOk(s, p);
  }

  lemma ReadMoves(s: State, s': State, p: nat) returns (x: seq<Byte>)
    requires Inv(s) && CallsOk(s) && Inv(s') && Next(s, s') && p < |s.procs| && p < |s'.procs| && Reading(s'.procs[p])
    ensures Gets(s, p, s', x) && s.plock == s'.plock == Some(p)
    ensures Reading(s.procs[p]) || s.procs[p].op.got == []
  {
    assert CallOk(s, p);
    ReaderHolds(s', p);
    var mine := Seen(s, s', p);
    hide Inv, CallsOk, Next, Step, BytesMove;
    if mine {
      x := ReadStepIs(s, p, s');
    } else {
      x := [];
      ReaderHolds(s, p);
      assert s.d + x == s.d && s.procs[p].op.got + x == s.procs[p].op.got;
    }
    ReaderHolds(s, p);
  }

  lemma {:induction false} ReadStretch(states: seq<State>, k: nat, p: nat) returns (j: nat)
    requires IsRun(states) && k < |states| && (forall i :: 0 <= i < |states| ==> p < |states[i].procs|)
    requires Reading(states[k].procs[p])
    ensures j <= k && Stretch(states, j, k, p)
  {
    assert k > 0;
    hide Inv, CallsOk, Next, IsRun, Gets, Stretch;
    var i := k - 1;
    RunCalls(states, i);
    RunCalls(states, k);
    RunNext(states, i, k);
    var x := ReadMoves(states[i], states[k], p);
    if Reading(states[i].procs[p]) {
      j := ReadStretch(states, i, p);
    } else {
      j := i;
      ShortStretch(states, i, k, p, x);
    }
    LongerStretch(states, j, i, k, p, x);
  }

  lemma ShortStretch(states: seq<State>, i: nat, k: nat, p: nat, x: seq<Byte>)
    requires i < k < |states| && (forall i :: 0 <= i < |states| ==> p < |states[i].procs|)
    requires Gets(states[i], p, states[k], x) && states[i].procs[p].op.got == [] && states[i].plock == Some(p)
    ensures Stretch(states, i, i, p)
  {
    assert states[i].d + [] == states[i].d;
  }

  lemma LongerStretch(states: seq<State>, j: nat, i: nat, k: nat, p: nat, x: seq<Byte>)
    requires j <= i && k == i + 1 && k < |states| && (forall i :: 0 <= i < |states| ==> p < |states[i].procs|)
    requires Stretch(states, j, i, p) && Gets(states[i], p, states[k], x) && states[k].plock == Some(p)
    ensures Stretch(states, j, k, p)
  {
    assert states[k].d == states[j].d + (states[i].procs[p].op.got + x);
  }

  /** What piperead returns, in every run with kills.  A read that is not cut short by a kill returns
      the number of bytes it got: all it asked for, or fewer when the pipe is then drained, and none
      only when the write end is closed as well.  One that is cut short got nothing, and found the pipe
      drained and open.  The bytes are those it took from the pipe itself, in one stretch. */
  lemma ReadReturns(states: seq<State>, k: nat, p: nat) returns (j: nat)
    requires IsRun(states) && k < |states| && (forall i :: 0 <= i < |states| ==> p < |states[i].procs|)
    requires states[k].procs[p].op.Read? && states[k].procs[p].pc == Release
    ensures j <= k && Stretch(states, j, k, p)
    ensures var s := states[k]; var Proc(Read(n, got), _, killed, ret) := s.procs[p];
            if ret == -1 then killed && got == [] && s.d == s.w && s.writeopen
            else ret == |got| <= n && (|got| < n ==> s.d == s.w) && (got == [] && n > 0 ==> !s.writeopen)
  {
    RunCalls(states, k);
    assert CallOk(states[k], p);
    j := ReadStretch(states, k, p);
    Fifo(states, k);
  }

  // ---- Writes ----

  /** The bytes the pipe accepts in a step that starts with the lock in the hands of `p`. */
  ghost function Accepted(s: State, s': State, p: nat): seq<Byte> {
    if s.plock == Some(p) && |s.w| <= |s'.w| then s'.w[|s.w|..] else []
  }

  /** And from state `j` to state `k`. */
  ghost function Stored(states: seq<State>, p: nat, j: nat, k: nat): seq<Byte>
    requires j <= k < |states|
    decreases k
  {
    if j == k then [] else Stored(states, p, j, k - 1) + Accepted(states[k - 1], states[k], p)
  }

  /** Between two states of a write call the pipe accepts the next bytes of its message, if any. */
  ghost predicate Puts(s: State, p: nat, s': State)
    requires p < |s.procs| && p < |s'.procs|
  {
    var op, op' := s.procs[p].op, s'.procs[p].op;
    && op.Write? && op'.Write? && op'.msg == op.msg && op.i <= op'.i <= |op.msg|
    && Accepted(s, s', p) == op.msg[op.i..op'.i]
  }

  lemma MovePuts(s: State, p: nat, s': State)
    requires p < |s.procs| && p < |s'.procs| && BytesMove(s, p, s') && s.procs[p].op.Write? && s'.procs[p].op.Write?
    requires s.procs[p].pc != Idle && s.procs[p].pc != Release && s.procs[p].op.i <= |s.procs[p].op.msg|
    requires s.procs[p].pc == Body ==> s.plock == Some(p)
    ensures Puts(s, p, s')
  {}

  lemma WriteMoves(s: State, s': State, p: nat)
    requires Inv(s) && CallsOk(s) && Next(s, s') && p < |s.procs| && p < |s'.procs|
    requires s.procs[p].op.Write? && s'.procs[p].op.Write?
    ensures Puts(s, p, s')
  {
    assert ProcOk(s, p);
    WriterShape(s, p);
    var mine := Seen(s, s', p);
    hide Inv, CallsOk, Next, BytesMove, SleepOk;
    if mine {
      if s.procs[p].pc == Release { hide Step; ReleasesNone(s, p, s'); }
      hide Step;
      MovePuts(s, p, s');
    }
  }

  lemma ReleasesNone(s: State, p: nat, s': State)
    requires Step(s, p, s') && s.procs[p].pc == Release
    ensures |s'.procs| == |s.procs| && s'.procs[p].op == NoOp
  {
    hide Start, BodyStep, CopyStep, Waken, Waked;
  }

  /** A write call starts with nothing stored. */
  lemma WriteStarts(s: State, s': State, p: nat)
    requires Inv(s) && CallsOk(s) && Next(s, s') && p < |s.procs| && p < |s'.procs|
    requires s.procs[p].pc == Idle && s'.procs[p].op.Write?
    ensures s'.procs[p].op.i == 0 && Accepted(s, s', p) == []
  {
    assert ProcOk(s, p);
    var mine := Seen(s, s', p);
    hide Inv, CallsOk, Next, BytesMove, SleepOk;
    if mine { StartsEmpty(s, p, s'); }
  }

  lemma StartsEmpty(s: State, p: nat, s': State)
    requires Step(s, p, s') && s.procs[p].pc == Idle
    ensures |s'.procs| == |s.procs| && (s'.procs[p].op.Write? ==> s'.procs[p].op.i == 0)
  {
    hide BodyStep, CopyStep, Waken, Waked, Goto;
  }

  /** From the start of a write call on, the pipe has accepted from it exactly the bytes it has
      counted, in the order of its message. */
  lemma {:induction false} WriteStored(states: seq<State>, b: nat, k: nat, p: nat)
    requires IsRun(states) && b < k < |states| && (forall i :: b <= i <= k ==> p < |states[i].procs|)
    requires states[b].procs[p].pc == Idle && forall i :: b < i <= k ==> states[i].procs[p].op.Write?
    ensures var Write(msg, i) := states[k].procs[p].op; i <= |msg| && Stored(states, p, b, k) == msg[..i]
    decreases k
  {
    hide Inv, CallsOk, Next, IsRun, Accepted, Stored, Puts;
    var i := k - 1;
    RunCalls(states, i);
    RunNext(states, i, k);
    StoredStep(states, p, b, k);
    if i == b {
      WriteStarts(states[i], states[k], p);
    } else {
      WriteStored(states, b, i, p);
      WriteMoves(states[i], states[k], p);
      PutsMore(states[i], p, states[k], Stored(states, p, b, i));
    }
  }

  lemma StoredStep(states: seq<State>, p: nat, b: nat, k: nat)
    requires b < k < |states|
    ensures Stored(states, p, b, k) == Stored(states, p, b, k - 1) + Accepted(states[k - 1], states[k], p)
    ensures Stored(states, p, b, b) == []
  {
    hide Accepted;
  }

  lemma PutsMore(s: State, p: nat, s': State, stored: seq<Byte>)
    requires p < |s.procs| && p < |s'.procs| && Puts(s, p, s') && stored == s.procs[p].op.msg[..s.procs[p].op.i]
    ensures var Write(msg, i) := s'.procs[p].op; i <= |msg| && stored + Accepted(s, s', p) == msg[..i]
  {
    hide Accepted;
  }

  /** What pipewrite returns, in every run with kills: the length of the message when the pipe has
      accepted all of it from this call, in order; otherwise -1, when the pipe was full and the process
      killed or the read end closed, and then the pipe has accepted a proper part from the front. */
  lemma WriteReturns(states: seq<State>, b: nat, k: nat, p: nat)
    requires IsRun(states) && b < k < |states| && (forall i :: b <= i <= k ==> p < |states[i].procs|)
    requires states[b].procs[p].pc == Idle && forall i :: b < i <= k ==> states[i].procs[p].op.Write?
    requires states[k].procs[p].pc == Release
    ensures var s := states[k]; var Proc(Write(msg, _), _, killed, ret) := s.procs[p];
            var stored := Stored(states, p, b, k);
            if ret == -1 then stored < msg && |s.w| == |s.d| + PIPESIZE && (killed || !s.readopen)
            else ret == |msg| && stored == msg
  {
    WriteStored(states, b, k, p);
    RunCalls(states, k);
    assert CallOk(states[k], p);
    hide Stored;
  }

  // ---- Closing ----

  /** On its way to closing the end. */
  predicate Closing(q: Proc, writable: bool) { q.op == Close(writable) && (q.pc == Acquire || q.pc == Body) }

  ghost predicate SomeoneCloses(s: State, writable: bool) {
    exists p: nat :: p < |s.procs| && Closing(s.procs[p], writable)
  }

  /** An end is open as long as a descriptor of it is, or the close of the last one is on its way. */
  ghost predicate EndsOk(s: State) {
    (s.writeopen ==> s.wfd || SomeoneCloses(s, true)) && (s.readopen ==> s.rfd || SomeoneCloses(s, false))
  }

  lemma StepEnds(s: State, p: nat, s': State, writable: bool)
    requires Inv(s) && CallsOk(s) && Step(s, p, s') && SomeoneCloses(s, writable)
    ensures SomeoneCloses(s', writable) || if writable then !s'.writeopen else !s'.readopen
  {
    StepBytes(s, p, s');
    hide Inv, CallsOk, BytesMove, SamePipe;
    var q: nat :| q < |s.procs| && Closing(s.procs[q], writable);
    if q != p {
      hide Step;
      assert Closing(s'.procs[q], writable);
    } else {
      Closes(s, p, s', writable);
    }
  }

  lemma Closes(s: State, p: nat, s': State, writable: bool)
    requires p < |s.procs| && Step(s, p, s') && Closing(s.procs[p], writable)
    ensures SomeoneCloses(s', writable) || if writable then !s'.writeopen else !s'.readopen
  {
    hide Start, CopyStep, Waken, Waked;
    if s.procs[p].pc == Acquire { assert Closing(s'.procs[p], writable); }
  }

  lemma StartFds(s: State, p: nat, s': State)
    requires Start(s, p, s')
    ensures |s'.procs| == |s.procs| && (s'.wfd == s.wfd || Closing(s'.procs[p], true))
    ensures s'.rfd == s.rfd || Closing(s'.procs[p], false)
  {}

  /** Descriptors are closed only at the start of a close. */
  lemma StepFds(s: State, p: nat, s': State)
    requires Step(s, p, s') && |s'.procs| == |s.procs|
    ensures s'.wfd == s.wfd || Closing(s'.procs[p], true)
    ensures s'.rfd == s.rfd || Closing(s'.procs[p], false)
  {
    hide Start, BodyStep, CopyStep, Waked, Waken, Goto, Call, With;
    if s.procs[p].pc == Idle { StartFds(s, p, s'); }
  }

  lemma NextEnds(s: State, s': State)
    requires Inv(s) && CallsOk(s) && EndsOk(s) && Next(s, s')
    ensures EndsOk(s')
  {
    hide Inv, CallsOk, Step, BytesMove, SomeoneCloses, SameOthers, SamePipe;
    var p: nat :| Step(s, p, s') || KillStep(s, p, s');
    if Step(s, p, s') {
      OnlyShut(s, p, s');
      StepFds(s, p, s');
      if s'.wfd != s.wfd { CloserIs(s', p, true); }
      if s'.rfd != s.rfd { CloserIs(s', p, false); }
      if SomeoneCloses(s, true) { StepEnds(s, p, s', true); }
      if SomeoneCloses(s, false) { StepEnds(s, p, s', false); }
    } else {
      KillEnds(s, p, s');
    }
  }

  lemma CloserIs(s: State, p: nat, writable: bool)
    requires p < |s.procs| && Closing(s.procs[p], writable)
    ensures SomeoneCloses(s, writable)
  {}

  /** No end is ever opened again. */
  lemma OnlyShut(s: State, p: nat, s': State)
    requires Inv(s) && CallsOk(s) && Step(s, p, s')
    ensures p < |s.procs| == |s'.procs| && (s'.writeopen ==> s.writeopen) && (s'.readopen ==> s.readopen)
  {
    StepBytes(s, p, s');
    hide Inv, CallsOk, BytesMove, Full, Empty, Put, Start, CopyStep, Waked, Waken;
  }

  lemma KillEnds(s: State, p: nat, s': State)
    requires KillStep(s, p, s')
    ensures forall writable :: SomeoneCloses(s, writable) ==> SomeoneCloses(s', writable)
  {
    forall writable | SomeoneCloses(s, writable) ensures SomeoneCloses(s', writable) {
      var q: nat :| q < |s.procs| && Closing(s.procs[q], writable);
      assert Closing(s'.procs[q], writable);
    }
  }

  lemma {:induction false} RunEnds(states: seq<State>, k: nat)
    requires IsRun(states) && k < |states|
    ensures EndsOk(states[k])
  {
    if k > 0 {
      hide Inv, CallsOk, Next, IsRun, EndsOk;
      RunEnds(states, k - 1);
      RunCalls(states, k - 1);
      RunNext(states, k - 1, k);
      NextEnds(states[k - 1], states[k]);
    }
  }

  /** Once the last descriptor of an end is closed and no close is on its way any more, the end is
      closed; and it is open as long as there is a descriptor. */
  lemma EndsClosed(states: seq<State>, k: nat)
    requires IsRun(states) && k < |states|
    ensures var s := states[k];
            && (s.wfd ==> s.writeopen) && (s.writeopen ==> s.wfd || SomeoneCloses(s, true))
            && (s.rfd ==> s.readopen) && (s.readopen ==> s.rfd || SomeoneCloses(s, false))
  {
    RunInv(states, k);
    RunEnds(states, k);
  }
}
