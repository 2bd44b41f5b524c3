/** Any number of processes reading, writing and closing one pipe, interleaved at the level of the
    pipe lock, the process-table lock and single bytes.  Any process may be killed at any time. */
module PipeProtocol {
  import opened Blocks
  import opened Options
  import opened PipeRing

  /** The system call a process is in. */
  datatype Op = NoOp | Write(msg: seq<Byte>, i: nat) | Read(n: nat, got: seq<Byte>) | Close(writable: bool)

  /** Where it is: in the function's body, in wakeup (WakeAcq to WakeRel) or in sleep (SleepAcq to
      Woken). */
  datatype Pc =
    | Idle | Acquire | Body | Copy | Release
    | WakeAcq | WakeScan | WakeRel
    | SleepAcq | SleepRel | SleepSet | SleepSched | Asleep | Woken

  datatype Chan = NRead | NWrite

  /** `ret` is what the last call returned, or what the present one is about to return. */
  datatype Proc = Proc(op: Op, pc: Pc, killed: bool, ret: int)

  /** `w` and `d` are the bytes accepted and returned so far; `rfd` and `wfd` say whether a file
      descriptor of that end is still open somewhere; `left` that a killed writer has returned from
      a full pipe whose read end was open. */
  datatype State = State(ring: Ring, w: seq<Byte>, d: seq<Byte>, readopen: bool, writeopen: bool, rfd: bool, wfd: bool,
                         left: bool, plock: Option<nat>, tlock: Option<nat>, procs: seq<Proc>)

  function SleepChan(op: Op): Chan { if op.Read? then NRead else NWrite }

  function WakeChan(op: Op): Chan { if op.Write? || op == Close(true) then NRead else NWrite }

  function With(s: State, p: nat, q: Proc): (r: State)
    requires p < |s.procs|
    ensures |r.procs| == |s.procs| && r.left == s.left && r.wfd == s.wfd && r.rfd == s.rfd
  {
    s.(procs := s.procs[p := q])
  }

  function Goto(s: State, p: nat, pc: Pc): (r: State)
    requires p < |s.procs|
    ensures |r.procs| == |s.procs| && r.left == s.left && r.wfd == s.wfd && r.rfd == s.rfd
  {
    With(s, p, s.procs[p].(pc := pc))
  }

  /** The system call process `p` is in, or has reached. */
  function Call(s: State, p: nat, op: Op, pc: Pc): (r: State)
    requires p < |s.procs|
    ensures |r.procs| == |s.procs| && r.left == s.left && r.wfd == s.wfd && r.rfd == s.rfd
  {
    With(s, p, s.procs[p].(op := op, pc := pc))
  }

  /** The call gives up. */
  function Fail(s: State, p: nat): (r: State)
    requires p < |s.procs|
    ensures |r.procs| == |s.procs| && r.left == s.left && r.wfd == s.wfd && r.rfd == s.rfd
  {
    With(s, p, s.procs[p].(pc := Release, ret := -1))
  }

  /** wakeup1: every process asleep on the channel becomes runnable. */
  function Waked(procs: seq<Proc>, ch: Chan): (r: seq<Proc>)
    ensures |r| == |procs|
    ensures forall q :: 0 <= q < |r| ==> r[q] == WakeOne(procs[q], ch)
  {
    seq(|procs|, q requires 0 <= q < |procs| => WakeOne(procs[q], ch))
  }

  function WakeOne(q: Proc, ch: Chan): Proc {
    if q.pc == Asleep && SleepChan(q.op) == ch then q.(pc := Woken) else q
  }

  // ---- Steps ----

  /** A call begins: a read or write through an open descriptor, or the close of the last
      descriptor of an end, when no call is in progress on it. */
  ghost predicate Start(s: State, p: nat, s': State) {
    && p < |s.procs| && s.procs[p].pc == Idle
    && (|| (exists msg: seq<Byte> :: s.wfd && s' == Call(s, p, Write(msg, 0), Acquire))
        || (exists n: nat :: s.rfd && s' == Call(s, p, Read(n, []), Acquire))
        || (s.wfd && (forall q :: 0 <= q < |s.procs| ==> !s.procs[q].op.Write?)
            && s' == Call(s, p, Close(true), Acquire).(wfd := false))
        || (s.rfd && (forall q :: 0 <= q < |s.procs| ==> !s.procs[q].op.Read?)
            && s' == Call(s, p, Close(false), Acquire).(rfd := false)))
  }

  /** One step of the body, holding the pipe lock. */
  function BodyStep(s: State, p: nat): (r: State)
    requires p < |s.procs| && |s.ring.data| == PIPESIZE
    ensures |r.procs| == |s.procs| && (r.left && !s.left ==> s.procs[p].killed && s.procs[p].op.Write?)
    ensures r.wfd == s.wfd && r.rfd == s.rfd
  {
    var op := s.procs[p].op;
    match op
    case NoOp => s
    case Write(msg, i) =>
      if i >= |msg| then Goto(s, p, WakeAcq)
      else if Full(s.ring) then
        if !s.readopen || s.procs[p].killed then Fail(s, p).(left := s.left || s.readopen)
        else Goto(s, p, WakeAcq)
      else Call(s, p, Write(msg, i + 1), Body).(ring := Put(s.ring, msg[i]), w := s.w + [msg[i]])
    case Read(n, got) =>
      if Empty(s.ring) && s.writeopen then if s.procs[p].killed then Fail(s, p) else Goto(s, p, SleepAcq)
      else Goto(s, p, Copy)
    case Close(writable) =>
      if writable then Goto(s, p, WakeAcq).(writeopen := false) else Goto(s, p, WakeAcq).(readopen := false)
  }

  /** One round of piperead's copy loop. */
  function CopyStep(s: State, p: nat): (r: State)
    requires p < |s.procs| && |s.ring.data| == PIPESIZE && s.procs[p].op.Read?
    ensures |r.procs| == |s.procs| && r.left == s.left && r.wfd == s.wfd && r.rfd == s.rfd
  {
    var Read(n, got) := s.procs[p].op;
    if |got| < n && !Empty(s.ring) then
      Call(s, p, Read(n, got + [Got(s.ring)]), Copy).(ring := Get(s.ring), d := s.d + [Got(s.ring)])
    else Goto(s, p, WakeAcq)
  }

  /** After wakeup: a writer that found the pipe full goes to sleep, the others are done. */
  function AfterWake(op: Op): Pc { if op.Write? && op.i < |op.msg| then SleepAcq else Release }

  function Result(op: Op): int {
    match op
    case Write(msg, _) => |msg|
    case Read(_, got) => |got|
    case _ => 0
  }

  /** wakeup is over: the process goes on, or its call is done. */
  function Waken(s: State, p: nat): (r: State)
    requires p < |s.procs|
    ensures |r.procs| == |s.procs| && r.left == s.left && r.wfd == s.wfd && r.rfd == s.rfd
  {
    var q := s.procs[p];
    With(s, p, if AfterWake(q.op) == Release then q.(pc := Release, ret := Result(q.op)) else q.(pc := SleepAcq))
  }

  ghost predicate Step(s: State, p: nat, s': State) {
    && p < |s.procs|
    && match s.procs[p].pc
       case Idle => Start(s, p, s')
       case Acquire => s.plock == None && s' == Goto(s, p, Body).(plock := Some(p))
       case Body => |s.ring.data| == PIPESIZE && s' == BodyStep(s, p)
       case Copy => |s.ring.data| == PIPESIZE && s.procs[p].op.Read? && s' == CopyStep(s, p)
       case Release => s' == Call(s, p, NoOp, Idle).(plock := None)
       case WakeAcq => s.tlock == None && s' == Goto(s, p, WakeScan).(tlock := Some(p))
       case WakeScan => s' == Goto(s.(procs := Waked(s.procs, WakeChan(s.procs[p].op))), p, WakeRel)
       case WakeRel => s' == Waken(s, p).(tlock := None)
       case SleepAcq => s.tlock == None && s' == Goto(s, p, SleepRel).(tlock := Some(p))
       case SleepRel => s' == Goto(s, p, SleepSet).(plock := None)
       case SleepSet => s' == Goto(s, p, SleepSched)
       case SleepSched => s' == Goto(s, p, Asleep).(tlock := None)
       case Asleep => false
       case Woken => s.tlock == None && s' == Goto(s, p, Acquire)
  }

  /** kill: the process is marked, and woken if it is asleep. */
  ghost predicate KillStep(s: State, p: nat, s': State) {
    && p < |s.procs| && s.tlock == None
    && s' == With(s, p, s.procs[p].(killed := true, pc := if s.procs[p].pc == Asleep then Woken else s.procs[p].pc))
  }

  ghost predicate Init(s: State) {
    && RingOk(s.ring, [], []) && s.w == s.d == [] && s.readopen && s.writeopen && s.rfd && s.wfd
    && !s.left && s.plock == s.tlock == None
    && forall p :: 0 <= p < |s.procs| ==> s.procs[p] == Proc(NoOp, Idle, false, 0)
  }

  ghost predicate Next(s: State, s': State) { exists p: nat :: Step(s, p, s') || KillStep(s, p, s') }

  ghost predicate IsRun(states: seq<State>) {
    && 0 < |states| && Init(states[0])
    && forall k, k' :: 0 <= k && k' == k + 1 && k' < |states| ==> Next(states[k], states[k'])
  }

  // ---- Invariant ----

  predicate HoldsPipe(pc: Pc) {
    pc == Body || pc == Copy || pc == Release || pc == WakeAcq || pc == WakeScan || pc == WakeRel || pc == SleepAcq
        || pc == SleepRel
  }

  predicate HoldsTable(pc: Pc) {
    pc == WakeScan || pc == WakeRel || pc == SleepRel || pc == SleepSet || pc == SleepSched
  }

  /** Asleep, or past the point of deciding to sleep. */
  predicate Sleepy(pc: Pc) {
    pc == SleepAcq || pc == SleepRel || pc == SleepSet || pc == SleepSched || pc == Asleep
  }

  /** The lock holder will still wake the channel before it lets the lock go. */
  predicate Pending(s: State, ch: Chan) {
    && s.plock.Some? && s.plock.value < |s.procs|
    && var Proc(op, pc, _, _) := s.procs[s.plock.value];
       && !op.NoOp? && WakeChan(op) == ch
       && (pc == WakeAcq || pc == WakeScan || (op.Write? && pc == Body) || (op.Read? && pc == Copy))
  }

  /** What a sleeper waits for has not happened, or is about to be announced; a reader can count on
      that only until a killed writer has left. */
  predicate SleepOk(s: State, op: Op) {
    if op.Read? then s.left || (Empty(s.ring) && s.writeopen) || Pending(s, NRead)
    else (Full(s.ring) && s.readopen) || Pending(s, NWrite)
  }

  predicate Shape(op: Op, pc: Pc) {
    match op
    case NoOp => pc == Idle
    case Write(msg, i) => pc != Idle && pc != Copy && i <= |msg| && (Sleepy(pc) || pc == Woken ==> i < |msg|)
    case Read(n, got) => pc != Idle
    case Close(_) => pc != Idle && pc != Copy && !Sleepy(pc) && pc != Woken
  }

  ghost predicate ProcOk(s: State, p: nat)
    requires p < |s.procs|
  {
    var Proc(op, pc, _, _) := s.procs[p];
    && Shape(op, pc) && (op.Read? ==> s.rfd) && (op.Write? ==> s.wfd)
    && (op == Close(true) ==> !s.wfd) && (op == Close(false) ==> !s.rfd)
    && (HoldsPipe(pc) <==> s.plock == Some(p)) && (HoldsTable(pc) <==> s.tlock == Some(p))
    && (op.Write? && op.i < |op.msg| && (pc == WakeAcq || pc == WakeScan || pc == WakeRel) ==>
         Full(s.ring) && s.readopen)
    && (Sleepy(pc) ==> SleepOk(s, op))
  }

  ghost predicate Inv(s: State) {
    && RingOk(s.ring, s.w, s.d) && (s.rfd ==> s.readopen) && (s.wfd ==> s.writeopen)
    && (s.plock.Some? ==> s.plock.value < |s.procs|) && (s.tlock.Some? ==> s.tlock.value < |s.procs|)
    && forall p: nat :: p < |s.procs| ==> ProcOk(s, p)
  }

  lemma RingSize(s: State)
    requires Inv(s)
    ensures |s.ring.data| == PIPESIZE && !(Full(s.ring) && Empty(s.ring))
  {
    Occupancy(s.ring, s.w, s.d);
  }

  /** A process outside any call starts one; nothing else moves. */
  lemma NewCallKeeps(s: State, p: nat, op: Op)
    requires Inv(s) && p < |s.procs| && s.procs[p].pc == Idle
             && ((op.Write? && op.i == 0 && s.wfd) || (op.Read? && s.rfd))
    ensures Inv(Call(s, p, op, Acquire))
  {
    hide RingOk, Full, Empty;
    var s' := Call(s, p, op, Acquire);
    assert ProcOk(s, p);
    forall q: nat | q < |s'.procs| ensures ProcOk(s', q) { assert ProcOk(s, q); }
  }

  lemma NewCloseKeeps(s: State, p: nat, writable: bool, s': State)
    requires Inv(s) && p < |s.procs| && s.procs[p].pc == Idle
    requires forall q :: 0 <= q < |s.procs| ==> if writable then !s.procs[q].op.Write? else !s.procs[q].op.Read?
    requires s' == if writable then Call(s, p, Close(true), Acquire).(wfd := false)
                   else Call(s, p, Close(false), Acquire).(rfd := false)
    ensures Inv(s')
  {
    hide RingOk, Full, Empty;
    assert ProcOk(s, p);
    forall q: nat | q < |s'.procs| ensures ProcOk(s', q) { assert ProcOk(s, q); }
  }

  lemma StartKeeps(s: State, p: nat, s': State)
    requires Inv(s) && Start(s, p, s')
    ensures Inv(s')
  {
    hide Inv;
    if msg: seq<Byte> :| s.wfd && s' == Call(s, p, Write(msg, 0), Acquire) {
      NewCallKeeps(s, p, Write(msg, 0));
    } else if n: nat :| s.rfd && s' == Call(s, p, Read(n, []), Acquire) {
      NewCallKeeps(s, p, Read(n, []));
    } else {
      NewCloseKeeps(s, p, s'.procs[p].op == Close(true), s');
    }
  }

  /** A writer stores a byte. */
  lemma PutKeeps(s: State, p: nat, msg: seq<Byte>, i: nat, s': State)
    requires Inv(s) && p < |s.procs| && s.procs[p].pc == Body && s.procs[p].op == Write(msg, i) && i < |msg|
    requires |s.ring.data| == PIPESIZE && !Full(s.ring)
    requires s' == Call(s, p, Write(msg, i + 1), Body).(ring := Put(s.ring, msg[i]), w := s.w + [msg[i]])
    ensures Inv(s')
  {
    assert ProcOk(s, p);
    RingSize(s);
    PutOk(s.ring, s.w, s.d, msg[i]);
    hide RingOk, Full, Empty, Put;
    forall q: nat | q < |s'.procs| ensures ProcOk(s', q) { assert ProcOk(s, q); }
  }

  /** A writer that is done, or finds the pipe full, goes on to wake the readers, or leaves. */
  lemma StopKeeps(s: State, p: nat, pc: Pc, s': State)
    requires Inv(s) && p < |s.procs| && s.procs[p].pc == Body && s.procs[p].op.Write?
    requires var op := s.procs[p].op;
             if pc == WakeAcq then (op.i == |op.msg| || (Full(s.ring) && s.readopen)) && s' == Goto(s, p, pc)
             else pc == Release && Full(s.ring) && s' == Fail(s, p).(left := s.left || s.readopen)
    ensures Inv(s')
  {
    assert ProcOk(s, p);
    RingSize(s);
    hide RingOk, Full, Empty;
    forall q: nat | q < |s'.procs| ensures ProcOk(s', q) { assert ProcOk(s, q); }
  }

  lemma WriteKeeps(s: State, p: nat, s': State)
    requires Inv(s) && p < |s.procs| && s.procs[p].pc == Body && s.procs[p].op.Write?
    requires |s.ring.data| == PIPESIZE && s' == BodyStep(s, p)
    ensures Inv(s')
  {
    hide Inv, Full, Put, Call, Goto, With;
    WriterShape(s, p);
    var Write(msg, i) := s.procs[p].op;
    if i == |msg| { StopKeeps(s, p, WakeAcq, s'); }
    else if !Full(s.ring) { PutKeeps(s, p, msg, i, s'); }
    else if !s.readopen || s.procs[p].killed { StopKeeps(s, p, Release, s'); }
    else { StopKeeps(s, p, WakeAcq, s'); }
  }

  lemma WriterShape(s: State, p: nat)
    requires Inv(s) && p < |s.procs| && s.procs[p].op.Write?
    ensures s.procs[p].op.i <= |s.procs[p].op.msg|
  {
    assert ProcOk(s, p);
  }

  lemma ReadKeeps(s: State, p: nat, s': State)
    requires Inv(s) && p < |s.procs| && s.procs[p].pc == Body && s.procs[p].op.Read?
    requires |s.ring.data| == PIPESIZE && s' == BodyStep(s, p)
    ensures Inv(s')
  {
    hide RingOk, Full, Empty;
    assert ProcOk(s, p);
    forall q: nat | q < |s'.procs| ensures ProcOk(s', q) { assert ProcOk(s, q); }
  }

  lemma CloseKeeps(s: State, p: nat, s': State)
    requires Inv(s) && p < |s.procs| && s.procs[p].pc == Body && s.procs[p].op.Close?
    requires s' == if s.procs[p].op.writable then Goto(s, p, WakeAcq).(writeopen := false)
             else Goto(s, p, WakeAcq).(readopen := false)
    ensures Inv(s')
  {
    hide RingOk, Full, Empty;
    assert ProcOk(s, p);
    forall q: nat | q < |s'.procs| ensures ProcOk(s', q) { assert ProcOk(s, q); }
  }

  lemma BodyKeeps(s: State, p: nat, s': State)
    requires Inv(s) && p < |s.procs| && s.procs[p].pc == Body && |s.ring.data| == PIPESIZE && s' == BodyStep(s, p)
    ensures Inv(s')
  {
    hide Inv, Full, Empty;
    match s.procs[p].op {
      case NoOp =>
      case Write(_, _) => WriteKeeps(s, p, s');
      case Read(_, _) => ReadKeeps(s, p, s');
      case Close(_) => CloseKeeps(s, p, s');
    }
  }

  lemma CopyKeeps(s: State, p: nat, s': State)
    requires Inv(s) && p < |s.procs| && s.procs[p].pc == Copy && |s.ring.data| == PIPESIZE && s.procs[p].op.Read?
             && s' == CopyStep(s, p)
    ensures Inv(s')
  {
    assert ProcOk(s, p);
    RingSize(s);
    if !Empty(s.ring) { GetOk(s.ring, s.w, s.d); }
    hide RingOk, Full, Empty, Get, Got;
    forall q: nat | q < |s'.procs| ensures ProcOk(s', q) { assert ProcOk(s, q); }
  }

  lemma ScanKeeps(s: State, p: nat, s': State)
    requires Inv(s) && p < |s.procs| && s.procs[p].pc == WakeScan
    requires s' == Goto(s.(procs := Waked(s.procs, WakeChan(s.procs[p].op))), p, WakeRel)
    ensures Inv(s')
  {
    hide RingOk, Full, Empty, Waked;
    assert ProcOk(s, p);
    forall q: nat | q < |s'.procs| ensures ProcOk(s', q) { assert ProcOk(s, q); }
  }

  /** The other steps move only locks and program counters. */
  lemma AcquireKeeps(s: State, p: nat, s': State)
    requires Inv(s) && p < |s.procs| && s.procs[p].pc == Acquire && s.plock == None
             && s' == Goto(s, p, Body).(plock := Some(p))
    ensures Inv(s')
  {
    hide RingOk, Full, Empty;
    assert ProcOk(s, p);
    forall q: nat | q < |s'.procs| ensures ProcOk(s', q) { assert ProcOk(s, q); }
  }

  lemma ReleaseKeeps(s: State, p: nat, s': State)
    requires Inv(s) && p < |s.procs| && s.procs[p].pc == Release && s' == Call(s, p, NoOp, Idle).(plock := None)
    ensures Inv(s')
  {
    hide RingOk, Full, Empty;
    assert ProcOk(s, p);
    forall q: nat | q < |s'.procs| ensures ProcOk(s', q) { assert ProcOk(s, q); }
  }

  lemma ResumeKeeps(s: State, p: nat, s': State)
    requires Inv(s) && p < |s.procs| && s.procs[p].pc == Woken && s' == Goto(s, p, Acquire)
    ensures Inv(s')
  {
    hide RingOk, Full, Empty;
    assert ProcOk(s, p);
    forall q: nat | q < |s'.procs| ensures ProcOk(s', q) { assert ProcOk(s, q); }
  }

  lemma WakeKeeps(s: State, p: nat, s': State)
    requires Inv(s) && Step(s, p, s') && p < |s.procs|
    requires var pc := s.procs[p].pc; pc == WakeAcq || pc == WakeRel
    ensures Inv(s')
  {
    hide RingOk, Full, Empty;
    assert ProcOk(s, p);
    forall q: nat | q < |s'.procs| ensures ProcOk(s', q) { assert ProcOk(s, q); }
  }

  lemma SleepKeeps(s: State, p: nat, s': State)
    requires Inv(s) && Step(s, p, s') && p < |s.procs|
    requires var pc := s.procs[p].pc; pc == SleepAcq || pc == SleepRel || pc == SleepSet || pc == SleepSched
    ensures Inv(s')
  {
    hide RingOk, Full, Empty;
    assert ProcOk(s, p);
    forall q: nat | q < |s'.procs| ensures ProcOk(s', q) { assert ProcOk(s, q); }
  }

  lemma StepKeeps(s: State, p: nat, s': State)
    requires Inv(s) && Step(s, p, s')
    ensures Inv(s')
  {
    hide Inv;
    match s.procs[p].pc {
      case Idle => StartKeeps(s, p, s');
      case Body => BodyKeeps(s, p, s');
      case Copy => CopyKeeps(s, p, s');
      case WakeScan => ScanKeeps(s, p, s');
      case Acquire => AcquireKeeps(s, p, s');
      case Release => ReleaseKeeps(s, p, s');
      case Woken => ResumeKeeps(s, p, s');
      case WakeAcq | WakeRel => WakeKeeps(s, p, s');
      case SleepAcq | SleepRel | SleepSet | SleepSched => SleepKeeps(s, p, s');
      case Asleep =>
    }
  }

  lemma KillKeeps(s: State, p: nat, s': State)
    requires Inv(s) && KillStep(s, p, s')
    ensures Inv(s')
  {
    hide RingOk, Full, Empty;
    assert ProcOk(s, p);
    forall q: nat | q < |s'.procs| ensures ProcOk(s', q) { assert ProcOk(s, q); }
  }

  lemma NextKeeps(s: State, s': State)
    requires Inv(s) && Next(s, s')
    ensures Inv(s')
  {
    hide Inv, Step, KillStep;
    var p: nat :| Step(s, p, s') || KillStep(s, p, s');
    if Step(s, p, s') { StepKeeps(s, p, s'); } else { KillKeeps(s, p, s'); }
  }

  lemma {:induction false} RunInv(states: seq<State>, k: nat)
    requires IsRun(states) && k < |states|
    ensures Inv(states[k])
  {
    hide RingOk;
    if k > 0 {
      RunInv(states, k - 1);
      hide Inv, Next;
      var j := k - 1;
      assert Next(states[j], states[k]);
      NextKeeps(states[j], states[k]);
    }
  }

  // ---- What runs guarantee ----

  /** A writer is never stranded: whenever the pipe lock is free, a sleeping writer means a full pipe
      with the read end open. */
  lemma NoWriterStranded(states: seq<State>, k: nat, p: nat)
    requires IsRun(states) && k < |states| && p < |states[k].procs| && states[k].plock == None
    requires Sleepy(states[k].procs[p].pc) && !states[k].procs[p].op.Read?
    ensures var s := states[k]; s.procs[p].op.Write? && |s.w| == |s.d| + PIPESIZE && s.readopen
  {
    RunInv(states, k);
    assert ProcOk(states[k], p);
    Occupancy(states[k].ring, states[k].w, states[k].d);
  }

  /** Until a killed writer has left, neither is a reader: a sleeping reader means an empty pipe with
      the write end open. */
  lemma NoReaderStranded(states: seq<State>, k: nat, p: nat)
    requires IsRun(states) && k < |states| && p < |states[k].procs| && states[k].plock == None
    requires Sleepy(states[k].procs[p].pc) && states[k].procs[p].op.Read? && !states[k].left
    ensures var s := states[k]; |s.w| == |s.d| && s.writeopen
  {
    RunInv(states, k);
    assert ProcOk(states[k], p);
    Occupancy(states[k].ring, states[k].w, states[k].d);
  }

  /** So readers and writers never sleep at the same time. */
  lemma NeverBoth(states: seq<State>, k: nat, p: nat, q: nat)
    requires IsRun(states) && k < |states| && states[k].plock == None && !states[k].left
    requires p < |states[k].procs| && Sleepy(states[k].procs[p].pc)
    requires q < |states[k].procs| && Sleepy(states[k].procs[q].pc)
    ensures states[k].procs[p].op.Read? == states[k].procs[q].op.Read?
  {
    if states[k].procs[p].op.Read? { NoReaderStranded(states, k, p); } else { NoWriterStranded(states, k, p); }
    if states[k].procs[q].op.Read? { NoReaderStranded(states, k, q); } else { NoWriterStranded(states, k, q); }
  }

  /** The bytes returned by all reads are a prefix of the bytes accepted by all writes, at most
      PIPESIZE behind, however often the counters wrap. */
  lemma Fifo(states: seq<State>, k: nat)
    requires IsRun(states) && k < |states|
    ensures states[k].d <= states[k].w && |states[k].w| - |states[k].d| <= PIPESIZE
  {
    RunInv(states, k);
  }

  // ---- When a reader can be stranded ----

  /** Only processes of `killed` are ever killed, and only processes of `writers` write. */
  ghost predicate Within(states: seq<State>, killed: set<nat>, writers: set<nat>) {
    forall k, p: nat :: 0 <= k < |states| && p < |states[k].procs| ==>
      (states[k].procs[p].killed ==> p in killed) && (states[k].procs[p].op.Write? ==> p in writers)
  }

  /** The runs of `n` processes of which only `killed` may be killed and only `writers` may write. */
  ghost predicate Among(states: seq<State>, n: nat, killed: set<nat>, writers: set<nat>) {
    IsRun(states) && |states[0].procs| == n && Within(states, killed, writers)
  }

  ghost predicate ReadersServed(s: State) {
    s.plock == None ==>
      forall p: nat :: p < |s.procs| && Sleepy(s.procs[p].pc) && s.procs[p].op.Read? ==> |s.w| == |s.d| && s.writeopen
  }

  ghost predicate AllServed(states: seq<State>) { forall k :: 0 <= k < |states| ==> ReadersServed(states[k]) }

  /** Only a killed writer sets `left`. */
  lemma LeftStep(s: State, s': State)
    requires Next(s, s')
    ensures |s'.procs| == |s.procs|
    ensures s'.left && !s.left ==> exists p: nat :: p < |s.procs| && s.procs[p].killed && s.procs[p].op.Write?
  {
    hide BodyStep, CopyStep, Full, Empty, Put, Get, Got, Waked;
    var p: nat :| Step(s, p, s') || KillStep(s, p, s');
    if Step(s, p, s') { LeftBy(s, p, s'); }
  }

  lemma LeftBy(s: State, p: nat, s': State)
    requires Step(s, p, s')
    ensures |s'.procs| == |s.procs| && (s'.left && !s.left ==> s.procs[p].killed && s.procs[p].op.Write?)
  {
    hide BodyStep, CopyStep, Waked, Start, Call, Goto, With;
    if s.procs[p].pc == Idle { StartSame(s, p, s'); }
  }

  lemma StartSame(s: State, p: nat, s': State)
    requires Start(s, p, s')
    ensures |s'.procs| == |s.procs| && s'.left == s.left
  {}

  lemma {:induction false} NoneLeft(states: seq<State>, killed: set<nat>, writers: set<nat>, k: nat)
    requires IsRun(states) && Within(states, killed, writers) && k < |states|
    requires forall p: nat :: p in killed && p in writers ==> p >= |states[0].procs|
    ensures !states[k].left && |states[k].procs| == |states[0].procs|
  {
    hide Next;
    if k > 0 {
      var j := k - 1;
      NoneLeft(states, killed, writers, j);
      assert Next(states[j], states[k]);
      forall p: nat | p < |states[j].procs| ensures !(states[j].procs[p].killed && states[j].procs[p].op.Write?) {
        var q := states[j].procs[p];
        assert (q.killed ==> p in killed) && (q.op.Write? ==> p in writers);
      }
      LeftStep(states[j], states[k]);
    }
  }

  /** Runs in which no process but `w` writes or is killed. */
  ghost predicate OnlyOne(states: seq<State>, w: nat): (r: bool)
    ensures r ==> 0 < |states|
  {
    IsRun(states) && forall k :: 0 <= k < |states| ==> Lonely(states[k], w)
  }

  ghost predicate Lonely(s: State, w: nat) {
    forall p: nat :: p < |s.procs| && p != w ==> !s.procs[p].killed && !s.procs[p].op.Write?
  }

  function Last(states: seq<State>): State
    requires 0 < |states|
  {
    states[|states| - 1]
  }

  /** The run so far, with one more state. */
  lemma Extend(states: seq<State>, w: nat, p: nat, s': State) returns (states': seq<State>)
    requires OnlyOne(states, w) && Lonely(s', w) && (Step(Last(states), p, s') || KillStep(Last(states), p, s'))
    ensures OnlyOne(states', w) && Last(states') == s' && states'[0] == states[0]
  {
    hide Init, Step, KillStep, Lonely;
    states' := states + [s'];
    assert Next(Last(states), s');
    forall k, k' | 0 <= k && k' == k + 1 && k' < |states'| ensures Next(states'[k], states'[k']) {
      if k' < |states| { assert Next(states[k], states[k']); }
    }
  }

  function Start0(n: nat): State {
    State(Ring(seq(PIPESIZE, _ => 0), 0, 0), [], [], true, true, true, true, false, None, None,
          seq(n, _ => Proc(NoOp, Idle, false, 0)))
  }

  /** The pipe empty, `r` reading, at `pc`, with these locks. */
  function Reading(n: nat, r: nat, pc: Pc, plock: Option<nat>, tlock: Option<nat>): State
    requires r < n
  {
    With(Start0(n), r, Proc(Read(1, []), pc, false, 0)).(plock := plock, tlock := tlock)
  }

  lemma ReaderSleeps(n: nat, r: nat, w: nat) returns (states: seq<State>)
    requires r < n && w != r
    ensures OnlyOne(states, w) && |states[0].procs| == n && Last(states) == Reading(n, r, Asleep, None, None)
  {
    states := ReaderWaits(n, r, w);
    hide OnlyOne;
    states := Extend(states, w, r, Reading(n, r, SleepRel, Some(r), Some(r)));
    states := Extend(states, w, r, Reading(n, r, SleepSet, None, Some(r)));
    states := Extend(states, w, r, Reading(n, r, SleepSched, None, Some(r)));
    states := Extend(states, w, r, Reading(n, r, Asleep, None, None));
  }

  lemma ReaderWaits(n: nat, r: nat, w: nat) returns (states: seq<State>)
    requires r < n && w != r
    ensures OnlyOne(states, w) && |states[0].procs| == n && Last(states) == Reading(n, r, SleepAcq, Some(r), None)
  {
    states := [Start0(n)];
    assert Start(Start0(n), r, Reading(n, r, Acquire, None, None)) by {
      assert Call(Start0(n), r, Read(1, []), Acquire) == Reading(n, r, Acquire, None, None);
    }
    hide IsRun, Start;
    states := Extend(states, w, r, Reading(n, r, Acquire, None, None));
    states := Extend(states, w, r, Reading(n, r, Body, Some(r), None));
    states := Extend(states, w, r, Reading(n, r, SleepAcq, Some(r), None));
  }

  /** `r` asleep, and `w` killed while it writes `msg`, `m` bytes of which are in the pipe. */
  ghost predicate Filling(s: State, n: nat, r: nat, w: nat, msg: seq<Byte>, m: nat) {
    && |s.procs| == n && r < n && w < n && r != w && s.procs[r] == Proc(Read(1, []), Asleep, false, 0)
    && s.procs[w] == Proc(Write(msg, m), Body, true, 0) && Lonely(s, w) && s.plock == Some(w) && s.tlock == None
    && RingOk(s.ring, s.w, []) && s.d == [] && |s.w| == m && s.readopen && s.wfd
  }

  lemma WriterKilled(n: nat, r: nat, w: nat, msg: seq<Byte>) returns (states: seq<State>)
    requires r < n && w < n && w != r
    ensures OnlyOne(states, w) && |states[0].procs| == n && Filling(Last(states), n, r, w, msg, 0)
  {
    states := ReaderSleeps(n, r, w);
    var s := Last(states);
    var t := Call(s, w, Write(msg, 0), Acquire);
    assert Start(s, w, t);
    hide OnlyOne, Start;
    states := Extend(states, w, w, t);
    t := Goto(t, w, Body).(plock := Some(w));
    states := Extend(states, w, w, t);
    t := With(t, w, t.procs[w].(killed := true));
    states := Extend(states, w, w, t);
  }

  lemma FillOne(states: seq<State>, n: nat, r: nat, w: nat, msg: seq<Byte>, m: nat) returns (states': seq<State>)
    requires OnlyOne(states, w) && Filling(Last(states), n, r, w, msg, m) && m < PIPESIZE < |msg|
    ensures OnlyOne(states', w) && states'[0] == states[0] && Filling(Last(states'), n, r, w, msg, m + 1)
  {
    hide OnlyOne;
    var s := Last(states);
    Occupancy(s.ring, s.w, s.d);
    PutOk(s.ring, s.w, s.d, msg[m]);
    hide Put, Full, RingOk;
    states' := Extend(states, w, w, BodyStep(s, w));
  }

  /** A reader asleep beside a full pipe: the writer that filled it was killed, found it full and left
      without waking anyone.  The reader stays there until another call on the pipe wakes it, such as
      pipeclose of the write end. */
  lemma KilledWriterStrands(n: nat, r: nat, w: nat) returns (states: seq<State>)
    requires r < n && w < n && w != r
    ensures OnlyOne(states, w) && |states[0].procs| == n && !ReadersServed(Last(states))
    ensures |Last(states).w| == |Last(states).d| + PIPESIZE
  {
    var msg: seq<Byte> := seq(PIPESIZE + 1, _ => 0);
    states := WriterKilled(n, r, w, msg);
    hide OnlyOne, Filling;
    for m := 0 to PIPESIZE
      invariant OnlyOne(states, w) && |states[0].procs| == n && Filling(Last(states), n, r, w, msg, m)
    {
      states := FillOne(states, n, r, w, msg, m);
    }
    states := Leave(states, n, r, w, msg);
  }

  lemma Leave(states: seq<State>, n: nat, r: nat, w: nat, msg: seq<Byte>) returns (states': seq<State>)
    requires OnlyOne(states, w) && Filling(Last(states), n, r, w, msg, PIPESIZE) && PIPESIZE < |msg|
    ensures OnlyOne(states', w) && states'[0] == states[0] && !ReadersServed(Last(states'))
    ensures |Last(states').w| == |Last(states').d| + PIPESIZE
  {
    hide OnlyOne;
    var s := Last(states);
    Occupancy(s.ring, s.w, s.d);
    hide RingOk, Full;
    states' := Extend(states, w, w, BodyStep(s, w));
    var t := Call(Last(states'), w, NoOp, Idle).(plock := None);
    states' := Extend(states', w, w, t);
    assert Sleepy(t.procs[r].pc) && t.procs[r].op.Read?;
  }

  /** No run strands a reader exactly when no process that writes can be killed. */
  lemma ServedExactly(n: nat, killed: set<nat>, writers: set<nat>)
    requires 2 <= n
    ensures (forall states: seq<State> :: Among(states, n, killed, writers) ==> AllServed(states))
            <==> (forall p: nat :: p in killed && p in writers ==> p >= n)
  {
    hide IsRun, Within, ReadersServed, OnlyOne;
    if w: nat :| w in killed && w in writers && w < n {
      var r := if w == 0 then 1 else 0;
      var states := KilledWriterStrands(n, r, w);
      OneWithin(states, w, killed, writers);
      assert Among(states, n, killed, writers) && !ReadersServed(states[|states| - 1]);
      assert !AllServed(states);
    } else {
      forall states: seq<State> | Among(states, n, killed, writers) ensures AllServed(states) {
        forall k | 0 <= k < |states| ensures ReadersServed(states[k]) { Served(states, killed, writers, k); }
      }
    }
  }

  lemma Served(states: seq<State>, killed: set<nat>, writers: set<nat>, k: nat)
    requires IsRun(states) && Within(states, killed, writers) && k < |states|
    requires forall p: nat :: p in killed && p in writers ==> p >= |states[0].procs|
    ensures ReadersServed(states[k])
  {
    hide IsRun, Within;
    NoneLeft(states, killed, writers, k);
    var s := states[k];
    if s.plock == None {
      forall p: nat | p < |s.procs| && Sleepy(s.procs[p].pc) && s.procs[p].op.Read?
        ensures |s.w| == |s.d| && s.writeopen
      {
        NoReaderStranded(states, k, p);
      }
    }
  }

  lemma OneWithin(states: seq<State>, w: nat, killed: set<nat>, writers: set<nat>)
    requires OnlyOne(states, w) && w in killed && w in writers
    ensures IsRun(states) && Within(states, killed, writers)
  {
    hide IsRun;
    forall k, p: nat | 0 <= k < |states| && p < |states[k].procs|
      ensures (states[k].procs[p].killed ==> p in killed) && (states[k].procs[p].op.Write? ==> p in writers)
    {
      assert Lonely(states[k], w);
    }
  }
}
