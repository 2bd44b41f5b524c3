/** Runs of any number of processes forking, exiting, waiting, sleeping, waking and killing each
    other.  A step is one critical section of ptable.lock, so the states of a run are those in
    which the lock is free. */
module ProcProtocol {
  import opened Options
  import opened ProcTable

  /** `log` are the process numbers wait has returned so far, `to` the numbers of its callers; `forks`
      gives each process number fork has returned the number of the caller, and `exits` are the
      numbers of the processes that have exited. */
  datatype State = State(ps: seq<Proc>, nextpid: nat, init: nat, log: seq<nat>, to: seq<nat>, forks: map<nat, nat>,
                         exits: set<nat>)

  // ---- Steps ----

  ghost predicate RunningAt(s: State, c: nat) { c < |s.ps| && s.ps[c].state == Running }

  ghost predicate ForkStep(s: State, s': State) {
    exists c: nat, r: Option<nat>, used: bool :: RunningAt(s, c) && ForkOk(s.ps, c, s.nextpid, r, used, s'.ps)
      && s' == s.(ps := s'.ps, nextpid := s.nextpid + (if used then 1 else 0),
                  forks := if r.Some? then s.forks[r.value := s.ps[c].pid] else s.forks)
  }

  ghost predicate ExitStep(s: State, s': State) {
    exists c: nat :: RunningAt(s, c) && c != s.init && ExitOk(s.ps, c, s.init, s'.ps)
      && s' == s.(ps := s'.ps, exits := s.exits + {s.ps[c].pid})
  }

  ghost predicate WaitStep(s: State, s': State) {
    exists c: nat, r: WaitResult :: RunningAt(s, c) && WaitOk(s.ps, c, r, s'.ps)
      && s' == if r.Found? then s.(ps := s'.ps, log := s.log + [r.pid], to := s.to + [s.ps[c].pid])
               else s.(ps := s'.ps)
  }

  ghost predicate KillStep(s: State, s': State) {
    exists pid: nat, found: bool :: KillOk(s.ps, pid, found, s'.ps) && s' == s.(ps := s'.ps)
  }

  /** sleep and wakeup anywhere else in the kernel, and the scheduler. */
  ghost predicate OtherStep(s: State, s': State) {
    || (exists c: nat, n: nat ::
         RunningAt(s, c) && s' == s.(ps := s.ps[c := s.ps[c].(state := Sleeping, chan := Other(n))]))
    || (exists n: nat :: s' == s.(ps := WokenAll(s.ps, Other(n))))
    || (exists c: nat :: RunningAt(s, c) && s' == s.(ps := s.ps[c := s.ps[c].(state := Runnable)]))
    || (exists c: nat ::
         c < |s.ps| && s.ps[c].state == Runnable
             && s' == s.(ps := s.ps[c := s.ps[c].(state := Running, chan := NoChan)]))
  }

  ghost predicate Next(s: State, s': State) {
    ForkStep(s, s') || ExitStep(s, s') || WaitStep(s, s') || KillStep(s, s') || OtherStep(s, s')
  }

  /** After userinit: only init, with number 1. */
  ghost predicate Init(s: State) {
    && s.init < |s.ps| && s.nextpid == 2 && s.log == s.to == [] && s.forks == map[] && s.exits == {}
    && s.ps[s.init] == Proc(Runnable, 1, None, NoChan, false)
    && forall i :: 0 <= i < |s.ps| && i != s.init ==> s.ps[i] == Proc(Unused, 0, None, NoChan, false)
  }

  ghost predicate IsRun(states: seq<State>) {
    && 0 < |states| && Init(states[0])
    && forall k, k' :: 0 <= k && k' == k + 1 && k' < |states| ==> Next(states[k], states[k'])
  }

  // ---- Invariant ----

  /** A process in use has a live parent, init excepted; an unused entry has none. */
  ghost predicate ParentOk(s: State, i: nat)
    requires i < |s.ps|
  {
    var p := s.ps[i];
    if p.state == Unused || i == s.init then p.parent == None
    else p.parent.Some? && p.parent.value < |s.ps| && p.parent.value != i && Alive(s.ps[p.parent.value])
  }

  /** A process asleep in wait sleeps on itself, is not killed and has a child, none of them a zombie. */
  ghost predicate WaiterOk(s: State, i: nat)
    requires i < |s.ps|
  {
    s.ps[i].state == Sleeping && s.ps[i].chan.OfProc? ==>
      && s.ps[i].chan == OfProc(i) && !s.ps[i].killed && !HasZombie(s.ps, i)
      && exists j :: 0 <= j < |s.ps| && Child(s.ps[j], i)
  }

  ghost predicate PidOk(s: State, i: nat)
    requires i < |s.ps|
  {
    && s.ps[i].state != Embryo && s.ps[i].pid < s.nextpid && (s.ps[i].state != Unused ==> s.ps[i].pid > 0)
    && (s.ps[i].pid > 0 ==> s.ps[i].pid !in s.log)
  }

  ghost predicate Pids(s: State) {
    && (forall i, j :: 0 <= i < |s.ps| && 0 <= j < |s.ps| && s.ps[i].pid == s.ps[j].pid > 0 ==> i == j)
    && (forall i, j :: 0 <= i < |s.log| && 0 <= j < |s.log| && s.log[i] == s.log[j] ==> i == j)
    && (forall n :: n in s.log ==> n < s.nextpid)
  }

  ghost predicate Inv(s: State) {
    && s.init < |s.ps| && s.nextpid > 0 && Alive(s.ps[s.init]) && Pids(s)
    && forall i: nat :: i < |s.ps| ==> ParentOk(s, i) && WaiterOk(s, i) && PidOk(s, i)
  }

  // ---- Every step keeps it ----

  lemma ForkKeeps(s: State, s': State)
    requires Inv(s) && ForkStep(s, s')
    ensures Inv(s')
  {
    var c: nat, r: Option<nat>, used: bool :| RunningAt(s, c) && ForkOk(s.ps, c, s.nextpid, r, used, s'.ps)
      && s' == s.(ps := s'.ps, nextpid := s.nextpid + (if used then 1 else 0),
                  forks := if r.Some? then s.forks[r.value := s.ps[c].pid] else s.forks);
    if used {
      var k :| 0 <= k < |s.ps| && s.ps[k].state == Unused && (forall i :: 0 <= i < k ==> s.ps[i].state != Unused)
        && (match r
            case Some(n) => n == s.nextpid && s'.ps
                == s.ps[k := Proc(Runnable, s.nextpid, Some(c), s.ps[k].chan, s.ps[k].killed)]
            case None => s'.ps == s.ps[k := s.ps[k].(pid := s.nextpid)]);
      Forked(s, c, k, s'.ps[k], s');
    } else {
      assert s' == s;
    }
  }

  /** A waiter whose children are as before, or fewer of them zombies, may sleep on. */
  lemma WaiterKept(s: State, s': State, i: nat)
    requires i < |s.ps| == |s'.ps| && WaiterOk(s, i)
    requires s'.ps[i].state == Sleeping && s'.ps[i].chan.OfProc? ==>
             s.ps[i].state == Sleeping && s.ps[i].chan == s'.ps[i].chan && s.ps[i].killed == s'.ps[i].killed
    requires forall j :: 0 <= j < |s.ps| && Child(s.ps[j], i) && s.ps[j].state != Zombie ==> Child(s'.ps[j], i)
    requires forall j :: 0 <= j < |s.ps| && ZombieChild(s'.ps[j], i) ==> ZombieChild(s.ps[j], i)
    ensures WaiterOk(s', i)
  {
    if s'.ps[i].state == Sleeping && s'.ps[i].chan.OfProc? {
      var j :| 0 <= j < |s.ps| && Child(s.ps[j], i);
      assert !ZombieChild(s.ps[j], i);
      assert Child(s'.ps[j], i);
    }
  }

  lemma Forked(s: State, c: nat, k: nat, p: Proc, s': State)
    requires Inv(s) && RunningAt(s, c) && k < |s.ps| && s.ps[k].state == Unused && p.pid == s.nextpid
    requires (p.state == Runnable && p.parent == Some(c)) || (p.state == Unused && p.parent == s.ps[k].parent)
    requires s' == s.(ps := s.ps[k := p], nextpid := s.nextpid + 1, forks := s'.forks)
    ensures Inv(s')
  {
    hide Pids, HasZombie;
    assert ParentOk(s, k);
    NewPid(s, k, p, s');
    forall i: nat | i < |s'.ps| ensures ParentOk(s', i) && WaiterOk(s', i) && PidOk(s', i) {
      assert ParentOk(s, i) && WaiterOk(s, i) && PidOk(s, i);
      WaiterKept(s, s', i);
    }
  }

  lemma NewPid(s: State, k: nat, p: Proc, s': State)
    requires Inv(s) && k < |s.ps| && p.pid == s.nextpid
    requires s' == s.(ps := s.ps[k := p], nextpid := s.nextpid + 1, forks := s'.forks)
    ensures Pids(s') && s.nextpid !in s.log
  {
    hide ParentOk, WaiterOk;
    forall i: nat | i < |s.ps| ensures s.ps[i].pid < s.nextpid { assert PidOk(s, i); }
  }

  lemma KillKeeps(s: State, s': State)
    requires Inv(s) && KillStep(s, s')
    ensures Inv(s')
  {
    hide Inv, Mild;
    KillMild(s, s');
    SameFamily(s, s');
  }

  lemma KillMild(s: State, s': State)
    requires KillStep(s, s')
    ensures Mild(s, s')
  {
    var pid: nat, found: bool :| KillOk(s.ps, pid, found, s'.ps) && s' == s.(ps := s'.ps);
    if found {
      var k :| 0 <= k < |s.ps| && s.ps[k].pid == pid && (forall i :: 0 <= i < k ==> s.ps[i].pid != pid)
          && s'.ps == s.ps[k := Killed(s.ps[k])];
    }
  }

  /** A step that only moves states among the living, and puts no one to sleep in wait. */
  ghost predicate Mild(s: State, s': State) {
    && s' == s.(ps := s'.ps) && |s'.ps| == |s.ps|
    && forall i: nat :: i < |s.ps| ==>
         && s'.ps[i].pid == s.ps[i].pid && s'.ps[i].parent == s.ps[i].parent
         && (s'.ps[i].state == s.ps[i].state || (Alive(s.ps[i]) && Alive(s'.ps[i]) && s'.ps[i].state != Embryo))
         && (s'.ps[i].state == Sleeping && s'.ps[i].chan.OfProc? ==>
              s.ps[i].state == Sleeping && s.ps[i].chan == s'.ps[i].chan && s.ps[i].killed == s'.ps[i].killed)
  }

  lemma SameFamily(s: State, s': State)
    requires Inv(s) && Mild(s, s')
    ensures Inv(s')
  {
    forall i: nat | i < |s'.ps| ensures ParentOk(s', i) && WaiterOk(s', i) && PidOk(s', i) {
      assert ParentOk(s, i) && WaiterOk(s, i) && PidOk(s, i);
      WaiterKept(s, s', i);
    }
  }

  lemma OtherKeeps(s: State, s': State)
    requires Inv(s) && OtherStep(s, s')
    ensures Inv(s')
  {
    hide Inv, Mild;
    OtherMild(s, s');
    SameFamily(s, s');
  }

  lemma OtherMild(s: State, s': State)
    requires OtherStep(s, s')
    ensures Mild(s, s')
  {}

  /** What exit of `c` does to entry `i`. */
  lemma ExitEntry(ps: seq<Proc>, c: nat, init: nat, ps': seq<Proc>, i: nat)
    requires ExitOk(ps, c, init, ps') && i < |ps|
    ensures ps'[i].pid == ps[i].pid && ps'[i].chan == ps[i].chan && ps'[i].killed == ps[i].killed
    ensures ps'[i].parent == if Child(ps[i], c) then Some(init) else ps[i].parent
    ensures ps'[i].state == if i == c then Zombie
                            else if ps[i].state == Sleeping
                                && (ps[i].chan == ParentChan(ps[c])
                                   || (HasZombie(ps, c) && ps[i].chan == OfProc(init))) then Runnable
                            else ps[i].state
  {}

  lemma ExitKeeps(s: State, s': State)
    requires Inv(s) && ExitStep(s, s')
    ensures Inv(s')
  {
    var c: nat :| RunningAt(s, c) && c != s.init && ExitOk(s.ps, c, s.init, s'.ps)
      && s' == s.(ps := s'.ps, exits := s.exits + {s.ps[c].pid});
    ExitSizes(s.ps, c, s.init, s'.ps);
    hide ExitOk;
    ExitEntry(s.ps, c, s.init, s'.ps, s.init);
    assert Pids(s') by { forall i: nat | i < |s.ps|
      ensures s'.ps[i].pid == s.ps[i].pid { ExitEntry(s.ps, c, s.init, s'.ps, i); } }
    hide ParentOk, WaiterOk, PidOk, Pids;
    forall i: nat | i < |s'.ps| ensures ParentOk(s', i) && WaiterOk(s', i) && PidOk(s', i) {
      ExitParent(s, s', c, i);
      ExitWaiter(s, s', c, i);
    }
  }

  lemma ExitParent(s: State, s': State, c: nat, i: nat)
    requires Inv(s) && RunningAt(s, c) && c != s.init && ExitOk(s.ps, c, s.init, s'.ps)
    requires s' == s.(ps := s'.ps, exits := s'.exits) && i < |s.ps| == |s'.ps|
    ensures ParentOk(s', i) && PidOk(s', i)
  {
    hide ExitOk, Pids, WaiterOk;
    assert ParentOk(s, i) && PidOk(s, i);
    ExitEntry(s.ps, c, s.init, s'.ps, i);
    ExitEntry(s.ps, c, s.init, s'.ps, s.init);
    if s.ps[i].parent.Some? { ExitEntry(s.ps, c, s.init, s'.ps, s.ps[i].parent.value); }
  }

  /** Whoever is still asleep in wait after an exit has gained no zombie and lost no child. */
  lemma ExitWaiter(s: State, s': State, c: nat, i: nat)
    requires Inv(s) && RunningAt(s, c) && c != s.init && ExitOk(s.ps, c, s.init, s'.ps) && i < |s.ps|
    requires s'.init == s.init && |s'.ps| == |s.ps|
    ensures WaiterOk(s', i)
  {
    hide ExitOk, Pids;
    assert WaiterOk(s, i) && ParentOk(s, c);
    ExitEntry(s.ps, c, s.init, s'.ps, i);
    if !(s'.ps[i].state == Sleeping && s'.ps[i].chan.OfProc?) { return; }
    var j :| 0 <= j < |s.ps| && Child(s.ps[j], i);
    ExitEntry(s.ps, c, s.init, s'.ps, j);
    assert Child(s'.ps[j], i);
    forall j: nat | j < |s.ps| ensures !ZombieChild(s'.ps[j], i) {
      ExitEntry(s.ps, c, s.init, s'.ps, j);
      assert !ZombieChild(s.ps[j], i);
      assert ZombieChild(s.ps[j], c) ==> HasZombie(s.ps, c);
    }
  }

  lemma ExitSizes(ps: seq<Proc>, c: nat, init: nat, ps': seq<Proc>)
    requires ExitOk(ps, c, init, ps')
    ensures |ps'| == |ps|
  {}

  lemma WaitKeeps(s: State, s': State)
    requires Inv(s) && WaitStep(s, s')
    ensures Inv(s')
  {
    var c: nat, r: WaitResult :| RunningAt(s, c) && WaitOk(s.ps, c, r, s'.ps)
      && s' == if r.Found? then s.(ps := s'.ps, log := s.log + [r.pid], to := s.to + [s.ps[c].pid])
               else s.(ps := s'.ps);
    match r {
      case NoChildren =>
      case MustSleep => SleepKeeps(s, c, s');
      case Found(k, pid) => ReapKeeps(s, c, k, s');
    }
  }

  lemma SleepKeeps(s: State, c: nat, s': State)
    requires Inv(s) && RunningAt(s, c) && WaitOk(s.ps, c, MustSleep, s'.ps) && s' == s.(ps := s'.ps)
    ensures Inv(s')
  {
    hide HasZombie;
    forall i: nat | i < |s'.ps| ensures ParentOk(s', i) && WaiterOk(s', i) && PidOk(s', i) {
      assert ParentOk(s, i) && WaiterOk(s, i) && PidOk(s, i);
      if i != c { WaiterKept(s, s', i); } else { NewWaiter(s, c, s'); }
    }
  }

  lemma NewWaiter(s: State, c: nat, s': State)
    requires c < |s.ps| && WaitOk(s.ps, c, MustSleep, s'.ps) && s.ps[c].state == Running
    ensures WaiterOk(s', c)
  {
    var j :| 0 <= j < |s.ps| && Child(s.ps[j], c);
    assert Child(s'.ps[j], c);
    forall j | 0 <= j < |s.ps| ensures !ZombieChild(s'.ps[j], c) { assert !ZombieChild(s.ps[j], c); }
  }

  lemma ReapKeeps(s: State, c: nat, k: nat, s': State)
    requires Inv(s) && RunningAt(s, c) && k < |s.ps| && ZombieChild(s.ps[k], c)
    requires s' == s.(ps := s.ps[k := Reaped(s.ps[k])], log := s.log + [s.ps[k].pid], to := s'.to)
    ensures Inv(s')
  {
    assert PidOk(s, k);
    assert k != s.init;
    forall i: nat | i < |s'.ps| ensures ParentOk(s', i) && WaiterOk(s', i) && PidOk(s', i) {
      assert ParentOk(s, i) && WaiterOk(s, i) && PidOk(s, i);
      WaiterKept(s, s', i);
    }
  }

  lemma InitInv(s: State)
    requires Init(s)
    ensures Inv(s)
  {
    forall i: nat | i < |s.ps| ensures ParentOk(s, i) && WaiterOk(s, i) && PidOk(s, i) {}
  }

  lemma NextKeeps(s: State, s': State)
    requires Inv(s) && Next(s, s')
    ensures Inv(s')
  {
    hide Inv, ForkStep, ExitStep, WaitStep, KillStep, OtherStep;
    if ForkStep(s, s') { ForkKeeps(s, s'); }
    else if ExitStep(s, s') { ExitKeeps(s, s'); }
    else if WaitStep(s, s') { WaitKeeps(s, s'); }
    else if KillStep(s, s') { KillKeeps(s, s'); }
    else { OtherKeeps(s, s'); }
  }

  lemma {:induction false} RunInv(states: seq<State>, k: nat)
    requires IsRun(states) && k < |states|
    ensures Inv(states[k])
  {
    hide Inv, Next, Init;
    if k == 0 {
      InitInv(states[0]);
    } else {
      var j := k - 1;
      RunInv(states, j);
      assert Next(states[j], states[k]);
      NextKeeps(states[j], states[k]);
    }
  }

  // ---- Whose child is whose ----

  /** A process numbered `n`, other than init, is in use. */
  ghost predicate InUse(s: State, n: nat) {
    exists i: nat :: i < |s.ps| && i != s.init && s.ps[i].state != Unused && s.ps[i].pid == n
  }

  /** A process belongs to the one that forked it, or to init when that one has exited; and it is a
      zombie exactly when it has exited. */
  ghost predicate Raised(s: State, i: nat)
    requires i < |s.ps|
  {
    var p := s.ps[i];
    p.state != Unused && i != s.init ==>
      && (p.state == Zombie <==> p.pid in s.exits)
      && p.pid in s.forks && p.parent.Some? && p.parent.value < |s.ps|
      && (s.ps[p.parent.value].pid == s.forks[p.pid] || (p.parent.value == s.init && s.forks[p.pid] in s.exits))
  }

  /** wait returned the number of a process that had exited to the process that had forked it, or to
      init when that one had exited too. */
  ghost predicate Returned(s: State, j: nat)
    requires j < |s.log| == |s.to|
  {
    && s.log[j] in s.forks && s.log[j] in s.exits
    && (s.to[j] == s.forks[s.log[j]] || (s.to[j] == 1 && s.forks[s.log[j]] in s.exits))
  }

  ghost predicate Family(s: State) {
    && s.init < |s.ps| && s.ps[s.init].pid == 1 && |s.to| == |s.log|
    && (forall n: nat :: n in s.exits ==> 1 < n < s.nextpid)
    && (forall n: nat :: n in s.forks <==> n in s.log || InUse(s, n))
    && (forall i: nat :: i < |s.ps| ==> Raised(s, i))
    && forall j: nat :: j < |s.log| ==> Returned(s, j)
  }

  lemma MildFamily(s: State, s': State)
    requires Inv(s) && Family(s) && Mild(s, s')
    ensures Family(s')
  {
    forall n: nat ensures InUse(s', n) <==> InUse(s, n) {
      if i: nat :| i < |s.ps| && i != s.init && s.ps[i].state != Unused && s.ps[i].pid == n {
        assert s'.ps[i].state != Unused;
      }
      if i: nat :| i < |s.ps| && i != s.init && s'.ps[i].state != Unused && s'.ps[i].pid == n {
        assert s.ps[i].state != Unused;
      }
    }
    hide InUse, Inv;
    forall i: nat | i < |s'.ps| ensures Raised(s', i) { assert Raised(s, i); }
    forall j: nat | j < |s'.log| ensures Returned(s', j) { assert Returned(s, j); }
  }

  lemma ForkFamily(s: State, s': State)
    requires Inv(s) && Family(s) && ForkStep(s, s')
    ensures Family(s')
  {
    var c: nat, r: Option<nat>, used: bool :| RunningAt(s, c) && ForkOk(s.ps, c, s.nextpid, r, used, s'.ps)
      && s' == s.(ps := s'.ps, nextpid := s.nextpid + (if used then 1 else 0),
                  forks := if r.Some? then s.forks[r.value := s.ps[c].pid] else s.forks);
    if !used { assert s' == s; return; }
    var k: nat :| k < |s.ps| && s.ps[k].state == Unused && (forall i :: 0 <= i < k ==> s.ps[i].state != Unused)
      && (match r
          case Some(n) => n == s.nextpid && s'.ps
              == s.ps[k := Proc(Runnable, s.nextpid, Some(c), s.ps[k].chan, s.ps[k].killed)]
          case None => s'.ps == s.ps[k := s.ps[k].(pid := s.nextpid)]);
    assert k != s.init;
    NewNumber(s);
    ForkUses(s, s', k);
    hide InUse, Inv, ForkOk;
    forall i: nat | i < |s'.ps| ensures Raised(s', i) { hide Family; ForkRaised(s, s', c, k, i); }
    forall j: nat | j < |s'.log| ensures Returned(s', j) { assert Returned(s, j); }
  }

  lemma ForkRaised(s: State, s': State, c: nat, k: nat, i: nat)
    requires Inv(s) && Family(s) && RunningAt(s, c) && k < |s.ps| && k != s.init && s.ps[k].state == Unused
    requires s'.init == s.init && s'.exits == s.exits && i < |s'.ps|
    requires || (s'.ps == s.ps[k := Proc(Runnable, s.nextpid, Some(c), s.ps[k].chan, s.ps[k].killed)]
                 && s'.forks == s.forks[s.nextpid := s.ps[c].pid])
             || (s'.ps == s.ps[k := s.ps[k].(pid := s.nextpid)] && s'.forks == s.forks)
    ensures Raised(s', i)
  {
    NewNumber(s);
    assert Raised(s, i);
    hide Inv, Family;
    if i != k && s.ps[i].state != Unused && i != s.init { assert s.ps[i].pid != s.nextpid; LivingParent(s, i); }
  }

  /** The next number is new. */
  lemma NewNumber(s: State)
    requires Inv(s) && Family(s)
    ensures s.nextpid !in s.forks && s.nextpid !in s.exits && s.nextpid !in s.log
    ensures forall i: nat :: i < |s.ps| ==> s.ps[i].pid < s.nextpid
  {
    forall i: nat | i < |s.ps| ensures s.ps[i].pid < s.nextpid { assert PidOk(s, i); }
  }

  lemma ForkUses(s: State, s': State, k: nat)
    requires Family(s) && k < |s.ps| && k != s.init && s.ps[k].state == Unused && s'.init == s.init
    requires |s'.ps| == |s.ps| && s'.ps == s.ps[k := s'.ps[k]] && s'.log == s.log
    requires s.nextpid !in s.forks
    requires if s'.ps[k].state == Unused then s'.forks == s.forks
             else s'.ps[k].pid == s.nextpid && s'.forks.Keys == s.forks.Keys + {s.nextpid}
    ensures forall n: nat :: n in s'.forks <==> n in s'.log || InUse(s', n)
  {
    forall n: nat ensures n in s'.forks <==> n in s'.log || InUse(s', n) {
      assert n in s.forks <==> n in s.log || InUse(s, n);
      if i: nat :| i < |s.ps| && i != s.init && s.ps[i].state != Unused && s.ps[i].pid == n {
        assert s'.ps[i] == s.ps[i];
        assert InUse(s', n);
      }
      if i: nat :| i < |s.ps| && i != s.init && s'.ps[i].state != Unused && s'.ps[i].pid == n {
        if i != k { assert s'.ps[i] == s.ps[i]; assert InUse(s, n); }
      }
      if n == s.nextpid && s'.ps[k].state != Unused { assert InUse(s', n); }
    }
  }

  lemma ExitFamily(s: State, s': State)
    requires Inv(s) && Family(s) && ExitStep(s, s')
    ensures Family(s')
  {
    var c: nat :| RunningAt(s, c) && c != s.init && ExitOk(s.ps, c, s.init, s'.ps)
      && s' == s.(ps := s'.ps, exits := s.exits + {s.ps[c].pid});
    ExitSizes(s.ps, c, s.init, s'.ps);
    hide ExitOk;
    ExitEntry(s.ps, c, s.init, s'.ps, s.init);
    OwnNumber(s, c);
    ExitUses(s, s', c);
    hide InUse, Raised;
    forall i: nat | i < |s'.ps| ensures Raised(s', i) { ExitRaised(s, s', c, i); }
    hide Inv;
    forall j: nat | j < |s'.log| ensures Returned(s', j) { assert Returned(s, j); }
  }

  lemma ExitUses(s: State, s': State, c: nat)
    requires c < |s.ps| == |s'.ps| && ExitOk(s.ps, c, s.init, s'.ps) && s'.init == s.init && s.ps[c].state != Unused
    ensures forall n: nat :: InUse(s', n) <==> InUse(s, n)
  {
    hide ExitOk;
    forall n: nat ensures InUse(s', n) <==> InUse(s, n) {
      if i: nat :| i < |s.ps| && i != s.init && s.ps[i].state != Unused && s.ps[i].pid == n {
        ExitEntry(s.ps, c, s.init, s'.ps, i);
      }
      if i: nat :| i < |s.ps| && i != s.init && s'.ps[i].state != Unused && s'.ps[i].pid == n {
        ExitEntry(s.ps, c, s.init, s'.ps, i);
      }
    }
  }

  /** The children of the process that exits go to init, and it is itself a zombie from now on. */
  lemma ExitRaised(s: State, s': State, c: nat, i: nat)
    requires Inv(s) && Family(s) && RunningAt(s, c) && c != s.init && ExitOk(s.ps, c, s.init, s'.ps)
    requires s' == s.(ps := s'.ps, exits := s.exits + {s.ps[c].pid}) && i < |s.ps| == |s'.ps|
    ensures Raised(s', i)
  {
    hide ExitOk, InUse;
    OwnNumber(s, c);
    hide Inv;
    assert Raised(s, i);
    ExitEntry(s.ps, c, s.init, s'.ps, i);
    if s.ps[i].parent.Some? && s.ps[i].parent.value < |s.ps| {
      ExitEntry(s.ps, c, s.init, s'.ps, s.ps[i].parent.value);
    }
    ExitEntry(s.ps, c, s.init, s'.ps, s.init);
  }

  /** No other process has the number of process `c`. */
  lemma OwnNumber(s: State, c: nat)
    requires Inv(s) && Family(s) && c < |s.ps| && c != s.init && s.ps[c].state != Unused
    ensures 1 < s.ps[c].pid < s.nextpid && forall i: nat :: i < |s.ps| && s.ps[i].pid == s.ps[c].pid ==> i == c
  {
    assert PidOk(s, c) && PidOk(s, s.init);
  }

  lemma WaitFamily(s: State, s': State)
    requires Inv(s) && Family(s) && WaitStep(s, s')
    ensures Family(s')
  {
    var c: nat, r: WaitResult :| RunningAt(s, c) && WaitOk(s.ps, c, r, s'.ps)
      && s' == if r.Found? then s.(ps := s'.ps, log := s.log + [r.pid], to := s.to + [s.ps[c].pid])
               else s.(ps := s'.ps);
    match r {
      case NoChildren =>
      case MustSleep => SleepFamily(s, s', c);
      case Found(k, pid) => ReapFamily(s, s', c, k);
    }
  }

  lemma SleepFamily(s: State, s': State, c: nat)
    requires Inv(s) && Family(s) && RunningAt(s, c)
    requires s' == s.(ps := s.ps[c := s.ps[c].(chan := OfProc(c), state := Sleeping)])
    ensures Family(s')
  {
    forall n: nat ensures InUse(s', n) <==> InUse(s, n) {
      if i: nat :| i < |s.ps| && i != s.init && s.ps[i].state != Unused && s.ps[i].pid == n {
        assert s'.ps[i].state != Unused && s'.ps[i].pid == n;
      }
      if i: nat :| i < |s.ps| && i != s.init && s'.ps[i].state != Unused && s'.ps[i].pid == n {
        assert s.ps[i].state != Unused && s.ps[i].pid == n;
      }
    }
    hide InUse, Inv;
    forall i: nat | i < |s'.ps| ensures Raised(s', i) { assert Raised(s, i); }
    forall j: nat | j < |s'.log| ensures Returned(s', j) { assert Returned(s, j); }
  }

  lemma ReapFamily(s: State, s': State, c: nat, k: nat)
    requires Inv(s) && Family(s) && RunningAt(s, c) && k < |s.ps| && ZombieChild(s.ps[k], c)
    requires s' == s.(ps := s.ps[k := Reaped(s.ps[k])], log := s.log + [s.ps[k].pid], to := s.to + [s.ps[c].pid])
    ensures Family(s')
  {
    assert ParentOk(s, k) && Raised(s, k);
    assert k != s.init;
    OwnNumber(s, k);
    forall n: nat ensures n in s'.forks <==> n in s'.log || InUse(s', n) {
      assert n in s.forks <==> n in s.log || InUse(s, n);
      if i: nat :| i < |s.ps| && i != s.init && s.ps[i].state != Unused && s.ps[i].pid == n {
        if i != k { assert s'.ps[i] == s.ps[i]; assert InUse(s', n); }
      }
      if i: nat :| i < |s.ps| && i != s.init && s'.ps[i].state != Unused && s'.ps[i].pid == n {
        assert s'.ps[i] == s.ps[i]; assert InUse(s, n);
      }
      if n == s.ps[k].pid { assert InUse(s, n); }
    }
    forall i: nat | i < |s'.ps| ensures Raised(s', i) {
      assert Raised(s, i);
      if i != s.init && s.ps[i].state != Unused { LivingParent(s, i); }
    }
    forall j: nat | j < |s'.log| ensures Returned(s', j) { if j < |s.log| { assert Returned(s, j); } }
  }

  lemma LivingParent(s: State, i: nat)
    requires Inv(s) && i < |s.ps| && i != s.init && s.ps[i].state != Unused
    ensures s.ps[i].parent.Some? && s.ps[i].parent.value < |s.ps| && Alive(s.ps[s.ps[i].parent.value])
  {
    assert ParentOk(s, i);
  }

  lemma NextFamily(s: State, s': State)
    requires Inv(s) && Family(s) && Next(s, s')
    ensures Family(s')
  {
    hide Inv, Family, ForkStep, ExitStep, WaitStep, KillStep, OtherStep, Mild;
    if ForkStep(s, s') { ForkFamily(s, s'); }
    else if ExitStep(s, s') { ExitFamily(s, s'); }
    else if WaitStep(s, s') { WaitFamily(s, s'); }
    else if KillStep(s, s') { KillMild(s, s'); MildFamily(s, s'); }
    else { OtherMild(s, s'); MildFamily(s, s'); }
  }

  lemma {:induction false} RunFamily(states: seq<State>, k: nat)
    requires IsRun(states) && k < |states|
    ensures Inv(states[k]) && Family(states[k])
  {
    RunInv(states, k);
    if k > 0 {
      hide Inv, Next, Init, Family;
      var j := k - 1;
      RunFamily(states, j);
      assert Next(states[j], states[k]);
      NextFamily(states[j], states[k]);
    }
  }

  // ---- What runs guarantee ----

  /** Every process in use except init has a parent that is neither unused nor a zombie. */
  lemma LiveParent(states: seq<State>, k: nat, i: nat)
    requires IsRun(states) && k < |states| && i < |states[k].ps| && states[k].ps[i].state != Unused
             && i != states[k].init
    ensures var ps := states[k].ps; ps[i].parent.Some? && ps[i].parent.value < |ps| && Alive(ps[ps[i].parent.value])
  {
    RunInv(states, k);
    assert ParentOk(states[k], i);
  }

  /** No zombie is left with a parent asleep in wait, and no one sleeps in wait without a child. */
  lemma WaitersServed(states: seq<State>, k: nat, c: nat)
    requires IsRun(states) && k < |states| && c < |states[k].ps| && states[k].ps[c].state == Sleeping
             && states[k].ps[c].chan == OfProc(c)
    ensures !HasZombie(states[k].ps, c) && exists j :: 0 <= j < |states[k].ps| && Child(states[k].ps[j], c)
  {
    RunInv(states, k);
    assert WaiterOk(states[k], c);
  }

  /** No exited child is returned by wait twice, and a process in use has not been returned. */
  lemma ReapedOnce(states: seq<State>, k: nat)
    requires IsRun(states) && k < |states|
    ensures var s := states[k];
            && (forall i, j :: 0 <= i < j < |s.log| ==> s.log[i] != s.log[j])
            && (forall i :: 0 <= i < |s.ps| && s.ps[i].state != Unused ==> s.ps[i].pid !in s.log)
  {
    RunInv(states, k);
    forall i | 0 <= i < |states[k].ps| && states[k].ps[i].state != Unused
      ensures states[k].ps[i].pid !in states[k].log
    {
      assert PidOk(states[k], i);
    }
  }

  /** Every process fork has made is either in use or has been returned by wait, and not both: none is
      lost and none appears from nowhere. */
  lemma ForkedOrReturned(states: seq<State>, k: nat, n: nat)
    requires IsRun(states) && k < |states|
    ensures var s := states[k];
            && (n in s.forks <==> n in s.log || InUse(s, n)) && !(n in s.log && InUse(s, n))
  {
    RunFamily(states, k);
    ReapedOnce(states, k);
  }

  /** wait returns a process that has exited, and returns it to the process that forked it, or to init
      when that one has exited. */
  lemma ReturnedToParent(states: seq<State>, k: nat, j: nat)
    requires IsRun(states) && k < |states| && j < |states[k].log|
    ensures var s := states[k];
            && |s.to| == |s.log| && s.log[j] in s.exits && s.log[j] in s.forks
            && (s.to[j] == s.forks[s.log[j]] || (s.to[j] == 1 && s.forks[s.log[j]] in s.exits))
  {
    RunFamily(states, k);
    assert Returned(states[k], j);
  }

  /** A process in use belongs to the process that forked it, or to init once that one has exited, and
      is a zombie exactly when it has exited itself. */
  lemma ParentIsForker(states: seq<State>, k: nat, i: nat)
    requires IsRun(states) && k < |states| && i < |states[k].ps| && i != states[k].init
             && states[k].ps[i].state != Unused
    ensures var s := states[k]; var p := s.ps[i];
            && (p.state == Zombie <==> p.pid in s.exits)
            && p.pid in s.forks && p.parent.Some? && p.parent.value < |s.ps|
            && (s.ps[p.parent.value].pid == s.forks[p.pid] || (p.parent.value == s.init && s.forks[p.pid] in s.exits))
  {
    RunFamily(states, k);
    assert Raised(states[k], i);
  }

  // ---- kill ----

  /** kill of a process in use marks it, gets it out of any sleep and touches no other process. */
  lemma KillReaches(states: seq<State>, k: nat, i: nat, found: bool, ps': seq<Proc>)
    requires IsRun(states) && k < |states| && i < |states[k].ps| && states[k].ps[i].state != Unused
    requires KillOk(states[k].ps, states[k].ps[i].pid, found, ps')
    ensures found && |ps'| == |states[k].ps| && ps'[i].killed && ps'[i].state != Sleeping
    ensures states[k].ps[i].state != Sleeping ==> ps'[i].state == states[k].ps[i].state
    ensures forall j :: 0 <= j < |ps'| && j != i ==> ps'[j] == states[k].ps[j]
  {
    RunInv(states, k);
    assert PidOk(states[k], i);
  }

  /** allocproc does not clear the mark, so a process is born killed exactly when its entry was marked
      while it was unused. */
  lemma BornMarked(s: State, s': State, i: nat)
    requires Next(s, s') && i < |s.ps| == |s'.ps| && s.ps[i].state == Unused && s'.ps[i].state != Unused
    ensures s'.ps[i].killed <==> s.ps[i].killed
  {
    hide ExitOk;
    if ExitStep(s, s') {
      var c: nat :| RunningAt(s, c) && c != s.init && ExitOk(s.ps, c, s.init, s'.ps);
      ExitEntry(s.ps, c, s.init, s'.ps, i);
    }
  }

  /** An entry is marked while it is unused. */
  predicate Strayed(p: Proc, p': Proc) { p.state == p'.state == Unused && !p.killed && p'.killed }

  /** No kill marks an unused entry. */
  ghost predicate NoStrayKill(states: seq<State>) {
    forall k, k', i :: 0 <= k && k' == k + 1 && k' < |states| && 0 <= i < |states[k].ps| && i < |states[k'].ps| ==>
      !Strayed(states[k].ps[i], states[k'].ps[i])
  }

  /** An entry falls unused only by being reaped, which clears the mark. */
  lemma UnusedStep(s: State, s': State, i: nat)
    requires Next(s, s') && i < |s'.ps| && s'.ps[i].state == Unused
    ensures i < |s.ps| && (s.ps[i].state != Unused ==> !s'.ps[i].killed)
  {
    hide ExitOk;
    if ExitStep(s, s') {
      var c: nat :| RunningAt(s, c) && c != s.init && ExitOk(s.ps, c, s.init, s'.ps);
      ExitSizes(s.ps, c, s.init, s'.ps);
      ExitEntry(s.ps, c, s.init, s'.ps, i);
    }
  }

  lemma {:induction false} UnusedUnmarked(states: seq<State>, k: nat, i: nat)
    requires IsRun(states) && NoStrayKill(states) && k < |states| && i < |states[k].ps|
             && states[k].ps[i].state == Unused
    ensures !states[k].ps[i].killed
  {
    if k > 0 {
      hide Next, Init;
      var j := k - 1;
      assert Next(states[j], states[k]);
      UnusedStep(states[j], states[k], i);
      if states[j].ps[i].state == Unused {
        UnusedUnmarked(states, j, i);
        assert !Strayed(states[j].ps[i], states[k].ps[i]);
      }
    }
  }

  /** As long as kill marks no unused entry, no process is born killed. */
  lemma BornAlive(states: seq<State>, k: nat, k': nat, i: nat)
    requires IsRun(states) && NoStrayKill(states) && k' == k + 1 && k' < |states|
    requires i < |states[k].ps| == |states[k'].ps|
    requires states[k].ps[i].state == Unused && states[k'].ps[i].state != Unused
    ensures !states[k'].ps[i].killed
  {
    hide Init;
    UnusedUnmarked(states, k, i);
    assert Next(states[k], states[k']);
    hide Next;
    BornMarked(states[k], states[k'], i);
  }

  /** kill(0) is such a kill: unused entries have number 0.  The next process forked is born killed. */
  lemma StrayKill(n: nat) returns (states: seq<State>)
    requires n >= 2
    ensures IsRun(states) && |states| == 4 && |states[2].ps| == |states[3].ps| == n
    ensures states[2].ps[1].state == Unused && states[3].ps[1].state == Runnable && states[3].ps[1].killed
  {
    var free := Proc(Unused, 0, None, NoChan, false);
    var first := Proc(Runnable, 1, None, NoChan, false);
    var ps0 := seq(n, i => if i == 0 then first else free);
    var ps1 := ps0[1 := Killed(free)];
    var ps2 := ps1[0 := first.(state := Running)];
    var ps3 := ps2[1 := Proc(Runnable, 2, Some(0), NoChan, true)];
    var s0 := State(ps0, 2, 0, [], [], map[], {});
    var s1, s2 := s0.(ps := ps1), s0.(ps := ps2);
    var s3 := s0.(ps := ps3, nextpid := 3, forks := map[2 := 1]);
    states := [s0, s1, s2, s3];
    assert KillOk(ps0, 0, true, ps1) by { assert ps0[1].pid == 0 && ps0[0].pid != 0; }
    assert KillStep(s0, s1);
    assert OtherStep(s1, s2) by { assert s1.ps[0].state == Runnable; }
    assert ForkOk(ps2, 0, 2, Some(2), true, ps3) by { assert ps2[1].state == Unused && ps2[0].state != Unused; }
    assert ForkStep(s2, s3) by { assert RunningAt(s2, 0) && s3.forks == s2.forks[2 := 1]; }
    hide ForkStep, ExitStep, WaitStep, KillStep, OtherStep;
    assert Next(s0, s1) && Next(s1, s2) && Next(s2, s3);
  }
}
