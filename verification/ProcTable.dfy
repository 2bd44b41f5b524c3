/** The process table of proc.c.  Every function here runs with ptable.lock held. */
module ProcTable {
  import opened Options

  datatype PState = Unused | Embryo | Sleeping | Runnable | Running | Zombie

  /** What a process sleeps on: a process-table entry (in wait), or anything else in the kernel. */
  datatype Chan = NoChan | OfProc(i: nat) | Other(n: nat)

  datatype Proc = Proc(state: PState, pid: nat, parent: Option<nat>, chan: Chan, killed: bool)

  predicate Alive(p: Proc) { p.state != Unused && p.state != Zombie }

  predicate Child(p: Proc, c: nat) { p.parent == Some(c) }

  predicate ZombieChild(p: Proc, c: nat) { Child(p, c) && p.state == Zombie }

  // ---- What each operation does to the table ----

  function Woken(p: Proc, ch: Chan): Proc { if p.state == Sleeping && p.chan == ch then p.(state := Runnable) else p }

  function WokenAll(ps: seq<Proc>, ch: Chan): (r: seq<Proc>)
    ensures |r| == |ps| && forall i :: 0 <= i < |ps| ==> r[i] == Woken(ps[i], ch)
  {
    seq(|ps|, i requires 0 <= i < |ps| => Woken(ps[i], ch))
  }

  /** One entry after process `c` exits: its waiting parent is woken, its children go to init, and
      init is woken if one of them is a zombie. */
  function AfterExit(p: Proc, isC: bool, parent: Chan, zombies: bool, c: nat, init: nat): Proc {
    var p1 := Woken(p, parent);
    var p2 := if zombies then Woken(p1, OfProc(init)) else p1;
    var p3 := if Child(p2, c) then p2.(parent := Some(init)) else p2;
    if isC then p3.(state := Zombie) else p3
  }

  ghost predicate HasZombie(ps: seq<Proc>, c: nat) {
    exists i :: 0 <= i < |ps| && ZombieChild(ps[i], c)
  }

  function ParentChan(p: Proc): Chan { if p.parent.Some? then OfProc(p.parent.value) else NoChan }

  ghost predicate ExitOk(ps: seq<Proc>, c: nat, init: nat, ps': seq<Proc>) {
    && c < |ps| == |ps'|
    && forall i: nat :: i < |ps| ==> ps'[i] == AfterExit(ps[i], i == c, ParentChan(ps[c]), HasZombie(ps, c), c, init)
  }

  function Reaped(p: Proc): Proc { Proc(Unused, 0, None, p.chan, false) }

  datatype WaitResult = Found(k: nat, pid: nat) | NoChildren | MustSleep

  /** One scan of the table by wait: the first zombie child is freed; without one the caller gives
      up when it has no children or is killed, and otherwise sleeps. */
  ghost predicate WaitOk(ps: seq<Proc>, c: nat, r: WaitResult, ps': seq<Proc>) {
    && c < |ps|
    && match r
       case Found(k, pid) => k < |ps| && ZombieChild(ps[k], c) && pid == ps[k].pid && ps' == ps[k := Reaped(ps[k])]
           && forall i :: 0 <= i < k ==> !ZombieChild(ps[i], c)
       case NoChildren => ps' == ps && !HasZombie(ps, c)
           && (ps[c].killed || forall i :: 0 <= i < |ps| ==> !Child(ps[i], c))
       case MustSleep =>
         && ps' == ps[c := ps[c].(chan := OfProc(c), state := Sleeping)]
         && !HasZombie(ps, c) && !ps[c].killed && exists i :: 0 <= i < |ps| && Child(ps[i], c)
  }

  /** fork: an unused entry becomes a runnable child.  When memory runs out the entry stays unused,
      with the process number it was given. */
  ghost predicate ForkOk(ps: seq<Proc>, c: nat, pid: nat, r: Option<nat>, used: bool, ps': seq<Proc>) {
    if used then
      exists k :: 0 <= k < |ps| && ps[k].state == Unused && (forall i :: 0 <= i < k ==> ps[i].state != Unused)
        && (match r
            case Some(n) => n == pid && ps' == ps[k := Proc(Runnable, pid, Some(c), ps[k].chan, ps[k].killed)]
            case None => ps' == ps[k := ps[k].(pid := pid)])
    else r == None && ps' == ps && forall i :: 0 <= i < |ps| ==> ps[i].state != Unused
  }

  ghost predicate KillOk(ps: seq<Proc>, pid: nat, found: bool, ps': seq<Proc>) {
    if found then
      exists k :: 0 <= k < |ps| && ps[k].pid == pid && (forall i :: 0 <= i < k ==> ps[i].pid != pid)
        && ps' == ps[k := Killed(ps[k])]
    else ps' == ps && forall i :: 0 <= i < |ps| ==> ps[i].pid != pid
  }

  function Killed(p: Proc): Proc { p.(killed := true, state := if p.state == Sleeping then Runnable else p.state) }

  // ---- The code ----

  class Table {
    const proc: array<Proc>
    var nextpid: nat

    constructor (n: nat)
      ensures fresh(proc) && proc.Length == n && nextpid == 1 && forall i ::
              0 <= i < n ==> proc[i] == Proc(Unused, 0, None, NoChan, false)
    {
      proc := new Proc[n](i => Proc(Unused, 0, None, NoChan, false));
      nextpid := 1;
    }

    /** wakeup1: nobody sleeps on the channel any more, and nothing else has changed. */
    method Wakeup1(ch: Chan)
      modifies proc
      ensures proc[..] == WokenAll(old(proc[..]), ch)
      ensures forall i :: 0 <= i < proc.Length ==> !(proc[i].state == Sleeping && proc[i].chan == ch)
      ensures forall i :: 0 <= i < proc.Length ==>
              proc[i] == if old(proc[i]).state == Sleeping && old(proc[i]).chan == ch
                         then old(proc[i]).(state := Runnable) else old(proc[i])
    {
      var i := 0;
      while i < proc.Length
        invariant i <= proc.Length
        invariant forall j ::
                  0 <= j < proc.Length ==> proc[j] == if j < i then Woken(old(proc[j]), ch) else old(proc[j])
      {
        if proc[i].state == Sleeping && proc[i].chan == ch { proc[i] := proc[i].(state := Runnable); }
        i := i + 1;
      }
    }

    /** The part of exit after the files are closed, for process `c`. */
    method Exit(c: nat, init: nat)
      requires c < proc.Length && init < proc.Length && c != init && proc[c].state == Running
      modifies proc
      ensures ExitOk(old(proc[..]), c, init, proc[..])
    {
      ghost var ps := proc[..];
      var ch := ParentChan(proc[c]);
      Wakeup1(ch);
      var i := 0;
      ghost var seen := false;
      while i < proc.Length
        invariant i <= proc.Length && |ps| == proc.Length
        invariant seen <==> exists j :: 0 <= j < i && ZombieChild(ps[j], c)
        invariant forall j: nat :: j < proc.Length ==> proc[j] == Passed(ps[j], j < i, ch, seen, c, init)
      {
        if Child(proc[i], c) {
          proc[i] := proc[i].(parent := Some(init));
          if proc[i].state == Zombie {
            Wakeup1(OfProc(init));
            seen := true;
          }
        }
        assert ZombieChild(ps[i], c) ==> seen;
        i := i + 1;
      }
      proc[c] := proc[c].(state := Zombie);
    }

    /** One scan by wait, up to the sleep. */
    method WaitScan(c: nat) returns (r: WaitResult)
      requires c < proc.Length
      modifies proc
      ensures WaitOk(old(proc[..]), c, r, proc[..])
      ensures r.Found? <==> exists i :: 0 <= i < proc.Length && old(proc[i]).parent == Some(c)
                                        && old(proc[i]).state == Zombie
      ensures r.Found? ==> r.k < proc.Length && old(proc[r.k]).parent == Some(c) && old(proc[r.k]).state == Zombie
                           && r.pid == old(proc[r.k]).pid && proc[r.k].state == Unused && !proc[r.k].killed
      ensures r.MustSleep? ==> proc[c].state == Sleeping && proc[c].chan == OfProc(c) && !proc[c].killed
      ensures r.MustSleep? ==> exists i :: 0 <= i < proc.Length && old(proc[i]).parent == Some(c)
      ensures r.NoChildren? ==> old(proc[c]).killed || forall i :: 0 <= i < proc.Length ==>
                                old(proc[i]).parent != Some(c)
    {
      var havekids := false;
      var i := 0;
      while i < proc.Length
        invariant i <= proc.Length && proc[..] == old(proc[..])
        invariant havekids <==> exists j :: 0 <= j < i && Child(proc[j], c)
        invariant forall j :: 0 <= j < i ==> !ZombieChild(proc[j], c)
      {
        if proc[i].parent == Some(c) {
          havekids := true;
          if proc[i].state == Zombie {
            r := Found(i, proc[i].pid);
            proc[i] := Proc(Unused, 0, None, proc[i].chan, false);
            return;
          }
        }
        i := i + 1;
      }
      if !havekids || proc[c].killed { return NoChildren; }
      proc[c] := proc[c].(chan := OfProc(c), state := Sleeping);
      return MustSleep;
    }

    /** fork, with the outcomes of kalloc and copyuvm as parameters. */
    method Fork(c: nat, kstack: bool, copied: bool) returns (r: Option<nat>)
      modifies this`nextpid, proc
      ensures r.Some? <==> kstack && copied && exists i :: 0 <= i < proc.Length && old(proc[i].state) == Unused
      ensures exists used ::
              ForkOk(old(proc[..]), c, old(nextpid), r, used, proc[..])
                  && nextpid == old(nextpid) + (if used then 1 else 0)
    {
      ghost var ps := proc[..];
      var k := 0;
      while k < proc.Length && proc[k].state != Unused
        invariant k <= proc.Length && forall i :: 0 <= i < k ==> proc[i].state != Unused
      {
        k := k + 1;
      }
      if k == proc.Length {
        assert ForkOk(ps, c, old(nextpid), None, false, proc[..]);
        return None;
      }
      // allocproc
      proc[k] := proc[k].(state := Embryo, pid := nextpid);
      nextpid := nextpid + 1;
      if !kstack || !copied {
        proc[k] := proc[k].(state := Unused);
        assert proc[..] == ps[k := ps[k].(pid := old(nextpid))];
        assert ForkOk(ps, c, old(nextpid), None, true, proc[..]);
        return None;
      }
      proc[k] := proc[k].(parent := Some(c));
      r := Some(proc[k].pid);
      proc[k] := proc[k].(state := Runnable);
      assert proc[..] == ps[k := Proc(Runnable, old(nextpid), Some(c), ps[k].chan, ps[k].killed)];
      assert ForkOk(ps, c, old(nextpid), r, true, proc[..]);
    }

    method Kill(pid: nat) returns (found: bool)
      modifies proc
      ensures KillOk(old(proc[..]), pid, found, proc[..])
      ensures found <==> exists i :: 0 <= i < proc.Length && old(proc[i]).pid == pid
      ensures found ==> exists i :: 0 <= i < proc.Length && proc[i].pid == pid && proc[i].killed
                                    && proc[i].state != Sleeping
    {
      ghost var ps := proc[..];
      var k := 0;
      while k < proc.Length && proc[k].pid != pid
        invariant k <= proc.Length && forall i :: 0 <= i < k ==> proc[i].pid != pid
      {
        k := k + 1;
      }
      if k == proc.Length { return false; }
      proc[k] := proc[k].(killed := true);
      if proc[k].state == Sleeping { proc[k] := proc[k].(state := Runnable); }
      assert proc[..] == ps[k := Killed(ps[k])];
      return true;
    }
  }

  /** An entry part way through exit's loop. */
  function Passed(p: Proc, done: bool, parent: Chan, zombies: bool, c: nat, init: nat): Proc {
    var p1 := Woken(p, parent);
    var p2 := if zombies then Woken(p1, OfProc(init)) else p1;
    if done && Child(p2, c) then p2.(parent := Some(init)) else p2
  }
}
