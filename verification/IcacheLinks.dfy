/** Which inodes iput frees, and where namex starts: the inode cache against the link counts on disk,
    in runs of any number of clients. */
module IcacheLinks {
  import opened Blocks
  import opened Options
  import opened Paths
  import opened Icache
  import opened IcacheProtocol

  // ---- Cached link counts ----

  /** The client with the lock has already freed the inode on disk. */
  ghost predicate Erased(s: State, e: nat)
    requires Shaped(s) && e < NINODE
  {
    && s.holder[e].Some? && s.holder[e].value < |s.clients|
    && var pc := s.clients[s.holder[e].value].pc; pc.Freeing? && pc.ip == e && pc.erased
  }

  /** A loaded inode in use has on disk the link count it has in the cache. */
  ghost predicate Coherent(s: State, e: nat)
    requires Shaped(s) && e < NINODE
  {
    s.es[e].ref > 0 && s.es[e].valid && !Erased(s, e) ==>
      Key(s.es[e]) in s.links && s.links[Key(s.es[e])] == s.es[e].nlink
  }

  /** Whoever is freeing an inode has it locked, loaded and without links. */
  ghost predicate FreeOk(s: State, c: nat)
    requires Shaped(s) && c < |s.clients|
  {
    var pc := s.clients[c].pc;
    pc.Freeing? ==> pc.ip < NINODE && s.holder[pc.ip] == Some(c) && s.es[pc.ip].ref > 0 && s.es[pc.ip].valid
                    && s.es[pc.ip].nlink == 0
  }

  ghost predicate LinksOk(s: State) {
    && Shaped(s)
    && (forall e: nat :: e < NINODE ==> Coherent(s, e))
    && forall c: nat :: c < |s.clients| ==> FreeOk(s, c)
  }

  /** The locks of the clients that are freeing an inode, and the inodes themselves, stay as they are. */
  ghost predicate FreersAlone(s: State, c: nat, s': State)
    requires Shaped(s) && Shaped(s')
  {
    && |s'.clients| == |s.clients|
    && (forall d: nat :: d < |s.clients| && d != c ==> s'.clients[d] == s.clients[d])
    && forall d: nat, e: nat :: d != c && e < NINODE && Frees(s, d, e) ==> Kept(s, e, s', d)
  }

  ghost predicate Frees(s: State, d: nat, e: nat)
    requires Shaped(s) && e < NINODE
  {
    d < |s.clients| && s.clients[d].pc.Freeing? && s.clients[d].pc.ip == e && s.holder[e] == Some(d) && s.es[e].ref > 0
  }

  ghost predicate Kept(s: State, e: nat, s': State, d: nat)
    requires Shaped(s) && Shaped(s') && e < NINODE
  {
    s'.holder[e] == Some(d) && s'.es[e].ref > 0 && s'.es[e].valid == s.es[e].valid && s'.es[e].nlink == s.es[e].nlink
  }

  /** A step by `c` that changes no link count, neither on disk nor of a loaded inode. */
  ghost predicate Calm(s: State, c: nat, s': State)
    requires Shaped(s) && Shaped(s')
  {
    && FreersAlone(s, c, s') && s'.links == s.links
    && forall e: nat :: e < NINODE ==>
         && (s'.es[e].ref > 0 && s'.es[e].valid ==>
              s.es[e].ref > 0 && s.es[e].valid && Key(s'.es[e]) == Key(s.es[e]) && s'.es[e].nlink == s.es[e].nlink)
         && (Erased(s, e) ==> Erased(s', e) || !s'.es[e].valid)
  }

  lemma CalmLinks(s: State, c: nat, s': State)
    requires LinksOk(s) && Shaped(s') && Calm(s, c, s') && c < |s.clients| && FreeOk(s', c)
    ensures LinksOk(s')
  {
    forall e: nat | e < NINODE ensures Coherent(s', e) { assert Coherent(s, e); }
    forall d: nat | d < |s'.clients| ensures FreeOk(s', d) {
      assert FreeOk(s, d);
      if d != c && s.clients[d].pc.Freeing? { assert Frees(s, d, s.clients[d].pc.ip); }
    }
  }

  /** The lock of an inode that is being freed belongs to the client that frees it. */
  lemma NotErased(s: State, c: nat, e: nat)
    requires Shaped(s) && e < NINODE && s.holder[e] == Some(c) && c < |s.clients| && !s.clients[c].pc.Freeing?
    ensures !Erased(s, e)
  {}

  // ---- Each step ----

  /** Client `c` moves on, to a place where it frees nothing. */
  ghost predicate Moved(m: State, c: nat, s': State) {
    && c < |m.clients| == |s'.clients| && s' == m.(clients := m.clients[c := s'.clients[c]])
    && !s'.clients[c].pc.Freeing?
  }

  lemma IgetCalm(s: State, c: nat, dev: nat, inum: nat, k: nat, m: State, s': State)
    requires Inv(s) && Shaped(m) && DoIget(s, c, dev, inum, k, m) && Moved(m, c, s') && !s.clients[c].pc.Freeing?
    ensures Calm(s, c, s')
  {
    hide Inv;
  }

  lemma IdupCalm(s: State, c: nat, k: nat, m: State, s': State)
    requires Inv(s) && Shaped(m) && DoIdup(s, c, k, m) && Moved(m, c, s') && !s.clients[c].pc.Freeing?
    ensures Calm(s, c, s')
  {
    assert EntryOk(s, k);
    SomeOne(s.who[k], c);
    hide Inv;
  }

  lemma LockCalm(s: State, c: nat, k: nat, m: State, pc: Pc)
    requires Inv(s) && Shaped(m) && DoLock(s, c, k, m) && c < |s.clients|
    requires !s.clients[c].pc.Freeing? && !pc.Freeing?
    ensures Calm(s, c, With(m, c, pc))
  {
    assert EntryOk(s, k);
    hide Inv;
  }

  lemma UnlockCalm(s: State, c: nat, k: nat, m: State, pc: Pc)
    requires Inv(s) && Shaped(m) && DoUnlock(s, c, k, m) && c < |s.clients| && k < |s.holder| && s.holder[k] == Some(c)
    requires !s.clients[c].pc.Freeing? && !pc.Freeing?
    ensures Calm(s, c, With(m, c, pc))
  {
    hide Inv;
  }

  /** A step of the client alone. */
  lemma MoveCalm(s: State, c: nat, s': State)
    requires Inv(s) && Moved(s, c, s') && !s.clients[c].pc.Freeing?
    ensures Calm(s, c, s')
  {}

  lemma LoadLinks(s: State, c: nat, k: nat, m: State, pc: Pc)
    requires Inv(s) && LinksOk(s) && Shaped(m) && DoLoad(s, c, k, m) && c < |s.clients|
    requires !s.clients[c].pc.Freeing? && !pc.Freeing?
    ensures LinksOk(With(m, c, pc))
  {
    hide Inv;
    var s' := With(m, c, pc);
    NotErased(s, c, k);
    forall e: nat | e < NINODE ensures Coherent(s', e) { assert Coherent(s, e); }
    forall d: nat | d < |s'.clients| ensures FreeOk(s', d) { assert FreeOk(s, d); }
  }

  lemma OtherKey(s: State, k: nat, e: nat)
    requires Shaped(s) && Unique(s.es) && k < NINODE && e < NINODE && s.es[k].ref > 0
    ensures e != k && s.es[e].ref > 0 ==> Key(s.es[e]) != Key(s.es[k])
  {
    if s.es[e].ref > 0 && Key(s.es[e]) == Key(s.es[k]) { assert Caches(s.es[e], s.es[k].dev, s.es[k].inum); }
  }

  /** No other entry in use is of the inode whose link count changes. */
  lemma RelinkLinks(s: State, c: nat, k: nat, n: nat, s': State)
    requires Inv(s) && LinksOk(s) && DoRelink(s, c, k, n, s') && c < |s.clients| && !s.clients[c].pc.Freeing?
    ensures LinksOk(s')
  {
    NotErased(s, c, k);
    assert s.es[k].ref > 0 by { assert EntryOk(s, k); SomeOne(s.who[k], c); }
    forall e: nat | e < NINODE ensures Coherent(s', e) {
      assert Coherent(s, e);
      OtherKey(s, k, e);
    }
    forall d: nat | d < |s'.clients| ensures FreeOk(s', d) { assert FreeOk(s, d); }
  }

  lemma AllocLinks(s: State, id: Id, s': State)
    requires LinksOk(s) && DoAlloc(s, id, s')
    ensures LinksOk(s')
  {
    forall e: nat | e < NINODE ensures Coherent(s', e) { assert Coherent(s, e); }
    forall d: nat | d < |s'.clients| ensures FreeOk(s', d) { assert FreeOk(s, d); }
  }

  lemma PutLinks(t: Tree, s: State, c: nat, m: State, s': State)
    requires Inv(s) && LinksOk(s) && c < |s.clients| && s.clients[c].pc.Putting? && s.clients[c].pc.ip < |s.es|
             && DoPut(s, c, s.clients[c].pc.ip, m)
    requires |m.clients| == |s.clients|
    requires s' == With(m, c, if PutOutcome(s.es[s.clients[c].pc.ip]) == MustFree
             then Freeing(s.clients[c].pc.ip, s.clients[c].pc.k, false) else AfterPut(s.clients[c].pc.k))
    ensures LinksOk(s')
  {
    var ip := s.clients[c].pc.ip;
    PutOk(t, s, c, m, s');
    assert ClientOk(s, c) && Balanced(s, c, ip) && EntryOk(s, ip);
    assert forall d: nat :: d < |s.clients| && d != c && s.clients[d].pc.Freeing? && s.clients[d].pc.ip == ip ==>
        s.es[ip].ref > 1 by { TwoPointers(s, c, ip); }
    hide Inv, StepOk;
    CalmLinks(s, c, s');
  }

  /** Someone else freeing the inode has a pointer to it as well. */
  lemma TwoPointers(s: State, c: nat, e: nat)
    requires Inv(s) && c < |s.clients| && e < NINODE && c in s.who[e]
    ensures forall d: nat :: d < |s.clients| && d != c && s.clients[d].pc.Freeing? && s.clients[d].pc.ip == e ==>
              s.es[e].ref > 1
  {
    forall d: nat | d < |s.clients| && d != c && s.clients[d].pc.Freeing? && s.clients[d].pc.ip == e
      ensures s.es[e].ref > 1
    {
      assert ClientOk(s, d) && Balanced(s, d, e) && EntryOk(s, e);
      if |s.who[e]| == 1 { OnlyOne(s.who[e], c, d); }
    }
  }

  lemma EraseLinks(s: State, c: nat, m: State, s': State)
    requires Inv(s) && LinksOk(s) && c < |s.clients| && s.clients[c].pc.Freeing? && DoErase(s, s.clients[c].pc.ip, m)
    requires |m.clients| == |s.clients| && s' == With(m, c, s.clients[c].pc.(erased := true))
    ensures LinksOk(s')
  {
    var ip := s.clients[c].pc.ip;
    assert FreeOk(s, c);
    forall e: nat | e < NINODE ensures Coherent(s', e) {
      assert Coherent(s, e);
      OtherKey(s, ip, e);
    }
    forall d: nat | d < |s'.clients| ensures FreeOk(s', d) { assert FreeOk(s, d); }
  }

  lemma FreedLinks(s: State, c: nat, m: State, s': State)
    requires Inv(s) && LinksOk(s) && c < |s.clients| && s.clients[c].pc.Freeing? && DoFreed(s, c, s.clients[c].pc.ip, m)
    requires |m.clients| == |s.clients| && s' == With(m, c, AfterPut(s.clients[c].pc.k))
    ensures LinksOk(s')
  {
    assert FreeOk(s, c);
    hide Inv;
    CalmLinks(s, c, s');
  }

  lemma NamexLinks(t: Tree, s: State, c: nat, s': State)
    requires Inv(s) && LinksOk(s) && NamexStep(t, s, c, s') && Shaped(s')
    ensures LinksOk(s')
  {
    hide Inv, LinksOk, DoLock, DoLoad, DoIget, DoUnlock, DoPut, DoErase, DoFreed, SkipOk, Calm, LookNext, PutOutcome;
    var pc := s.clients[c].pc;
    match pc {
      case Loop(_, _) => MoveLinks(s, c, s');
      case WantLock(ip, name, rest) =>
        var m: State :| DoLock(s, c, ip, m) && |m.clients| == |s.clients| && s' == With(m, c, Look(ip, name, rest));
        LockCalm(s, c, ip, m, Look(ip, name, rest));
        CalmLinks(s, c, s');
      case Look(ip, _, _) =>
        var m: State :| DoLoad(s, c, ip, m) && |m.clients| == |s.clients| && ip < |s.es|
            && s' == With(m, c, LookNext(t, s.es[ip], pc, s.clients[c].call.parent));
        NotFreeing(t, s.es[ip], pc, s.clients[c].call.parent);
        LoadLinks(s, c, ip, m, LookNext(t, s.es[ip], pc, s.clients[c].call.parent));
      case Get(ip, inum, rest) =>
        var m: State, k: nat :| DoIget(s, c, s.es[ip].dev, inum, k, m) && |m.clients| == |s.clients|
            && s' == With(m, c, Unlocking(ip, ToNext(k, rest)));
        IgetCalm(s, c, s.es[ip].dev, inum, k, m, s');
        CalmLinks(s, c, s');
      case Unlocking(ip, k) =>
        var m: State :| DoUnlock(s, c, ip, m) && |m.clients| == |s.clients|
            && s' == With(m, c, if k.ToParent? then Ret(Some(ip), k.name) else Putting(ip, k));
        HasLock(s, c);
        UnlockCalm(s, c, ip, m, if k.ToParent? then Ret(Some(ip), k.name) else Putting(ip, k));
        CalmLinks(s, c, s');
      case Putting(ip, k) =>
        var m: State :| DoPut(s, c, ip, m) && |m.clients| == |s.clients|
            && s' == With(m, c, if PutOutcome(s.es[ip]) == MustFree then Freeing(ip, k, false) else AfterPut(k));
        PutLinks(t, s, c, m, s');
      case Freeing(ip, k, false) =>
        var m: State :| DoErase(s, ip, m) && |m.clients| == |s.clients| && s' == With(m, c, Freeing(ip, k, true));
        EraseLinks(s, c, m, s');
      case Freeing(ip, k, true) =>
        var m: State :| DoFreed(s, c, ip, m) && |m.clients| == |s.clients| && s' == With(m, c, AfterPut(k));
        FreedLinks(s, c, m, s');
      case Ret(_, _) => MoveLinks(s, c, s');
      case Idle =>
    }
  }

  lemma MoveLinks(s: State, c: nat, s': State)
    requires Inv(s) && LinksOk(s) && Moved(s, c, s') && !s.clients[c].pc.Freeing?
    ensures LinksOk(s')
  {
    MoveCalm(s, c, s');
    CalmLinks(s, c, s');
  }

  lemma NotFreeing(t: Tree, e: Entry, pc: Pc, parent: bool)
    requires pc.Look?
    ensures !LookNext(t, e, pc, parent).Freeing?
  {}

  lemma HasLock(s: State, c: nat)
    requires Inv(s) && c < |s.clients| && s.clients[c].pc.Unlocking?
    ensures var ip := s.clients[c].pc.ip; ip < |s.holder| && s.holder[ip] == Some(c)
  {
    assert ClientOk(s, c) && Balanced(s, c, s.clients[c].pc.ip);
  }

  lemma SingleLinks(s: State, c: nat, s': State)
    requires Inv(s) && LinksOk(s) && SingleCall(s, c, s') && Shaped(s')
    ensures LinksOk(s')
  {
    hide Inv, LinksOk, Calm, Unique, IgetOk;
    if dev: nat, inum: nat, k: nat :| DoIget(s, c, dev, inum, k, s') {
      IgetCalm(s, c, dev, inum, k, s', s');
      CalmLinks(s, c, s');
    } else if k: nat :| DoIdup(s, c, k, s') {
      IdupCalm(s, c, k, s', s');
      CalmLinks(s, c, s');
    } else if k: nat :| DoLoad(s, c, k, s') {
      SameClient(s', c);
      LoadLinks(s, c, k, s', Idle);
    } else if k: nat, n: nat :| DoRelink(s, c, k, n, s') {
      RelinkLinks(s, c, k, n, s');
    } else if id: Id :| DoAlloc(s, id, s') {
      AllocLinks(s, id, s');
    } else {
      SingleLockLinks(s, c, s');
    }
  }

  lemma SameClient(s: State, c: nat)
    requires c < |s.clients| && s.clients[c].pc == Idle
    ensures With(s, c, Idle) == s
  {}

  lemma SingleLockLinks(s: State, c: nat, s': State)
    requires Inv(s) && LinksOk(s) && c < |s.clients| && s.clients[c].pc == Idle && Shaped(s')
    requires || (exists k: nat :: k < |s.who| && c in s.who[k] && DoLock(s, c, k, s'))
             || (exists k: nat :: k < |s.holder| && s.holder[k] == Some(c) && DoUnlock(s, c, k, s'))
             || (exists k: nat :: k < |s.who| && c in s.who[k] && s' == BeginPut(s, c, k))
    ensures LinksOk(s')
  {
    hide Inv, LinksOk, Calm, Unique;
    if k: nat :| k < |s.who| && c in s.who[k] && DoLock(s, c, k, s') {
      SameClient(s', c);
      LockCalm(s, c, k, s', Idle);
    } else if k: nat :| k < |s.holder| && s.holder[k] == Some(c) && DoUnlock(s, c, k, s') {
      SameClient(s', c);
      UnlockCalm(s, c, k, s', Idle);
    } else {
      MoveCalm(s, c, s');
    }
    CalmLinks(s, c, s');
  }

  lemma BeginLinks(s: State, c: nat, path: string, parent: bool, k: nat, s': State)
    requires Inv(s) && LinksOk(s) && Begin(s, c, path, parent, k, s') && Shaped(s')
    ensures LinksOk(s')
  {
    hide Inv, LinksOk, Calm, Unique, IgetOk, NewCall;
    var m: State :|
      && (if path != [] && path[0] == '/' then DoIget(s, c, ROOTDEV, ROOTINO, k, m) else DoIdup(s, c, k, m))
      && k < |m.es| && c < |m.clients|
      && s' == m.(clients := m.clients[c := Client(Loop(k, path), NewCall(s, c, path, parent, Key(m.es[k])))]);
    if path != [] && path[0] == '/' { IgetCalm(s, c, ROOTDEV, ROOTINO, k, m, s'); } else { IdupCalm(s, c, k, m, s'); }
    CalmLinks(s, c, s');
  }

  lemma NextLinks(t: Tree, s: State, s': State)
    requires Inv(s) && LinksOk(s) && Next(t, s, s')
    ensures LinksOk(s')
  {
    var _ := StepBy(t, s, s');
    assert Shaped(s') by { CoreShaped(s'); }
    hide Inv, LinksOk, NamexStep, SingleCall, Begin;
    var c: nat :| ClientStep(t, s, c, s');
    if NamexStep(t, s, c, s') {
      NamexLinks(t, s, c, s');
    } else if SingleCall(s, c, s') {
      SingleLinks(s, c, s');
    } else {
      var path: string, parent: bool, k: nat :| Begin(s, c, path, parent, k, s');
      BeginLinks(s, c, path, parent, k, s');
    }
  }

  lemma {:induction false} RunLinks(trees: seq<Tree>, states: seq<State>, k: nat)
    requires IsRun(trees, states) && k < |states|
    ensures Inv(states[k]) && LinksOk(states[k])
  {
    RunInv(trees, states, k);
    if k == 0 {
      forall e: nat | e < NINODE ensures Coherent(states[0], e) {}
    } else {
      hide Inv, LinksOk, Next, Init;
      var j := k - 1;
      RunLinks(trees, states, j);
      assert Next(trees[j], states[j], states[k]);
      NextLinks(trees[j], states[j], states[k]);
    }
  }

  // ---- What runs guarantee about links ----

  /** A loaded inode in use has the link count the disk has, unless it has just been freed there. */
  lemma CachedLinks(trees: seq<Tree>, states: seq<State>, k: nat, e: nat)
    requires IsRun(trees, states) && k < |states| && e < |states[k].es|
    requires states[k].es[e].ref > 0 && states[k].es[e].valid
    requires forall c :: 0 <= c < |states[k].clients| && states[k].clients[c].pc.Freeing? ==>
               states[k].clients[c].pc.ip != e
    ensures var s := states[k]; Key(s.es[e]) in s.links && s.links[Key(s.es[e])] == s.es[e].nlink
  {
    RunLinks(trees, states, k);
    assert Coherent(states[k], e);
  }

  /** The only step that starts freeing an inode. */
  lemma StartsFreeing(t: Tree, s: State, c: nat, s': State, d: nat)
    requires Inv(s) && ClientStep(t, s, c, s') && StepOk(t, s, c, s') && d < |s.clients| == |s'.clients|
    requires !s.clients[d].pc.Freeing? && s'.clients[d].pc.Freeing?
    ensures var pc := s'.clients[d].pc;
            && d == c && pc.ip < |s.es| && s.es[pc.ip].ref == 1 && s.es[pc.ip].valid && s.es[pc.ip].nlink == 0
            && !s.es[pc.ip].busy && !pc.erased && s.clients[d].pc == Putting(pc.ip, pc.k)
  {
    hide Inv, NamexStep, SingleCall, Begin;
    if NamexStep(t, s, c, s') { NamexFreeing(t, s, c, s'); }
    else if SingleCall(s, c, s') { SingleFreesNone(s, c, s'); }
    else {
      var path: string, parent: bool, k: nat :| Begin(s, c, path, parent, k, s');
      BeginLoops(s, c, path, parent, k, s');
    }
  }

  lemma NamexFreeing(t: Tree, s: State, c: nat, s': State)
    requires NamexStep(t, s, c, s') && c < |s'.clients| && !s.clients[c].pc.Freeing?
    ensures var pc := s'.clients[c].pc;
            pc.Freeing? ==>
              && pc.ip < |s.es| && s.es[pc.ip].ref == 1 && s.es[pc.ip].valid && s.es[pc.ip].nlink == 0
              && !s.es[pc.ip].busy && !pc.erased && s.clients[c].pc == Putting(pc.ip, pc.k)
  {
    hide SkipOk, DoLock, DoLoad, DoIget, DoUnlock, DoFreed, DoErase, DoPut;
  }

  lemma SingleFreesNone(s: State, c: nat, s': State)
    requires SingleCall(s, c, s') && c < |s'.clients|
    ensures !s'.clients[c].pc.Freeing?
  {
    hide IgetOk;
  }

  lemma BeginLoops(s: State, c: nat, path: string, parent: bool, k: nat, s': State)
    requires Begin(s, c, path, parent, k, s')
    ensures c < |s'.clients| && s'.clients[c].pc == Loop(k, path)
  {
    hide IgetOk;
  }

  /** iput starts to free an inode only through the last pointer to it, and only when it has no links;
      and then nobody has it locked. */
  lemma FreesLastUnlinked(trees: seq<Tree>, states: seq<State>, k: nat, k': nat, c: nat)
    requires IsRun(trees, states) && k' == k + 1 && k' < |states| && c < |states[k].clients|
    requires c < |states[k'].clients| && !states[k].clients[c].pc.Freeing? && states[k'].clients[c].pc.Freeing?
    ensures var s := states[k]; var ip := states[k'].clients[c].pc.ip;
            && ip < |s.es| && ip < |s.who| && ip < |s.holder| && s.who[ip] == multiset{c} && s.holder[ip] == None
            && Key(s.es[ip]) in s.links && s.links[Key(s.es[ip])] == 0
  {
    var s := states[k];
    RunLinks(trees, states, k);
    assert Next(trees[k], s, states[k']);
    hide LinksOk;
    var d := StepBy(trees[k], s, states[k']);
    StartsFreeing(trees[k], s, d, states[k'], c);
    var ip := states[k'].clients[c].pc.ip;
    assert ClientOk(s, c) && Balanced(s, c, ip) && EntryOk(s, ip);
    OnlyOne(s.who[ip], c, c);
    OneOnly(s.who[ip], c);
    assert Key(s.es[ip]) in s.links && s.links[Key(s.es[ip])] == 0 by { UnlockedLinks(s, ip); }
  }

  lemma OneOnly(m: multiset<nat>, c: nat)
    requires |m| == 1 && c in m
    ensures m == multiset{c}
  {
    assert m == multiset{c} + (m - multiset{c});
    assert |m - multiset{c}| == 0;
    assert m - multiset{c} == multiset{};
  }

  lemma UnlockedLinks(s: State, e: nat)
    requires LinksOk(s) && e < NINODE && s.es[e].ref > 0 && s.es[e].valid && s.holder[e] == None
    ensures Key(s.es[e]) in s.links && s.links[Key(s.es[e])] == s.es[e].nlink
  {
    assert Coherent(s, e);
  }

  /** While it is being freed it has no links, its client alone has the lock, and it is on disk until
      the client has erased it. */
  lemma FreeingUnlinked(trees: seq<Tree>, states: seq<State>, k: nat, c: nat)
    requires IsRun(trees, states) && k < |states| && c < |states[k].clients| && states[k].clients[c].pc.Freeing?
    ensures var s := states[k]; var pc := s.clients[c].pc;
            && pc.ip < |s.es| && pc.ip < |s.holder| && s.holder[pc.ip] == Some(c)
            && (!pc.erased ==> Key(s.es[pc.ip]) in s.links && s.links[Key(s.es[pc.ip])] == 0)
  {
    RunLinks(trees, states, k);
    assert FreeOk(states[k], c) && Coherent(states[k], states[k].clients[c].pc.ip);
  }

  /** Whoever lets go of the last pointer to a loaded inode without links has freed it. */
  lemma LastPointerFrees(trees: seq<Tree>, states: seq<State>, k: nat, k': nat, e: nat)
    requires IsRun(trees, states) && k' == k + 1 && k' < |states| && e < |states[k].es| && e < |states[k].who|
    requires e < |states[k'].who| && states[k].es[e].valid && states[k].es[e].nlink == 0
    requires states[k].who[e] != multiset{} && states[k'].who[e] == multiset{}
    ensures exists c :: 0 <= c < |states[k].clients| && states[k].clients[c].pc.Freeing?
                        && states[k].clients[c].pc.ip == e && states[k].clients[c].pc.erased
  {
    var s := states[k];
    RunLinks(trees, states, k);
    assert Next(trees[k], s, states[k']);
    var c := StepBy(trees[k], s, states[k']);
    LetsGo(trees[k], s, c, states[k'], e);
  }

  lemma LetsGo(t: Tree, s: State, c: nat, s': State, e: nat)
    requires Inv(s) && ClientStep(t, s, c, s') && e < NINODE == |s.es| == |s.who| == |s'.who|
    requires s.es[e].valid && s.es[e].nlink == 0 && s.who[e] != multiset{} && s'.who[e] == multiset{}
    ensures c < |s.clients| && s.clients[c].pc.Freeing? && s.clients[c].pc.ip == e && s.clients[c].pc.erased
  {
    assert EntryOk(s, e);
    hide Inv, NamexStep, SingleCall, Begin;
    if NamexStep(t, s, c, s') { NamexLetsGo(t, s, c, s', e); }
    else if SingleCall(s, c, s') { SingleHolds(s, c, s', e); }
    else {
      var path: string, parent: bool, k: nat :| Begin(s, c, path, parent, k, s');
      BeginHolds(s, c, path, parent, k, s', e);
    }
  }

  lemma NamexLetsGo(t: Tree, s: State, c: nat, s': State, e: nat)
    requires NamexStep(t, s, c, s') && e < |s.es| == |s.who| == |s'.who| && s.es[e].ref == |s.who[e]|
    requires s.es[e].valid && s.es[e].nlink == 0 && s.who[e] != multiset{} && s'.who[e] == multiset{}
    ensures c < |s.clients| && s.clients[c].pc.Freeing? && s.clients[c].pc.ip == e && s.clients[c].pc.erased
  {
    hide SkipOk, IgetOk;
  }

  lemma SingleHolds(s: State, c: nat, s': State, e: nat)
    requires SingleCall(s, c, s') && e < |s.who| == |s'.who| && s.who[e] != multiset{}
    ensures s'.who[e] != multiset{}
  {
    hide IgetOk;
  }

  lemma BeginHolds(s: State, c: nat, path: string, parent: bool, k: nat, s': State, e: nat)
    requires Begin(s, c, path, parent, k, s') && e < |s.who| == |s'.who| && s.who[e] != multiset{}
    ensures s'.who[e] != multiset{}
  {
    hide IgetOk;
  }

  /** An inode leaves the disk only when it has no links, by a client that is freeing it. */
  lemma LinkedStays(trees: seq<Tree>, states: seq<State>, k: nat, k': nat, id: Id)
    requires IsRun(trees, states) && k' == k + 1 && k' < |states|
    requires id in states[k].links && id !in states[k'].links
    ensures states[k].links[id] == 0
    ensures exists c :: 0 <= c < |states[k].clients| && states[k].clients[c].pc.Freeing?
                        && states[k].clients[c].pc.ip < |states[k].es|
                        && Key(states[k].es[states[k].clients[c].pc.ip]) == id
  {
    var s := states[k];
    RunLinks(trees, states, k);
    assert Next(trees[k], s, states[k']);
    var c := StepBy(trees[k], s, states[k']);
    hide Inv, LinksOk, StepOk;
    Erases(trees[k], s, c, states[k'], id);
    FreeingUnlinked(trees, states, k, c);
  }

  lemma Erases(t: Tree, s: State, c: nat, s': State, id: Id)
    requires ClientStep(t, s, c, s') && id in s.links && id !in s'.links
    ensures c < |s.clients| && s.clients[c].pc.Freeing? && !s.clients[c].pc.erased
    ensures s.clients[c].pc.ip < |s.es| && Key(s.es[s.clients[c].pc.ip]) == id
  {
    hide IgetOk, SkipOk, SingleCall, Begin, NamexStep;
    if NamexStep(t, s, c, s') { NamexErases(t, s, c, s', id); }
    else if SingleCall(s, c, s') { SingleKeepsLinks(s, c, s', id); }
    else {
      var path: string, parent: bool, k: nat :| Begin(s, c, path, parent, k, s');
      BeginKeepsLinks(s, c, path, parent, k, s');
    }
  }

  lemma NamexErases(t: Tree, s: State, c: nat, s': State, id: Id)
    requires NamexStep(t, s, c, s') && id in s.links && id !in s'.links
    ensures c < |s.clients| && s.clients[c].pc.Freeing? && !s.clients[c].pc.erased
    ensures s.clients[c].pc.ip < |s.es| && Key(s.es[s.clients[c].pc.ip]) == id
  {
    hide IgetOk, SkipOk;
  }

  lemma SingleKeepsLinks(s: State, c: nat, s': State, id: Id)
    requires SingleCall(s, c, s') && id in s.links
    ensures id in s'.links
  {
    hide IgetOk;
  }

  lemma BeginKeepsLinks(s: State, c: nat, path: string, parent: bool, k: nat, s': State)
    requires Begin(s, c, path, parent, k, s')
    ensures s'.links == s.links
  {
    hide IgetOk;
  }

  // ---- Behind ilock ----

  /** A loaded inode in use stays loaded until the client that frees it is done. */
  lemma StaysLoaded(t: Tree, s: State, c: nat, s': State, e: nat)
    requires ClientStep(t, s, c, s') && e < |s.es| == |s'.es| && s.es[e].ref > 0 && s.es[e].valid
    requires c < |s.clients| && !(s.clients[c].pc.Freeing? && s.clients[c].pc.ip == e)
    ensures s'.es[e].valid
  {
    hide NamexStep, SingleCall, Begin;
    if NamexStep(t, s, c, s') { NamexLoaded(t, s, c, s', e); }
    else if SingleCall(s, c, s') { SingleLoaded(s, c, s', e); }
    else {
      var path: string, parent: bool, k: nat :| Begin(s, c, path, parent, k, s');
      BeginLoaded(s, c, path, parent, k, s', e);
    }
  }

  lemma NamexLoaded(t: Tree, s: State, c: nat, s': State, e: nat)
    requires NamexStep(t, s, c, s') && e < |s.es| == |s'.es| && s.es[e].ref > 0 && s.es[e].valid
    requires !(s.clients[c].pc.Freeing? && s.clients[c].pc.ip == e)
    ensures s'.es[e].valid
  {
    hide SkipOk;
  }

  lemma SingleLoaded(s: State, c: nat, s': State, e: nat)
    requires SingleCall(s, c, s') && e < |s.es| == |s'.es| && s.es[e].ref > 0 && s.es[e].valid
    ensures s'.es[e].valid
  {}

  lemma BeginLoaded(s: State, c: nat, path: string, parent: bool, k: nat, s': State, e: nat)
    requires Begin(s, c, path, parent, k, s') && e < |s.es| == |s'.es| && s.es[e].ref > 0 && s.es[e].valid
    ensures s'.es[e].valid
  {
    hide NewCall;
  }

  /** Past ilock: looking the name up is over, the inode not yet unlocked. */
  predicate PastLock(pc: Pc, e: nat) { (pc.Get? || pc.Unlocking?) && pc.ip == e }

  lemma ComesLoaded(t: Tree, s: State, c: nat, s': State, e: nat)
    requires NamexStep(t, s, c, s') && c < |s'.clients| && e < |s.es| == |s'.es|
    requires PastLock(s'.clients[c].pc, e) && !PastLock(s.clients[c].pc, e)
    ensures s'.es[e].valid
  {
    hide SkipOk, IgetOk, DoIget, DoLock, DoUnlock, DoPut, DoErase, DoFreed;
  }

  lemma NamexComes(t: Tree, s: State, c: nat, s': State, e: nat)
    requires ClientStep(t, s, c, s') && c < |s'.clients| && PastLock(s'.clients[c].pc, e)
    ensures NamexStep(t, s, c, s')
  {
    hide NamexStep, Begin, IgetOk;
    if path: string, parent: bool, k: nat :| Begin(s, c, path, parent, k, s') {
      BeginLoops(s, c, path, parent, k, s');
    }
  }

  lemma {:induction false} RunLoaded(trees: seq<Tree>, states: seq<State>, k: nat, c: nat, e: nat)
    requires IsRun(trees, states) && k < |states| && c < |states[k].clients| && e < NINODE
    requires PastLock(states[k].clients[c].pc, e)
    ensures e < |states[k].es| && states[k].es[e].valid
  {
    var i := k - 1;
    RunInv(trees, states, i);
    RunInv(trees, states, k);
    var s, s' := states[i], states[k];
    assert Next(trees[i], s, s');
    var d := StepBy(trees[i], s, s');
    assert ClientOk(s, c) && EntryOk(s, e);
    if PastLock(s.clients[c].pc, e) {
      assert Balanced(s, c, e);
      SomeOne(s.who[e], c);
      assert ClientOk(s, d) && (s.clients[d].pc.Freeing? && s.clients[d].pc.ip == e ==> Balanced(s, d, e));
      hide Inv, NamexStep, SingleCall, Begin, Next, StepOk;
      RunLoaded(trees, states, i, c, e);
      StaysLoaded(trees[i], s, d, s', e);
    } else {
      assert d == c;
      hide Inv, NamexStep, SingleCall, Begin, Next, StepOk;
      NamexComes(trees[i], s, c, s', e);
      ComesLoaded(trees[i], s, c, s', e);
    }
  }

  /** Once ilock has returned, in any interleaving, the directory is loaded, and stays so until it is
      unlocked. */
  lemma LockedIsLoaded(trees: seq<Tree>, states: seq<State>, k: nat, c: nat)
    requires IsRun(trees, states) && k < |states| && c < |states[k].clients|
    requires states[k].clients[c].pc.Get? || states[k].clients[c].pc.Unlocking?
    ensures var ip := states[k].clients[c].pc.ip;
            ip < |states[k].es| && states[k].es[ip].valid && ip < |states[k].holder| && states[k].holder[ip] == Some(c)
  {
    RunInv(trees, states, k);
    var ip := states[k].clients[c].pc.ip;
    assert ClientOk(states[k], c) && Balanced(states[k], c, ip);
    RunLoaded(trees, states, k, c, ip);
  }

  // ---- Whole calls of namex ----

  /** Where a path starts: '/' stands for the root, and any other path starts at an inode the client
      has a pointer to. */
  ghost predicate StartsAt(s: State, c: nat, path: string, ip: nat, call: Call) {
    && call.names == Truncated(Elements(path)) && |call.base| == |s.who|
    && (forall e :: 0 <= e < |s.who| ==> call.base[e] == s.who[e][c])
    && (forall e: nat :: e in call.locks <==> e < |s.holder| && s.holder[e] == Some(c))
    && if path != [] && path[0] == '/' then call.start == Id(ROOTDEV, ROOTINO)
       else ip < |s.who| && ip < |s.es| && c in s.who[ip] && call.start == Key(s.es[ip])
  }

  lemma BeginStarts(s: State, c: nat, path: string, parent: bool, k: nat, s': State)
    requires Inv(s) && Begin(s, c, path, parent, k, s')
    ensures c < |s'.clients| && StartsAt(s, c, path, k, s'.clients[c].call)
  {
    hide Unique, Elements, IgetOk;
    var m: State :|
      && (if path != [] && path[0] == '/' then DoIget(s, c, ROOTDEV, ROOTINO, k, m) else DoIdup(s, c, k, m))
      && k < |m.es| && c < |m.clients|
      && s' == m.(clients := m.clients[c := Client(Loop(k, path), NewCall(s, c, path, parent, Key(m.es[k])))]);
    if path != [] && path[0] == '/' { IgetKeeps(s, c, ROOTDEV, ROOTINO, k, m); } else { IdupKeeps(s, c, k, m); }
  }

  /** A client outside any call that is next found at a path has begun namex there. */
  lemma NamexStarts(trees: seq<Tree>, states: seq<State>, k: nat, k': nat, c: nat)
    requires IsRun(trees, states) && k' == k + 1 && k' < |states| && c < |states[k].clients|
    requires c < |states[k'].clients| && states[k].clients[c].pc == Idle && states[k'].clients[c].pc.Loop?
    ensures var Client(pc, call) := states[k'].clients[c]; StartsAt(states[k], c, pc.path, pc.ip, call)
  {
    var s, s' := states[k], states[k'];
    RunInv(trees, states, k);
    assert Next(trees[k], s, s');
    var d := StepBy(trees[k], s, s');
    hide Inv, NamexStep, SingleCall, Begin, StartsAt;
    if NamexStep(trees[k], s, d, s') { NamexNotIdle(trees[k], s, d, s'); }
    else if SingleCall(s, d, s') { SingleStays(s, d, s'); }
    else {
      var path: string, parent: bool, ip: nat :| Begin(s, d, path, parent, ip, s');
      BeginLoops(s, d, path, parent, ip, s');
      BeginStarts(s, d, path, parent, ip, s');
    }
  }

  lemma NamexNotIdle(t: Tree, s: State, c: nat, s': State)
    requires NamexStep(t, s, c, s')
    ensures c < |s.clients| == |s'.clients| && s.clients[c].pc != Idle && s'.clients[c].call == s.clients[c].call
  {
    hide IgetOk, SkipOk;
  }

  lemma SingleStays(s: State, c: nat, s': State)
    requires SingleCall(s, c, s')
    ensures c < |s.clients| == |s'.clients| && s.clients[c].pc == Idle && !s'.clients[c].pc.Loop?
  {
    hide IgetOk;
  }

  /** The call a client is in stays the same until it returns. */
  lemma {:induction false} SameCall(trees: seq<Tree>, states: seq<State>, j: nat, k: nat, c: nat)
    requires IsRun(trees, states) && j <= k < |states|
    requires forall i :: j <= i <= k ==> c < |states[i].clients| && states[i].clients[c].pc != Idle
    ensures states[k].clients[c].call == states[j].clients[c].call
    decreases k
  {
    if j < k {
      var i := k - 1;
      SameCall(trees, states, j, i, c);
      RunInv(trees, states, i);
      assert Next(trees[i], states[i], states[k]);
      var d := StepBy(trees[i], states[i], states[k]);
      hide Inv, NamexStep, SingleCall, Begin;
      if NamexStep(trees[i], states[i], d, states[k]) { NamexNotIdle(trees[i], states[i], d, states[k]); }
      else if SingleCall(states[i], d, states[k]) { SingleStays(states[i], d, states[k]); }
      else {
        var path: string, parent: bool, ip: nat :| Begin(states[i], d, path, parent, ip, states[k]);
        BeginIdle(states[i], d, path, parent, ip, states[k]);
      }
    }
  }

  lemma BeginIdle(s: State, c: nat, path: string, parent: bool, k: nat, s': State)
    requires Begin(s, c, path, parent, k, s')
    ensures c < |s.clients| && s.clients[c].pc == Idle
  {
    hide IgetOk;
  }

  // ---- The name nameiparent returns ----

  predicate Suffix(a: seq<string>, b: seq<string>) { |a| <= |b| && a == b[|b| - |a|..] }

  predicate KontName(k: Kont, names: seq<string>) {
    match k
    case ToParent(name) => names != [] && name == names[|names| - 1]
    case ToNext(_, rest) => Suffix(Rest(rest), names)
    case _ => true
  }

  /** What is left of the path is the end of it. */
  predicate NameOk(cl: Client) {
    var names := cl.call.names;
    match cl.pc
    case Idle => true
    case Loop(_, path) => Suffix(Rest(path), names)
    case WantLock(_, name, rest) => Suffix([name] + Rest(rest), names) && (rest == [] <==> Rest(rest) == [])
    case Look(_, name, rest) => Suffix([name] + Rest(rest), names) && (rest == [] <==> Rest(rest) == [])
    case Get(_, _, rest) => Suffix(Rest(rest), names)
    case Unlocking(_, k) => KontName(k, names)
    case Putting(_, k) => KontName(k, names)
    case Freeing(_, k, _) => KontName(k, names)
    case Ret(r, name) => r.Some? && cl.call.parent ==> names != [] && name == names[|names| - 1]
  }

  lemma SuffixRest(name: string, rest: seq<string>, names: seq<string>)
    requires Suffix([name] + rest, names)
    ensures Suffix(rest, names) && (rest == [] ==> names != [] && name == names[|names| - 1])
  {
    var ts := [name] + rest;
    assert ts[1..] == rest;
    assert names[|names| - |ts|..][1..] == names[|names| - |rest|..];
    assert ts[0] == names[|names| - |ts|];
  }

  lemma NameStep(t: Tree, s: State, c: nat, s': State)
    requires NamexStep(t, s, c, s') && c < |s'.clients| && NameOk(s.clients[c])
    ensures NameOk(s'.clients[c])
  {
    hide DoLock, DoLoad, DoIget, DoUnlock, DoPut, DoFreed, DoErase, SkipOk, Rest, Suffix;
    var Client(pc, call) := s.clients[c];
    NamexNotIdle(t, s, c, s');
    if pc.Loop? { NameScan(s, c, s'); }
    else if pc.Look? { SuffixRest(pc.name, Rest(pc.rest), call.names); }
  }

  lemma NameScan(s: State, c: nat, s': State)
    requires c < |s.clients| && s.clients[c].pc.Loop? && Scan(s, c, s') && c < |s'.clients| && NameOk(s.clients[c])
    ensures NameOk(s'.clients[c])
  {
    hide SkipOk, Elements;
    var Client(pc, call) := s.clients[c];
    var r: Skip :| SkipOk(pc.path, r) &&
      match r
      case NoMore => s' == With(s, c, if call.parent then Putting(pc.ip, ToFail) else Ret(Some(pc.ip), ""))
      case Elem(name, rest) => s' == With(s, c, WantLock(pc.ip, name, rest));
    hide Rest;
    ScanWalk(Tree({}, map[]), Id(0, 0), pc.path, call.parent, r);
  }

  lemma {:induction false} RunNames(trees: seq<Tree>, states: seq<State>, k: nat, c: nat)
    requires IsRun(trees, states) && k < |states| && c < |states[k].clients|
    ensures NameOk(states[k].clients[c])
  {
    if k > 0 {
      var i := k - 1;
      RunInv(trees, states, i);
      assert Next(trees[i], states[i], states[k]);
      var d := StepBy(trees[i], states[i], states[k]);
      hide Inv, NamexStep, SingleCall, Begin, NameOk;
      RunNames(trees, states, i, c);
      if d == c { NameMoves(trees[i], states[i], c, states[k]); }
    }
  }

  lemma NameMoves(t: Tree, s: State, c: nat, s': State)
    requires Inv(s) && ClientStep(t, s, c, s') && c < |s.clients| && c < |s'.clients| && NameOk(s.clients[c])
    ensures NameOk(s'.clients[c])
  {
    hide Inv, NamexStep, SingleCall, Begin, NameOk, StartsAt;
    if NamexStep(t, s, c, s') { NameStep(t, s, c, s'); }
    else if SingleCall(s, c, s') { SingleName(s, c, s'); }
    else {
      var path: string, parent: bool, ip: nat :| Begin(s, c, path, parent, ip, s');
      BeginName(s, c, path, parent, ip, s');
    }
  }

  lemma SingleName(s: State, c: nat, s': State)
    requires SingleCall(s, c, s') && c < |s'.clients|
    ensures NameOk(s'.clients[c])
  {
    hide IgetOk;
  }

  lemma BeginName(s: State, c: nat, path: string, parent: bool, k: nat, s': State)
    requires Inv(s) && Begin(s, c, path, parent, k, s') && c < |s'.clients|
    ensures NameOk(s'.clients[c])
  {
    BeginLoops(s, c, path, parent, k, s');
    BeginStarts(s, c, path, parent, k, s');
    hide Begin, Inv, Elements;
    assert Rest(path) == s'.clients[c].call.names;
  }

  /** nameiparent returns the last element of the path, cut to DIRSIZ, whatever happens to the
      directories meanwhile. */
  lemma ParentName(trees: seq<Tree>, states: seq<State>, k: nat, c: nat)
    requires IsRun(trees, states) && k < |states| && c < |states[k].clients|
    requires states[k].clients[c].pc.Ret? && states[k].clients[c].pc.r.Some? && states[k].clients[c].call.parent
    ensures var Client(pc, call) := states[k].clients[c]; call.names != [] && pc.name == call.names[|call.names| - 1]
  {
    RunNames(trees, states, k, c);
  }

  // ---- A whole call ----

  /** A whole call of namex, in any interleaving with others while the directories stay the same: from
      the root or the inode the client started at, it returns the inode the path names in the tree, or
      fails exactly when there is none; and the client then has the locks it had when it called, and
      its pointers with one to the result. */
  lemma NamexCall(t: Tree, trees: seq<Tree>, states: seq<State>, b: nat, j: nat, k: nat, c: nat)
    requires IsRun(trees, states) && (forall i :: 0 <= i < |trees| ==> trees[i] == t) && j == b + 1 && j <= k < |states|
    requires c < |states[b].clients| && states[b].clients[c].pc == Idle
    requires forall i :: j <= i <= k ==> c < |states[i].clients| && states[i].clients[c].pc != Idle
    requires states[j].clients[c].pc.Loop? && states[k].clients[c].pc.Ret?
    ensures var Client(Loop(ip, path), call) := states[j].clients[c]; var r := states[k].clients[c].pc.r;
            && StartsAt(states[b], c, path, ip, call) && (r.Some? ==> r.value < |states[k].es|)
            && Walk(t, call.start, Truncated(Elements(path)), call.parent) ==
                 (if r.Some? then Some(Key(states[k].es[r.value])) else None)
            && |states[b].who| == |states[k].who| == |states[b].holder| == |states[k].holder| == NINODE
            && forall e: nat :: e < NINODE ==>
                 && states[k].who[e][c] == states[b].who[e][c] + (if r == Some(e) then 1 else 0)
                 && (states[k].holder[e] == Some(c) <==> states[b].holder[e] == Some(c))
  {
    NamexStarts(trees, states, b, j, c);
    SameCall(trees, states, j, k, c);
    NamexFinds(t, trees, states, k, c);
    RunInv(trees, states, b);
    RunInv(trees, states, k);
    hide Inv, IsRun, Walk, Elements;
    forall e: nat | e < NINODE
      ensures && |states[k].who| == |states[k].holder| == NINODE
              && states[k].who[e][c] == states[b].who[e][c] + (if states[k].clients[c].pc.r == Some(e) then 1 else 0)
              && (states[k].holder[e] == Some(c) <==> states[b].holder[e] == Some(c))
    {
      NamexBalanced(trees, states, k, c, e);
    }
  }
}
