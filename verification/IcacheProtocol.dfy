/** Any number of clients using the inode cache at once: processes walking paths with namex, and
    holders of inode pointers (processes, open files) calling iget, idup, ilock, iunlock and iput.
    Each step is one critical section.  The directory tree may be a different one at every step. */
module IcacheProtocol {
  import opened Blocks
  import opened Options
  import opened Paths
  import opened Icache

  const ROOTINO: nat := 1

  datatype Id = Id(dev: nat, inum: nat)

  function Key(e: Entry): Id { Id(e.dev, e.inum) }

  /** Which inodes are directories, and the inode number each directory gives a name. */
  datatype Tree = Tree(dirs: set<Id>, names: map<(Id, string), nat>)

  /** What to do after an iunlock or iput. */
  datatype Kont = ToIdle | ToFail | ToParent(name: string) | ToNext(next: nat, rest: string)

  /** Where a client is.  `Idle` clients make single calls; the others are inside namex, or inside
      an iput of their own (ToIdle).  namex returns an inode and, to nameiparent, a name. */
  datatype Pc =
    | Idle
    | Loop(ip: nat, path: string)
    | WantLock(ip: nat, name: string, rest: string)
    | Look(ip: nat, name: string, rest: string)
    | Get(ip: nat, inum: nat, rest: string)
    | Unlocking(ip: nat, k: Kont)
    | Putting(ip: nat, k: Kont)
    | Freeing(ip: nat, k: Kont, erased: bool)
    | Ret(r: Option<nat>, name: string)

  /** A call in progress: its arguments, and the pointers and locks its client had before it. */
  datatype Call = Call(parent: bool, start: Id, names: seq<string>, base: seq<nat>, locks: set<nat>)

  datatype Client = Client(pc: Pc, call: Call)

  /** `who[e]` are the clients with a pointer to entry `e`, counted; `holder[e]` has it locked; `links`
      are the inodes allocated on disk, with their link counts. */
  datatype State = State(es: seq<Entry>, who: seq<multiset<nat>>, holder: seq<Option<nat>>, clients: seq<Client>,
      panicked: bool, links: map<Id, nat>)

  ghost predicate Shaped(s: State) {
    |s.es| == NINODE && |s.who| == NINODE && |s.holder| == NINODE
  }

  // ---- Steps on the cache ----

  function With(s: State, c: nat, pc: Pc): State
    requires c < |s.clients|
  {
    s.(clients := s.clients[c := s.clients[c].(pc := pc)])
  }

  /** iget by client `c` gives entry `k`. */
  ghost predicate DoIget(s: State, c: nat, dev: nat, inum: nat, k: nat, s': State) {
    && k < |s.who| && IgetOk(s.es, dev, inum, Some(k), s'.es)
    && s' == s.(es := s'.es, who := s.who[k := s.who[k] + multiset{c}])
  }

  ghost predicate DoIdup(s: State, c: nat, k: nat, s': State)
  {
    && k < |s.who| && k < |s.es| && c in s.who[k]
    && s' == s.(es := s.es[k := Referenced(s.es[k])], who := s.who[k := s.who[k] + multiset{c}])
  }

  /** ilock gets the lock; it panics without a reference, and no step is possible while it is busy. */
  ghost predicate DoLock(s: State, c: nat, k: nat, s': State) {
    && k < |s.es| && k < |s.holder|
    && if s.es[k].ref < 1 then s' == s.(panicked := true)
       else !s.es[k].busy && s' == s.(es := s.es[k := s.es[k].(busy := true)], holder := s.holder[k := Some(c)])
  }

  /** The end of ilock: the lock holder reads the inode from disk unless it is there already. */
  ghost predicate DoLoad(s: State, c: nat, k: nat, s': State) {
    && k < |s.es| && k < |s.holder| && s.holder[k] == Some(c)
    && if s.es[k].valid then s' == s
       else && Key(s.es[k]) in s.links
            && s' == s.(es := s.es[k := s.es[k].(valid := true, nlink := s.links[Key(s.es[k])])])
  }

  /** The lock holder changes the link count, in memory and on disk. */
  ghost predicate DoRelink(s: State, c: nat, k: nat, n: nat, s': State) {
    && k < |s.es| && k < |s.holder| && s.holder[k] == Some(c) && s.es[k].valid
    && s' == s.(es := s.es[k := s.es[k].(nlink := n)], links := s.links[Key(s.es[k]) := n])
  }

  /** ialloc takes a free inode on disk. */
  ghost predicate DoAlloc(s: State, id: Id, s': State) { id !in s.links && s' == s.(links := s.links[id := 0]) }

  ghost predicate DoUnlock(s: State, c: nat, k: nat, s': State) {
    && k < |s.es| && k < |s.holder|
    && if !s.es[k].busy || s.es[k].ref < 1 then s' == s.(panicked := true)
       else s' == s.(es := s.es[k := s.es[k].(busy := false)], holder := s.holder[k := None])
  }

  /** iput's first critical section. */
  ghost predicate DoPut(s: State, c: nat, k: nat, s': State) {
    && k < |s.es| && k < |s.holder| && k < |s.who| && s.es[k].ref > 0
    && match PutOutcome(s.es[k])
       case PanicBusy => s' == s.(panicked := true)
       case MustFree => s' == s.(es := s.es[k := s.es[k].(busy := true)], holder := s.holder[k := Some(c)])
       case Dropped => s' == s.(es := s.es[k := s.es[k].(ref := s.es[k].ref - 1)],
           who := s.who[k := s.who[k] - multiset{c}])
  }

  /** Between iput's critical sections: the inode is truncated and free on disk. */
  ghost predicate DoErase(s: State, k: nat, s': State) {
    k < |s.es| && s' == s.(links := s.links - {Key(s.es[k])})
  }

  /** iput's second critical section, once the inode has been freed. */
  ghost predicate DoFreed(s: State, c: nat, k: nat, s': State) {
    && k < |s.es| && k < |s.holder| && k < |s.who| && s.es[k].ref > 0
    && s' == s.(es := s.es[k := s.es[k].(busy := false, valid := false, ref := s.es[k].ref - 1)],
                who := s.who[k := s.who[k] - multiset{c}], holder := s.holder[k := None])
  }

  // ---- Steps of a client ----

  function Counts(s: State, c: nat): (r: seq<nat>)
    ensures |r| == |s.who| && forall e :: 0 <= e < |r| ==> r[e] == s.who[e][c]
  {
    seq(|s.who|, e requires 0 <= e < |s.who| => s.who[e][c])
  }

  function Locks(s: State, c: nat): (r: set<nat>)
    ensures forall e: nat :: e in r <==> e < |s.holder| && s.holder[e] == Some(c)
  {
    set e: nat | e < |s.holder| && s.holder[e] == Some(c)
  }

  function AfterPut(k: Kont): Pc {
    match k
    case ToIdle => Idle
    case ToNext(next, rest) => Loop(next, rest)
    case _ => Ret(None, "")
  }

  /** The arguments of a namex call made in state `s`. */
  function NewCall(s: State, c: nat, path: string, parent: bool, start: Id): Call {
    Call(parent, start, Truncated(Elements(path)), Counts(s, c), Locks(s, c))
  }

  /** The start of namex: the root, or the current directory, which the client has a pointer to. */
  ghost predicate Begin(s: State, c: nat, path: string, parent: bool, k: nat, s': State) {
    && c < |s.clients| && s.clients[c].pc == Idle && k < |s.es|
    && exists m: State ::
         && (if path != [] && path[0] == '/' then DoIget(s, c, ROOTDEV, ROOTINO, k, m) else DoIdup(s, c, k, m))
         && k < |m.es| && c < |m.clients|
         && s' == m.(clients := m.clients[c := Client(Loop(k, path), NewCall(s, c, path, parent, Key(m.es[k])))])
  }

  /** The next path element, or the end of the loop. */
  ghost predicate Scan(s: State, c: nat, s': State)
    requires c < |s.clients| && s.clients[c].pc.Loop?
  {
    var Client(pc, call) := s.clients[c];
    exists r: Skip :: SkipOk(pc.path, r) &&
      match r
      case NoMore => s' == With(s, c, if call.parent then Putting(pc.ip, ToFail) else Ret(Some(pc.ip), ""))
      case Elem(name, rest) => s' == With(s, c, WantLock(pc.ip, name, rest))
  }

  /** With the directory locked: load it, check its type, and look the name up. */
  function LookNext(t: Tree, e: Entry, pc: Pc, parent: bool): Pc
    requires pc.Look?
  {
    if Key(e) !in t.dirs then Unlocking(pc.ip, ToFail)
    else if parent && pc.rest == [] then Unlocking(pc.ip, ToParent(pc.name))
    else if (Key(e), pc.name) !in t.names then Unlocking(pc.ip, ToFail)
    else Get(pc.ip, t.names[(Key(e), pc.name)], pc.rest)
  }

  ghost predicate NamexStep(t: Tree, s: State, c: nat, s': State) {
    && c < |s.clients|
    && var pc := s.clients[c].pc;
       match pc
       case Loop(_, _) => Scan(s, c, s')
       case WantLock(ip, name, rest) => exists m: State ::
           DoLock(s, c, ip, m) && |m.clients| == |s.clients| && s' == With(m, c, Look(ip, name, rest))
       case Look(ip, _, _) =>
         exists m: State ::
             DoLoad(s, c, ip, m) && |m.clients| == |s.clients| && ip < |s.es|
                 && s' == With(m, c, LookNext(t, s.es[ip], pc, s.clients[c].call.parent))
       case Get(ip, inum, rest) =>
         ip < |s.es| && exists m: State, k: nat ::
             DoIget(s, c, s.es[ip].dev, inum, k, m) && |m.clients| == |s.clients|
                 && s' == With(m, c, Unlocking(ip, ToNext(k, rest)))
       case Unlocking(ip, k) =>
         exists m: State ::
             DoUnlock(s, c, ip, m) && |m.clients| == |s.clients|
                 && s' == With(m, c, if k.ToParent? then Ret(Some(ip), k.name) else Putting(ip, k))
       case Putting(ip, k) =>
         && ip < |s.es|
         && exists m: State ::
              DoPut(s, c, ip, m) && |m.clients| == |s.clients|
                  && s' == With(m, c, if PutOutcome(s.es[ip]) == MustFree then Freeing(ip, k, false) else AfterPut(k))
       case Freeing(ip, k, false) => exists m: State ::
           DoErase(s, ip, m) && |m.clients| == |s.clients| && s' == With(m, c, Freeing(ip, k, true))
       case Freeing(ip, k, true) => exists m: State ::
           DoFreed(s, c, ip, m) && |m.clients| == |s.clients| && s' == With(m, c, AfterPut(k))
       case Ret(_, _) => s' == With(s, c, Idle)
       case Idle => false
  }

  /** A single call by a client outside namex.  It locks and duplicates what it has a pointer to,
      unlocks what it has locked, and drops a pointer it has; when it drops one to an inode it has
      locked, it keeps another. */
  ghost predicate SingleCall(s: State, c: nat, s': State) {
    && c < |s.clients| && s.clients[c].pc == Idle
    && (|| (exists dev: nat, inum: nat, k: nat :: DoIget(s, c, dev, inum, k, s'))
        || (exists k: nat :: DoIdup(s, c, k, s'))
        || (exists k: nat :: k < |s.who| && c in s.who[k] && DoLock(s, c, k, s'))
        || (exists k: nat :: DoLoad(s, c, k, s'))
        || (exists k: nat, n: nat :: DoRelink(s, c, k, n, s'))
        || (exists id: Id :: DoAlloc(s, id, s'))
        || (exists k: nat :: k < |s.holder| && s.holder[k] == Some(c) && DoUnlock(s, c, k, s'))
        || (exists k: nat ::
             k < |s.who| && k < |s.holder| && c in s.who[k] && (s.holder[k] == Some(c) ==> s.who[k][c] >= 2)
                 && s' == BeginPut(s, c, k)))
  }

  function BeginPut(s: State, c: nat, k: nat): State
    requires c < |s.clients| && k < |s.who| && c in s.who[k]
  {
    var base := Counts(s, c);
    s.(clients := s.clients[c := Client(Putting(k, ToIdle),
        Call(false, Id(0, 0), [], base[k := base[k] - 1], Locks(s, c)))])
  }

  ghost predicate ClientStep(t: Tree, s: State, c: nat, s': State) {
    || NamexStep(t, s, c, s')
    || SingleCall(s, c, s')
    || (exists path: string, parent: bool, k: nat :: Begin(s, c, path, parent, k, s'))
  }

  ghost predicate Next(t: Tree, s: State, s': State) {
    !s.panicked && exists c: nat :: ClientStep(t, s, c, s')
  }

  ghost predicate Init(s: State) {
    && Shaped(s) && !s.panicked
    && (forall e ::
         0 <= e < NINODE ==> s.es[e].ref == 0 && !s.es[e].busy && s.who[e] == multiset{} && s.holder[e] == None)
    && forall c :: 0 <= c < |s.clients| ==> s.clients[c].pc == Idle
  }

  ghost predicate IsRun(trees: seq<Tree>, states: seq<State>) {
    && |states| == |trees| + 1 && Init(states[0])
    && forall k, k' :: 0 <= k < |trees| && k' == k + 1 ==> Next(trees[k], states[k], states[k'])
  }

  // ---- Invariants ----

  ghost predicate EntryOk(s: State, e: nat)
    requires Shaped(s) && e < NINODE
  {
    && s.es[e].ref == |s.who[e]| && (s.es[e].busy <==> s.holder[e].Some?)
    && (s.holder[e].Some? ==> s.holder[e].value in s.who[e])
  }

  ghost predicate Core(s: State) {
    && Shaped(s) && !s.panicked && Unique(s.es)
    && forall e: nat :: e < NINODE ==> EntryOk(s, e)
  }

  /** Pointers the call in progress has taken for itself. */
  function Mine(pc: Pc, e: nat): nat {
    match pc
    case Idle => 0
    case Ret(r, _) => if r == Some(e) then 1 else 0
    case Unlocking(ip, k) => (if ip == e then 1 else 0) + (if k.ToNext? && k.next == e then 1 else 0)
    case Putting(ip, k) => (if ip == e then 1 else 0) + (if k.ToNext? && k.next == e then 1 else 0)
    case Freeing(ip, k, _) => (if ip == e then 1 else 0) + (if k.ToNext? && k.next == e then 1 else 0)
    case _ => if pc.ip == e then 1 else 0
  }

  /** The entry the call in progress has locked. */
  predicate HasLocked(pc: Pc, e: nat) {
    (pc.Look? || pc.Get? || pc.Unlocking? || pc.Freeing?) && pc.ip == e
  }

  predicate PcOk(pc: Pc) {
    match pc
    case Idle => true
    case Ret(r, _) => r.Some? ==> r.value < NINODE
    case Unlocking(ip, k) => ip < NINODE && (k.ToNext? ==> k.next < NINODE) && k != ToIdle
    case Putting(ip, k) => ip < NINODE && (k.ToNext? ==> k.next < NINODE) && !k.ToParent?
    case Freeing(ip, k, _) => ip < NINODE && (k.ToNext? ==> k.next < NINODE) && !k.ToParent?
    case _ => pc.ip < NINODE
  }

  /** One client and one entry: the client's pointers are those it had before the call plus the
      call's own, and likewise its locks. */
  ghost predicate Balanced(s: State, c: nat, e: nat)
    requires Shaped(s) && c < |s.clients| && e < NINODE
  {
    var Client(pc, call) := s.clients[c];
    && |call.base| == NINODE && s.who[e][c] == call.base[e] + Mine(pc, e)
    && (s.holder[e] == Some(c) <==> e in call.locks || HasLocked(pc, e))
    && (e in call.locks ==> call.base[e] >= 1 && !HasLocked(pc, e))
  }

  ghost predicate ClientOk(s: State, c: nat)
    requires Shaped(s) && c < |s.clients|
  {
    PcOk(s.clients[c].pc) && (s.clients[c].pc != Idle ==> forall e: nat :: e < NINODE ==> Balanced(s, c, e))
  }

  ghost predicate Inv(s: State) {
    Core(s) && forall c: nat :: c < |s.clients| ==> ClientOk(s, c)
  }

  // ---- Every step keeps the core ----

  lemma OnlyOne(m: multiset<nat>, c: nat, d: nat)
    requires |m| == 1 && c in m && d in m
    ensures c == d && m[c] == 1
  {
    assert m == multiset{c} + (m - multiset{c});
    assert |m - multiset{c}| == 0;
    assert m - multiset{c} == multiset{};
  }

  lemma SomeOne(m: multiset<nat>, c: nat)
    requires c in m
    ensures |m| > 0
  {
    assert m == multiset{c} + (m - multiset{c});
  }

  lemma IgetKeeps(s: State, c: nat, dev: nat, inum: nat, k: nat, s': State)
    requires Core(s) && DoIget(s, c, dev, inum, k, s')
    ensures Core(s') && Key(s'.es[k]) == Id(dev, inum)
    ensures forall e: nat :: e < NINODE && s.es[e].ref > 0 ==> Key(s'.es[e]) == Key(s.es[e])
  {
    IgetUnique(s.es, dev, inum, Some(k), s'.es);
    hide Unique;
    forall e: nat | e < NINODE ensures EntryOk(s', e) { assert EntryOk(s, e); }
  }

  lemma IdupKeeps(s: State, c: nat, k: nat, s': State)
    requires Core(s) && DoIdup(s, c, k, s')
    ensures Core(s')
    ensures forall e: nat :: e < NINODE ==> Key(s'.es[e]) == Key(s.es[e])
  {
    assert EntryOk(s, k);
    SomeOne(s.who[k], c);
    forall e: nat | e < NINODE ensures EntryOk(s', e) { assert EntryOk(s, e); }
  }

  lemma LockKeeps(s: State, c: nat, k: nat, s': State)
    requires Core(s) && DoLock(s, c, k, s') && c in s.who[k]
    ensures Core(s') && s.holder[k] == None && s'.holder[k] == Some(c)
    ensures forall e: nat :: e < NINODE ==> Key(s'.es[e]) == Key(s.es[e])
  {
    assert EntryOk(s, k);
    SomeOne(s.who[k], c);
    forall e: nat | e < NINODE ensures EntryOk(s', e) { assert EntryOk(s, e); }
  }

  lemma LoadKeeps(s: State, c: nat, k: nat, s': State)
    requires Core(s) && (DoLoad(s, c, k, s') || exists n: nat :: DoRelink(s, c, k, n, s'))
    ensures Core(s')
    ensures forall e: nat :: e < NINODE ==> Key(s'.es[e]) == Key(s.es[e])
  {
    forall e: nat | e < NINODE ensures EntryOk(s', e) { assert EntryOk(s, e); }
  }

  lemma UnlockKeeps(s: State, c: nat, k: nat, s': State)
    requires Core(s) && DoUnlock(s, c, k, s') && s.holder[k] == Some(c)
    ensures Core(s') && s'.holder[k] == None
    ensures forall e: nat :: e < NINODE ==> Key(s'.es[e]) == Key(s.es[e])
  {
    assert EntryOk(s, k);
    SomeOne(s.who[k], c);
    forall e: nat | e < NINODE ensures EntryOk(s', e) { assert EntryOk(s, e); }
  }

  /** iput by a client that keeps a pointer when it has the inode locked never finds it busy with
      the last reference. */
  lemma PutKeeps(s: State, c: nat, k: nat, s': State)
    requires Core(s) && DoPut(s, c, k, s') && c in s.who[k] && (s.holder[k] == Some(c) ==> s.who[k][c] >= 2)
    ensures Core(s') && PutOutcome(s.es[k]) != PanicBusy
    ensures PutOutcome(s.es[k]) == MustFree ==> s.holder[k] == None
    ensures forall e: nat :: e < NINODE ==> Key(s'.es[e]) == Key(s.es[e])
  {
    assert EntryOk(s, k);
    if s.es[k].busy && s.es[k].ref == 1 {
      OnlyOne(s.who[k], c, s.holder[k].value);
      assert false;
    }
    forall e: nat | e < NINODE ensures EntryOk(s', e) { assert EntryOk(s, e); }
  }

  lemma FreedKeeps(s: State, c: nat, k: nat, s': State)
    requires Core(s) && DoFreed(s, c, k, s') && s.holder[k] == Some(c)
    ensures Core(s')
    ensures forall e: nat :: e < NINODE ==> Key(s'.es[e]) == Key(s.es[e])
  {
    assert EntryOk(s, k);
    forall e: nat | e < NINODE ensures EntryOk(s', e) { assert EntryOk(s, e); }
  }

  // ---- Every step keeps every client balanced ----

  /** A step by `c` leaves the pointers and locks of the other clients alone. */
  ghost predicate OthersAlone(s: State, s': State, c: nat)
    requires Shaped(s) && Shaped(s')
  {
    && |s'.clients| == |s.clients| && (forall d: nat :: d < |s.clients| && d != c ==> s'.clients[d] == s.clients[d])
    && forall d: nat, e: nat :: d != c && e < NINODE ==>
         s'.who[e][d] == s.who[e][d] && (s'.holder[e] == Some(d) <==> s.holder[e] == Some(d))
  }

  /** An entry in use keeps its inode. */
  ghost predicate KeysKept(s: State, s': State)
    requires Shaped(s) && Shaped(s')
  {
    forall e: nat :: e < NINODE && s.es[e].ref > 0 ==> Key(s'.es[e]) == Key(s.es[e])
  }

  lemma InvFrom(s: State, s': State, c: nat)
    requires Inv(s) && Core(s') && OthersAlone(s, s', c) && c < |s.clients| && ClientOk(s', c)
    ensures Inv(s')
  {
    hide Core;
    assert Shaped(s) && Shaped(s') by { CoreShaped(s); CoreShaped(s'); }
    forall d: nat | d < |s'.clients| ensures ClientOk(s', d) {
      if d != c {
        assert ClientOk(s, d);
        if s.clients[d].pc != Idle {
          forall e: nat | e < NINODE ensures Balanced(s', d, e) { assert Balanced(s, d, e); }
        }
      }
    }
  }

  lemma CoreShaped(s: State)
    requires Core(s)
    ensures Shaped(s)
  {}

  /** Where the walk stands. */
  function Walk(t: Tree, d: Id, names: seq<string>, parent: bool): Option<Id>
    decreases |names|
  {
    if names == [] then if parent then None else Some(d)
    else if d !in t.dirs then None
    else if parent && |names| == 1 then Some(d)
    else if (d, names[0]) !in t.names then None
    else Walk(t, Id(d.dev, t.names[(d, names[0])]), names[1..], parent)
  }

  function Rest(path: string): seq<string> { Truncated(Elements(path)) }

  ghost predicate KontWalk(t: Tree, s: State, call: Call, ip: nat, k: Kont, w: Option<Id>)
    requires Shaped(s) && ip < NINODE && (k.ToNext? ==> k.next < NINODE)
  {
    match k
    case ToIdle => true
    case ToFail => w == None
    case ToParent(_) => w == Some(Key(s.es[ip]))
    case ToNext(next, rest) => w == Walk(t, Key(s.es[next]), Rest(rest), call.parent)
  }

  /** The rest of the call in tree `t` gives what the whole call gives. */
  ghost predicate WalkOk(t: Tree, s: State, c: nat)
    requires Shaped(s) && c < |s.clients|
  {
    var Client(pc, call) := s.clients[c];
    var w := Walk(t, call.start, call.names, call.parent);
    PcOk(pc) &&
    match pc
    case Idle => true
    case Loop(ip, path) => w == Walk(t, Key(s.es[ip]), Rest(path), call.parent)
    case WantLock(ip, name, rest) => w == Walk(t, Key(s.es[ip]), [name] + Rest(rest), call.parent)
        && (rest == [] <==> Rest(rest) == [])
    case Look(ip, name, rest) => w == Walk(t, Key(s.es[ip]), [name] + Rest(rest), call.parent)
        && (rest == [] <==> Rest(rest) == [])
    case Get(ip, inum, rest) => w == Walk(t, Id(s.es[ip].dev, inum), Rest(rest), call.parent)
    case Unlocking(ip, k) => KontWalk(t, s, call, ip, k, w)
    case Putting(ip, k) => KontWalk(t, s, call, ip, k, w)
    case Freeing(ip, k, _) => KontWalk(t, s, call, ip, k, w)
    case Ret(r, _) => w == if r.Some? then Some(Key(s.es[r.value])) else None
  }

  /** What every step of client `c` does. */
  ghost predicate StepOk(t: Tree, s: State, c: nat, s': State) {
    && Inv(s) && Inv(s') && c < |s.clients| == |s'.clients|
    && OthersAlone(s, s', c) && KeysKept(s, s') && (WalkOk(t, s, c) ==> WalkOk(t, s', c))
  }

  /** What the loop does with the next element, or without one. */
  function ScanPc(ip: nat, parent: bool, r: Skip): Pc {
    match r
    case NoMore => if parent then Putting(ip, ToFail) else Ret(Some(ip), "")
    case Elem(name, rest) => WantLock(ip, name, rest)
  }

  lemma ScanOk(t: Tree, s: State, c: nat, s': State)
    requires Inv(s) && c < |s.clients| && s.clients[c].pc.Loop? && Scan(s, c, s')
    ensures StepOk(t, s, c, s')
  {
    hide Inv, StepOk, SkipOk;
    var Client(pc, call) := s.clients[c];
    var r: Skip :| SkipOk(pc.path, r) &&
      match r
      case NoMore => s' == With(s, c, if call.parent then Putting(pc.ip, ToFail) else Ret(Some(pc.ip), ""))
      case Elem(name, rest) => s' == With(s, c, WantLock(pc.ip, name, rest));
    ScanStep(t, s, c, r);
  }

  lemma ScanStep(t: Tree, s: State, c: nat, r: Skip)
    requires Inv(s) && c < |s.clients| && s.clients[c].pc.Loop? && SkipOk(s.clients[c].pc.path, r)
    ensures StepOk(t, s, c, With(s, c, ScanPc(s.clients[c].pc.ip, s.clients[c].call.parent, r)))
  {
    hide SkipOk, Walk, Rest, Unique;
    var Client(pc, call) := s.clients[c];
    var s' := With(s, c, ScanPc(pc.ip, call.parent, r));
    assert ClientOk(s, c);
    forall e: nat | e < NINODE ensures Balanced(s', c, e) { assert Balanced(s, c, e); }
    forall e: nat | e < NINODE ensures EntryOk(s', e) { assert EntryOk(s, e); }
    InvFrom(s, s', c);
    ScanWalk(t, Key(s.es[pc.ip]), pc.path, call.parent, r);
  }

  /** One element fewer to walk, or none left. */
  lemma ScanWalk(t: Tree, d: Id, path: string, parent: bool, r: Skip)
    requires SkipOk(path, r)
    ensures r.NoMore? ==> Walk(t, d, Rest(path), parent) == if parent then None else Some(d)
    ensures r.Elem? ==> Rest(path) == [r.name] + Rest(r.rest) && (r.rest == [] <==> Rest(r.rest) == [])
  {
    hide Elements;
    if r.Elem? {
      LastElement(path, r);
      assert Rest(path) == [r.name] + Rest(r.rest);
    }
  }

  lemma LockOk(t: Tree, s: State, c: nat, m: State, s': State)
    requires Inv(s) && c < |s.clients| && s.clients[c].pc.WantLock? && DoLock(s, c, s.clients[c].pc.ip, m)
    requires |m.clients| == |s.clients| && s'
             == With(m, c, Look(s.clients[c].pc.ip, s.clients[c].pc.name, s.clients[c].pc.rest))
    ensures StepOk(t, s, c, s')
  {
    hide Unique, Walk, Rest;
    var ip := s.clients[c].pc.ip;
    assert ClientOk(s, c) && Balanced(s, c, ip);
    LockKeeps(s, c, ip, m);
    forall e: nat | e < NINODE ensures Balanced(s', c, e) { assert Balanced(s, c, e); }
    forall e: nat | e < NINODE ensures EntryOk(s', e) { assert EntryOk(m, e); }
    InvFrom(s, s', c);
  }

  lemma LookOk(t: Tree, s: State, c: nat, m: State, s': State)
    requires Inv(s) && c < |s.clients| && s.clients[c].pc.Look? && DoLoad(s, c, s.clients[c].pc.ip, m)
    requires |m.clients| == |s.clients| && s'
             == With(m, c, LookNext(t, s.es[s.clients[c].pc.ip], s.clients[c].pc, s.clients[c].call.parent))
    ensures StepOk(t, s, c, s')
  {
    hide Unique, Rest;
    var pc := s.clients[c].pc;
    assert ClientOk(s, c) && Balanced(s, c, pc.ip);
    LoadKeeps(s, c, pc.ip, m);
    forall e: nat | e < NINODE ensures Balanced(s', c, e) { assert Balanced(s, c, e); }
    forall e: nat | e < NINODE ensures EntryOk(s', e) { assert EntryOk(m, e); }
    InvFrom(s, s', c);
    assert ([pc.name] + Rest(pc.rest))[1..] == Rest(pc.rest);
  }

  lemma GetOk(t: Tree, s: State, c: nat, k: nat, m: State, s': State)
    requires Inv(s) && c < |s.clients| && s.clients[c].pc.Get? && s.clients[c].pc.ip < |s.es|
    requires DoIget(s, c, s.es[s.clients[c].pc.ip].dev, s.clients[c].pc.inum, k, m)
    requires |m.clients| == |s.clients| && s'
             == With(m, c, Unlocking(s.clients[c].pc.ip, ToNext(k, s.clients[c].pc.rest)))
    ensures StepOk(t, s, c, s')
  {
    hide Unique, Rest, Walk, IgetOk;
    var pc := s.clients[c].pc;
    assert ClientOk(s, c) && Balanced(s, c, pc.ip);
    IgetKeeps(s, c, s.es[pc.ip].dev, pc.inum, k, m);
    forall e: nat | e < NINODE ensures Balanced(s', c, e) { assert Balanced(s, c, e); }
    forall e: nat | e < NINODE ensures EntryOk(s', e) { assert EntryOk(m, e); }
    InvFrom(s, s', c);
  }

  lemma UnlockOk(t: Tree, s: State, c: nat, m: State, s': State)
    requires Inv(s) && c < |s.clients| && s.clients[c].pc.Unlocking? && DoUnlock(s, c, s.clients[c].pc.ip, m)
    requires |m.clients| == |s.clients|
    requires s' == With(m, c, if s.clients[c].pc.k.ToParent? then Ret(Some(s.clients[c].pc.ip), s.clients[c].pc.k.name)
             else Putting(s.clients[c].pc.ip, s.clients[c].pc.k))
    ensures StepOk(t, s, c, s')
  {
    hide Unique, Rest, Walk;
    var pc := s.clients[c].pc;
    assert ClientOk(s, c) && Balanced(s, c, pc.ip);
    UnlockKeeps(s, c, pc.ip, m);
    forall e: nat | e < NINODE ensures Balanced(s', c, e) { assert Balanced(s, c, e); }
    forall e: nat | e < NINODE ensures EntryOk(s', e) { assert EntryOk(m, e); }
    InvFrom(s, s', c);
  }

  lemma PutOk(t: Tree, s: State, c: nat, m: State, s': State)
    requires Inv(s) && c < |s.clients| && s.clients[c].pc.Putting? && s.clients[c].pc.ip < |s.es|
             && DoPut(s, c, s.clients[c].pc.ip, m)
    requires |m.clients| == |s.clients|
    requires s' == With(m, c, if PutOutcome(s.es[s.clients[c].pc.ip]) == MustFree
             then Freeing(s.clients[c].pc.ip, s.clients[c].pc.k, false) else AfterPut(s.clients[c].pc.k))
    ensures StepOk(t, s, c, s') && PutOutcome(s.es[s.clients[c].pc.ip]) != PanicBusy
  {
    hide Unique, Rest, Walk;
    var pc := s.clients[c].pc;
    assert ClientOk(s, c) && Balanced(s, c, pc.ip);
    PutKeeps(s, c, pc.ip, m);
    forall e: nat | e < NINODE ensures s'.clients[c].pc == Idle || Balanced(s', c, e) { assert Balanced(s, c, e); }
    forall e: nat | e < NINODE ensures EntryOk(s', e) { assert EntryOk(m, e); }
    InvFrom(s, s', c);
    NextRef(s, c);
  }

  /** The next directory is in use while the old one is put. */
  lemma NextRef(s: State, c: nat)
    requires Inv(s) && c < |s.clients| && (s.clients[c].pc.Putting? || s.clients[c].pc.Freeing?)
    ensures var k := s.clients[c].pc.k; k.ToNext? ==> k.next < NINODE && s.es[k.next].ref > 0
  {
    var k := s.clients[c].pc.k;
    assert ClientOk(s, c);
    if k.ToNext? {
      assert Balanced(s, c, k.next) && EntryOk(s, k.next);
      SomeOne(s.who[k.next], c);
    }
  }

  lemma EraseOk(t: Tree, s: State, c: nat, m: State, s': State)
    requires Inv(s) && c < |s.clients| && s.clients[c].pc.Freeing? && DoErase(s, s.clients[c].pc.ip, m)
    requires |m.clients| == |s.clients| && s' == With(m, c, s.clients[c].pc.(erased := true))
    ensures StepOk(t, s, c, s')
  {
    hide Unique, Rest, Walk;
    assert ClientOk(s, c);
    forall e: nat | e < NINODE ensures Balanced(s', c, e) { assert Balanced(s, c, e); }
    forall e: nat | e < NINODE ensures EntryOk(s', e) { assert EntryOk(s, e); }
    InvFrom(s, s', c);
  }

  lemma FreedOk(t: Tree, s: State, c: nat, m: State, s': State)
    requires Inv(s) && c < |s.clients| && s.clients[c].pc.Freeing? && DoFreed(s, c, s.clients[c].pc.ip, m)
    requires |m.clients| == |s.clients| && s' == With(m, c, AfterPut(s.clients[c].pc.k))
    ensures StepOk(t, s, c, s')
  {
    hide Unique, Rest, Walk;
    var pc := s.clients[c].pc;
    assert ClientOk(s, c) && Balanced(s, c, pc.ip);
    FreedKeeps(s, c, pc.ip, m);
    forall e: nat | e < NINODE ensures s'.clients[c].pc == Idle || Balanced(s', c, e) { assert Balanced(s, c, e); }
    forall e: nat | e < NINODE ensures EntryOk(s', e) { assert EntryOk(m, e); }
    InvFrom(s, s', c);
    NextRef(s, c);
  }

  lemma BeginOk(t: Tree, s: State, c: nat, path: string, parent: bool, k: nat, s': State)
    requires Inv(s) && Begin(s, c, path, parent, k, s')
    ensures StepOk(t, s, c, s')
  {
    hide Unique, Walk, Elements, IgetOk;
    var m: State :|
      && (if path != [] && path[0] == '/' then DoIget(s, c, ROOTDEV, ROOTINO, k, m) else DoIdup(s, c, k, m))
      && k < |m.es| && c < |m.clients|
      && s' == m.(clients := m.clients[c := Client(Loop(k, path), NewCall(s, c, path, parent, Key(m.es[k])))]);
    if path != [] && path[0] == '/' { IgetKeeps(s, c, ROOTDEV, ROOTINO, k, m); } else { IdupKeeps(s, c, k, m); }
    forall e: nat | e < NINODE ensures Balanced(s', c, e) {
      assert EntryOk(s, e);
    }
    forall e: nat | e < NINODE ensures EntryOk(s', e) { assert EntryOk(m, e); }
    InvFrom(s, s', c);
  }

  /** A single call changes only the cache. */
  lemma IdleOk(t: Tree, s: State, c: nat, s': State)
    requires Inv(s) && c < |s.clients| && s.clients[c].pc == Idle && s'.clients == s.clients
    requires Core(s') && OthersAlone(s, s', c) && KeysKept(s, s')
    ensures StepOk(t, s, c, s')
  {
    hide Core, OthersAlone, KeysKept;
    CoreShaped(s);
    CoreShaped(s');
    assert ClientOk(s', c);
    InvFrom(s, s', c);
  }

  lemma BeginPutOk(t: Tree, s: State, c: nat, k: nat)
    requires Inv(s) && c < |s.clients| && s.clients[c].pc == Idle
    requires k < |s.who| && c in s.who[k] && (s.holder[k] == Some(c) ==> s.who[k][c] >= 2)
    ensures StepOk(t, s, c, BeginPut(s, c, k))
  {
    hide Unique;
    var s' := BeginPut(s, c, k);
    forall e: nat | e < NINODE ensures EntryOk(s', e) && Balanced(s', c, e) { assert EntryOk(s, e); }
    InvFrom(s, s', c);
  }

  lemma SingleOk(t: Tree, s: State, c: nat, s': State)
    requires Inv(s) && SingleCall(s, c, s')
    ensures StepOk(t, s, c, s')
  {
    hide Unique, IgetOk, Inv, StepOk;
    assert Core(s) by { InvCore(s); }
    if dev: nat, inum: nat, k: nat :| DoIget(s, c, dev, inum, k, s') {
      IgetKeeps(s, c, dev, inum, k, s');
      IdleOk(t, s, c, s');
    } else if k: nat :| DoIdup(s, c, k, s') {
      IdupKeeps(s, c, k, s');
      IdleOk(t, s, c, s');
    } else if k: nat :| DoLoad(s, c, k, s') {
      LoadKeeps(s, c, k, s');
      IdleOk(t, s, c, s');
    } else if k: nat, n: nat :| DoRelink(s, c, k, n, s') {
      LoadKeeps(s, c, k, s');
      IdleOk(t, s, c, s');
    } else if id: Id :| DoAlloc(s, id, s') {
      forall e: nat | e < NINODE ensures EntryOk(s', e) { assert EntryOk(s, e); }
      IdleOk(t, s, c, s');
    } else {
      SingleLockOk(t, s, c, s');
    }
  }

  lemma SingleLockOk(t: Tree, s: State, c: nat, s': State)
    requires Inv(s) && c < |s.clients| && s.clients[c].pc == Idle
    requires || (exists k: nat :: k < |s.who| && c in s.who[k] && DoLock(s, c, k, s'))
             || (exists k: nat :: k < |s.holder| && s.holder[k] == Some(c) && DoUnlock(s, c, k, s'))
             || (exists k: nat ::
                  k < |s.who| && k < |s.holder| && c in s.who[k] && (s.holder[k] == Some(c) ==> s.who[k][c] >= 2)
                      && s' == BeginPut(s, c, k))
    ensures StepOk(t, s, c, s')
  {
    hide Unique, Inv, StepOk;
    assert Core(s) by { InvCore(s); }
    if k: nat :| k < |s.who| && c in s.who[k] && DoLock(s, c, k, s') {
      LockKeeps(s, c, k, s');
      IdleOk(t, s, c, s');
    } else if k: nat :| k < |s.holder| && s.holder[k] == Some(c) && DoUnlock(s, c, k, s') {
      UnlockKeeps(s, c, k, s');
      IdleOk(t, s, c, s');
    } else {
      var k: nat :| k < |s.who| && k < |s.holder| && c in s.who[k] && (s.holder[k] == Some(c) ==> s.who[k][c] >= 2)
          && s' == BeginPut(s, c, k);
      BeginPutOk(t, s, c, k);
    }
  }

  lemma InvCore(s: State)
    requires Inv(s)
    ensures Core(s)
  {}

  lemma NamexOk(t: Tree, s: State, c: nat, s': State)
    requires Inv(s) && NamexStep(t, s, c, s')
    ensures StepOk(t, s, c, s')
  {
    hide Inv, StepOk, Scan, DoLock, DoLoad, DoIget, DoUnlock, DoPut, DoErase, DoFreed;
    var pc := s.clients[c].pc;
    match pc {
      case Loop(_, _) => ScanOk(t, s, c, s');
      case WantLock(ip, name, rest) =>
        var m: State :| DoLock(s, c, ip, m) && |m.clients| == |s.clients| && s' == With(m, c, Look(ip, name, rest));
        LockOk(t, s, c, m, s');
      case Look(ip, _, _) =>
        var m: State :| DoLoad(s, c, ip, m) && |m.clients| == |s.clients| && ip < |s.es|
            && s' == With(m, c, LookNext(t, s.es[ip], pc, s.clients[c].call.parent));
        LookOk(t, s, c, m, s');
      case Get(ip, inum, rest) =>
        var m: State, k: nat :| DoIget(s, c, s.es[ip].dev, inum, k, m) && |m.clients| == |s.clients|
            && s' == With(m, c, Unlocking(ip, ToNext(k, rest)));
        GetOk(t, s, c, k, m, s');
      case Unlocking(ip, k) =>
        var m: State :| DoUnlock(s, c, ip, m) && |m.clients| == |s.clients|
            && s' == With(m, c, if k.ToParent? then Ret(Some(ip), k.name) else Putting(ip, k));
        UnlockOk(t, s, c, m, s');
      case Putting(ip, k) =>
        var m: State :| DoPut(s, c, ip, m) && |m.clients| == |s.clients|
            && s' == With(m, c, if PutOutcome(s.es[ip]) == MustFree then Freeing(ip, k, false) else AfterPut(k));
        PutOk(t, s, c, m, s');
      case Freeing(ip, k, false) =>
        var m: State :| DoErase(s, ip, m) && |m.clients| == |s.clients| && s' == With(m, c, Freeing(ip, k, true));
        EraseOk(t, s, c, m, s');
      case Freeing(ip, k, true) =>
        var m: State :| DoFreed(s, c, ip, m) && |m.clients| == |s.clients| && s' == With(m, c, AfterPut(k));
        FreedOk(t, s, c, m, s');
      case Ret(_, _) => RetOk(t, s, c, s');
      case Idle =>
    }
  }

  lemma RetOk(t: Tree, s: State, c: nat, s': State)
    requires Inv(s) && c < |s.clients| && s' == With(s, c, Idle)
    ensures StepOk(t, s, c, s')
  {
    hide Unique;
    forall e: nat | e < NINODE ensures EntryOk(s', e) { assert EntryOk(s, e); }
    InvFrom(s, s', c);
  }

  /** The client that makes a step, and what the step keeps. */
  lemma StepBy(t: Tree, s: State, s': State) returns (c: nat)
    requires Inv(s) && Next(t, s, s')
    ensures ClientStep(t, s, c, s') && StepOk(t, s, c, s')
  {
    hide Inv, StepOk, NamexStep, SingleCall, Begin;
    c :| ClientStep(t, s, c, s');
    if NamexStep(t, s, c, s') {
      NamexOk(t, s, c, s');
    } else if SingleCall(s, c, s') {
      SingleOk(t, s, c, s');
    } else {
      var path: string, parent: bool, k: nat :| Begin(s, c, path, parent, k, s');
      BeginOk(t, s, c, path, parent, k, s');
    }
  }

  // ---- Runs ----

  lemma {:induction false} RunInv(trees: seq<Tree>, states: seq<State>, k: nat)
    requires IsRun(trees, states) && k < |states|
    ensures Inv(states[k])
  {
    if k == 0 {
      forall e: nat | e < NINODE ensures EntryOk(states[0], e) {}
    } else {
      hide Inv, Next, Init;
      var j := k - 1;
      RunInv(trees, states, j);
      var c := StepBy(trees[j], states[j], states[k]);
    }
  }

  /** In every run, whatever the directories: each inode is in use in at most one entry, an entry's
      reference count is the number of pointers to it, and the panics "ilock", "iunlock" and
      "iput busy" are never reached. */
  lemma ReferencesExact(trees: seq<Tree>, states: seq<State>, k: nat)
    requires IsRun(trees, states) && k < |states|
    ensures var s := states[k];
            && !s.panicked && Unique(s.es) && |s.es| == |s.who| == NINODE
            && forall e: nat :: e < NINODE ==> s.es[e].ref == |s.who[e]|
  {
    RunInv(trees, states, k);
    forall e: nat | e < NINODE ensures states[k].es[e].ref == |states[k].who[e]| { assert EntryOk(states[k], e); }
  }

  /** When namex returns, in any interleaving, its client has the locks it had before, and the
      pointers it had before plus one to the result, or none on failure. */
  lemma NamexBalanced(trees: seq<Tree>, states: seq<State>, k: nat, c: nat, e: nat)
    requires IsRun(trees, states) && k < |states| && c < |states[k].clients| && states[k].clients[c].pc.Ret?
             && e < NINODE
    ensures var s := states[k]; var Client(pc, call) := s.clients[c];
            && |s.who| == |s.holder| == |call.base| == NINODE
            && s.who[e][c] == call.base[e] + (if pc.r == Some(e) then 1 else 0)
            && (s.holder[e] == Some(c) <==> e in call.locks)
  {
    RunInv(trees, states, k);
    assert ClientOk(states[k], c) && Balanced(states[k], c, e);
  }

  ghost predicate AllWalking(t: Tree, s: State) {
    Inv(s) && forall c: nat :: c < |s.clients| ==> WalkOk(t, s, c)
  }

  lemma WalkFrame(t: Tree, s: State, s': State, c: nat, d: nat)
    requires StepOk(t, s, c, s') && d != c && d < |s.clients| && WalkOk(t, s, d)
    ensures WalkOk(t, s', d)
  {
    hide Unique, Walk, Rest;
    assert ClientOk(s, d);
    var pc := s.clients[d].pc;
    forall e: nat | e < NINODE && Mine(pc, e) > 0 ensures Key(s'.es[e]) == Key(s.es[e]) {
      assert Balanced(s, d, e) && EntryOk(s, e);
      SomeOne(s.who[e], d);
    }
    if pc.Ret? && pc.r.Some? { assert Mine(pc, pc.r.value) > 0; }
    else if !pc.Idle? && !pc.Ret? {
      assert Mine(pc, pc.ip) > 0;
      if (pc.Unlocking? || pc.Putting? || pc.Freeing?) && pc.k.ToNext? { assert Mine(pc, pc.k.next) > 0; }
    }
  }

  lemma {:induction false} RunWalks(t: Tree, trees: seq<Tree>, states: seq<State>, k: nat)
    requires IsRun(trees, states) && k < |states| && forall j :: 0 <= j < |trees| ==> trees[j] == t
    ensures AllWalking(t, states[k])
  {
    RunInv(trees, states, k);
    if k > 0 {
      var j := k - 1;
      RunWalks(t, trees, states, j);
      hide Inv, Next, Init;
      var c := StepBy(trees[j], states[j], states[k]);
      forall d: nat | d < |states[k].clients| ensures WalkOk(t, states[k], d) {
        if d != c { WalkFrame(t, states[j], states[k], c, d); }
      }
    }
  }

  /** While the directories do not change, every namex call, in any interleaving with any number
      of others, returns the inode the path names in the tree, and fails exactly when there is none. */
  lemma NamexFinds(t: Tree, trees: seq<Tree>, states: seq<State>, k: nat, c: nat)
    requires IsRun(trees, states) && k < |states| && forall j :: 0 <= j < |trees| ==> trees[j] == t
    requires c < |states[k].clients| && states[k].clients[c].pc.Ret?
    ensures var s := states[k]; var Client(pc, call) := s.clients[c];
            && (pc.r.Some? ==> pc.r.value < |s.es|)
            && Walk(t, call.start, call.names, call.parent) == if pc.r.Some? then Some(Key(s.es[pc.r.value])) else None
  {
    RunWalks(t, trees, states, k);
    assert WalkOk(t, states[k], c);
  }
}
