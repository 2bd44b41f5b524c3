/** kalloc.c and vm.c as code, over physical pages of words.  Page-table functions take virtual
    pages; sizes are in bytes.  Ghost parameters say what the caller knows of the address space. */
module VmCode {
  import opened Blocks
  import opened VmSpec
  import opened VmSteps

  const KERNBASE: nat := 0x8000_0000
  const PTE_USER: nat := 7  // present, writable, user

  /** PGROUNDUP(sz) / PGSIZE */
  function PagesFor(sz: nat): nat { (sz + PGSIZE - 1) / PGSIZE }

  function Least(a: nat, b: nat): nat { if a < b then a else b }

  /** In the middle of work on directory `d`, begun in state `m0`, with pages `held`. */
  ghost predicate Going(m0: Mem, m: Mem, lo: nat, hi: nat, d: nat, k: nat, a: nat, n: nat, held: set<nat>) {
    && MemOk(m, lo, hi) && Shape(m, d) && UserOk(m, d, k, a, n) && OthersKept(m0, m, d, held)
    && forall f: nat :: f in held ==> f in m.own && m.own[f] == Loose
  }

  lemma GoPop(m0: Mem, m: Mem, lo: nat, hi: nat, d: nat, k: nat, a: nat, n: nat, held: set<nat>)
    requires Going(m0, m, lo, hi, d, k, a, n, held) && m.free != []
    ensures Going(m0, Pop(m), lo, hi, d, k, a, n, held + {m.free[0]}) && 0 < m.free[0] < |m.pages| && m.free[0] !in held
    ensures forall v: nat :: v < VPAGES ==> d < |m.pages| && Leaf(Pop(m), d, v) == Leaf(m, d, v)
  {
    hide MemOk, Shape, UserOk, OthersKept, Leaf;
    PopOk(m, lo, hi);
    PopKeeps(m, lo, hi, d, k, a, n);
    KeptPop(m0, m, lo, hi, d, held);
    MemSizes(m, lo, hi, d);
    PopLeaves(m, d);
  }

  lemma PopLeaves(m: Mem, d: nat)
    requires m.free != [] && d < |m.pages|
    ensures forall v: nat :: v < VPAGES ==> Leaf(Pop(m), d, v) == Leaf(m, d, v)
  {}

  lemma MemSizes(m: Mem, lo: nat, hi: nat, d: nat)
    requires MemOk(m, lo, hi) && Shape(m, d)
    ensures 0 < lo <= hi <= |m.pages| <= VPAGES && d < |m.pages| && (m.free != [] ==> m.free[0] in m.free)
    ensures forall f: nat :: f in m.own ==> lo <= f < hi
  {}

  /** Filling a held page. */
  lemma GoFill(m0: Mem, m: Mem, lo: nat, hi: nat, d: nat, k: nat, a: nat, n: nat, held: set<nat>, f: nat, p: Page)
    requires Going(m0, m, lo, hi, d, k, a, n, held) && f in held
    ensures f < |m.pages| && d < |m.pages| && Going(m0, m.(pages := m.pages[f := p]), lo, hi, d, k, a, n, held)
    ensures forall v: nat :: v < VPAGES ==> Leaf(m.(pages := m.pages[f := p]), d, v) == Leaf(m, d, v)
  {
    hide UserOk, OthersKept, Leaf;
    WriteOk(m, lo, hi, f, p, Loose);
    hide MemOk;
    FillKeeps(m, d, k, a, n, f, p);
    KeptWrite(m0, m, d, held, f, p, Loose);
    var m' := m.(pages := m.pages[f := p]);
    assert Mem(m.pages[f := p], m.own[f := Loose], m.free) == m';
    forall v: nat | v < VPAGES ensures Leaf(m', d, v) == Leaf(m, d, v) { LeafFrame(m, m', d, v); }
  }

  /** A held, zeroed page becomes a table. */
  lemma GoAttach(m0: Mem, m: Mem, lo: nat, hi: nat, d: nat, k: nat, a: nat, n: nat, held: set<nat>, i: nat, t: nat)
    requires Going(m0, m, lo, hi, d, k, a, n, held) && t in held && i < ENTRIES && t < |m.pages| && d < |m.pages|
    requires m.pages[t] == Zeros() && !Present(m.pages[d][i])
    ensures t < VPAGES && Going(m0, Attach(m, d, i, t), lo, hi, d, k, a, n, held - {t})
    ensures forall v: nat :: v < VPAGES ==> Leaf(Attach(m, d, i, t), d, v) == Leaf(m, d, v)
  {
    hide UserOk, OthersKept, Leaf;
    MemSizes(m, lo, hi, d);
    forall v: nat | v < VPAGES ensures Leaf(Attach(m, d, i, t), d, v) == Leaf(m, d, v) { AttachLeaf(m, d, i, t, v); }
    AttachOk(m, d, i, t, k, a, n);
    var p := m.pages[d][i := PageEntry(t, 7)];
    WriteOk(m, lo, hi, d, p, Dir(d));
    var m1 := Mem(m.pages[d := p], m.own[d := Dir(d)], m.free);
    WriteOk(m1, lo, hi, t, m1.pages[t], Table(d, i));
    hide MemOk, Shape, PageEntry;
    KeptWrite(m0, m, d, held, d, p, Dir(d));
    KeptWrite(m0, m1, d, held, t, m1.pages[t], Table(d, i));
    var m2 := Mem(m1.pages[t := m1.pages[t]], m1.own[t := Table(d, i)], m1.free);
    assert m2 == Attach(m, d, i, t) by {
      assert m.own[d := Dir(d)] == m.own;
      assert m1.pages[t := m1.pages[t]] == m1.pages;
    }
  }

  /** The held page `f` becomes the next user page. */
  lemma GoMap(m0: Mem, m: Mem, lo: nat, hi: nat, d: nat, n: nat, held: set<nat>, f: nat)
    requires Going(m0, m, lo, hi, d, n, n, n, held) && n < UPAGES && f in held && d < |m.pages|
             && Present(m.pages[d][n / ENTRIES])
    ensures f < VPAGES && FrameOf(m.pages[d][n / ENTRIES]) < |m.pages|
    ensures Going(m0, MapPage(m, d, n, f, PTE_USER), lo, hi, d, n + 1, n + 1, n + 1, held - {f})
  {
    hide UserOk, OthersKept, Leaf;
    MemSizes(m, lo, hi, d);
    TableFrame(m, d, n);
    MapOk(m, d, n, f, PTE_USER);
    var t := FrameOf(m.pages[d][n / ENTRIES]);
    var p := m.pages[t][n % ENTRIES := PageEntry(f, PTE_USER)];
    WriteOk(m, lo, hi, t, p, m.own[t]);
    var m1 := Mem(m.pages[t := p], m.own[t := m.own[t]], m.free);
    WriteOk(m1, lo, hi, f, m1.pages[f], User(d, n));
    hide MemOk, Shape, PageEntry;
    KeptWrite(m0, m, d, held, t, p, m.own[t]);
    KeptWrite(m0, m1, d, held, f, m1.pages[f], User(d, n));
    var m2 := Mem(m1.pages[f := m1.pages[f]], m1.own[f := User(d, n)], m1.free);
    assert m2 == MapPage(m, d, n, f, PTE_USER) by {
      assert m.own[t := m.own[t]] == m.own;
      assert m1.pages[f := m1.pages[f]] == m1.pages;
    }
  }

  lemma GoUnmap(m0: Mem, m: Mem, lo: nat, hi: nat, d: nat, k: nat, v: nat, n: nat, held: set<nat>)
    requires Going(m0, m, lo, hi, d, k, v, n, held) && k <= v < n && v < UPAGES && d < |m.pages|
    ensures var f := FrameOf(Leaf(m, d, v));
            && Present(Leaf(m, d, v)) && f in m.own && m.own[f] == User(d, v) && f < |m.pages| && f != d
               && LinkWord(m.free, 0) < 0x1_0000_0000
            && FrameOf(m.pages[d][v / ENTRIES]) < |m.pages| && Present(m.pages[d][v / ENTRIES])
            && Going(m0, Unmap(m, d, v, f), lo, hi, d, k, v + 1, n, held)
  {
    hide OthersKept;
    UnmapOk(m, lo, hi, d, k, v, n);
    var f := FrameOf(Leaf(m, d, v));
    assert Present(m.pages[d][v / ENTRIES]);
    TableFrame(m, d, v);
    hide MemOk, Shape, UserOk, Leaf, Junk;
    KeptPush(m0, m, d, held, f);
    assert held - {f} == held;
    var m1 := Push(m, f);
    var t := FrameOf(m1.pages[d][v / ENTRIES]);
    var p := m1.pages[t][v % ENTRIES := 0];
    KeptWrite(m0, m1, d, held, t, p, m1.own[t]);
    assert m1.own[t := m1.own[t]] == m1.own;
  }

  lemma GoPush(m0: Mem, m: Mem, lo: nat, hi: nat, d: nat, k: nat, a: nat, n: nat, held: set<nat>, f: nat)
    requires Going(m0, m, lo, hi, d, k, a, n, held) && f in held
    ensures f < |m.pages| && LinkWord(m.free, 0) < 0x1_0000_0000
            && Going(m0, Push(m, f), lo, hi, d, k, a, n, held - {f})
  {
    hide OthersKept, Leaf;
    PushOk(m, lo, hi, f);
    PushShape(m, lo, hi, d, f);
    hide MemOk, Shape, Junk;
    UserFrame(m, Push(m, f), d, k, a, n) by { ShapeDir(m, d); }
    KeptPush(m0, m, d, held, f);
  }

  lemma ShapeDir(m: Mem, d: nat)
    requires Shape(m, d)
    ensures d < |m.pages|
  {}

  /** User pages keep their owner and their contents, those of `d` below page `k`. */
  ghost predicate UsersKept(m: Mem, m': Mem, d: nat, k: nat) {
    && |m'.pages| == |m.pages|
    && forall f: nat :: f in m.own && m.own[f].User? && (m.own[f].d == d ==> m.own[f].v < k) && f < |m.pages| ==>
         f in m'.own && m'.own[f] == m.own[f] && m'.pages[f] == m.pages[f]
  }

  /** The user pages from `a` to `n` are mapped to pages of zeros that user programs can read and
      write. */
  ghost predicate ZeroPages(m: Mem, d: nat, a: nat, n: nat) {
    d < |m.pages| && forall v: nat :: a <= v < n && v < UPAGES ==> ZeroPage(m, d, v)
  }

  ghost predicate ZeroPage(m: Mem, d: nat, v: nat)
    requires d < |m.pages| && v < UPAGES
  {
    && FrameOf(Leaf(m, d, v)) < |m.pages| && m.pages[FrameOf(Leaf(m, d, v))] == Zeros()
    && ForUsers(Leaf(m, d, v))
  }

  /** The processor lets a user program through to such a page: both levels of the table say so. */
  lemma UserReaches(m: Mem, d: nat, v: nat)
    requires Shape(m, d) && v < UPAGES && ForUsers(Leaf(m, d, v))
    ensures ForUsers(m.pages[d][v / ENTRIES]) && FrameOf(m.pages[d][v / ENTRIES]) < |m.pages|
    ensures ForUsers(m.pages[FrameOf(m.pages[d][v / ENTRIES])][v % ENTRIES])
  {
    assert TableOk(m, d, v / ENTRIES);
  }

  lemma UsersTrans(m: Mem, m': Mem, m'': Mem, d: nat, k: nat, j: nat)
    requires UsersKept(m, m', d, k) && UsersKept(m', m'', d, j) && k <= j
    ensures UsersKept(m, m'', d, k)
  {}

  /** Writing a page that is not a user page, or taking a free one. */
  lemma UsersWrite(m: Mem, m': Mem, d: nat, f: nat)
    requires |m'.pages| == |m.pages| && (f in m.own ==> !m.own[f].User?)
    requires forall g: nat ::
             g in m.own && g != f ==>
                 g in m'.own && m'.own[g] == m.own[g] && (g < |m.pages| ==> m'.pages[g] == m.pages[g])
    ensures UsersKept(m, m', d, VPAGES)
  {}

  /** A new table leaves user pages and held pages alone. */
  lemma WalkUsers(m0: Mem, m: Mem, lo: nat, hi: nat, d: nat, k: nat, a: nat, n: nat, held: set<nat>, t: nat, m': Mem)
    requires Going(m0, m, lo, hi, d, k, a, n, held) && m.free != [] && t == m.free[0] && |m'.pages| == |m.pages|
    requires forall g: nat :: g in m.own && g != t ==> g in m'.own && m'.own[g] == m.own[g]
    requires forall g: nat :: g < |m.pages| && g != t && g != d ==> m'.pages[g] == m.pages[g]
    ensures UsersKept(m, m', d, VPAGES) && forall f: nat :: f in held && f < |m.pages| ==> m'.pages[f] == m.pages[f]
  {
    hide UserOk, OthersKept;
    PopOk(m, lo, hi);
  }

  /** Freeing user page `v` touches no user page below it. */
  lemma UnmapUsers(m0: Mem, m: Mem, lo: nat, hi: nat, d: nat, k: nat, v: nat, n: nat, held: set<nat>, f: nat, t: nat,
                   m': Mem)
    requires Going(m0, m, lo, hi, d, k, v, n, held) && k <= v < VPAGES && d < |m.pages|
             && Present(m.pages[d][v / ENTRIES])
    requires t == FrameOf(m.pages[d][v / ENTRIES]) && f in m.own && m.own[f] == User(d, v) && |m'.pages| == |m.pages|
             && m'.own == m.own - {f}
    requires forall g: nat :: g < |m.pages| && g != f && g != t ==> m'.pages[g] == m.pages[g]
    ensures UsersKept(m, m', d, k)
  {
    hide UserOk, OthersKept, MemOk, Leaf;
    TableFrame(m, d, v);
  }

  /** All user pages of `d` are below its size. */
  lemma UsersAll(m: Mem, m': Mem, d: nat, n: nat)
    requires SpaceOk(m, d, n) && UsersKept(m, m', d, n)
    ensures UsersKept(m, m', d, VPAGES)
  {
    hide Leaf, Shape;
    forall f: nat | f in m.own && m.own[f].User? && m.own[f].d == d ensures m.own[f].v < n {
      assert OwnUser(m, d, f);
      assert LeafOk(m, d, m.own[f].v, InUse(m.own[f].v, n, n, n));
    }
  }

  lemma NoPages(m: Mem, lo: nat, hi: nat, d: nat, v: nat)
    requires SpaceOk(m, d, v)
    ensures ZeroPages(m, d, v, v)
  {}

  /** A page fresh from kalloc, filled with zeros. */
  lemma NewPage(m0: Mem, m: Mem, lo: nat, hi: nat, d: nat, v: nat, n0: nat, m1: Mem, mem: nat)
    requires Going(m0, m, lo, hi, d, v, v, v, {}) && m.free != [] && mem == m.free[0] && mem < |m.pages|
             && UsersKept(m0, m, d, n0) && n0 <= VPAGES
    requires m1 == Pop(m).(pages := m.pages[mem := Zeros()]) && ZeroPages(m, d, n0, v)
    ensures UsersKept(m0, m1, d, n0) && ZeroPages(m1, d, n0, v)
  {
    hide OthersKept, Leaf;
    PopOk(m, lo, hi);
    hide MemOk;
    UsersWrite(m, m1, d, mem);
    UsersTrans(m0, m, m1, d, n0, VPAGES);
    forall u: nat | u < UPAGES ensures Leaf(m1, d, u) == Leaf(m, d, u) { LeafFrame(m, m1, d, u); }
    forall u: nat | n0 <= u < v && u < UPAGES ensures ZeroPage(m1, d, u) {
      assert ZeroPage(m, d, u) && LeafOk(m, d, u, InUse(u, v, v, v));
    }
  }

  lemma MappedZero(m0: Mem, m1: Mem, lo: nat, hi: nat, d: nat, n0: nat, v: nat, mem: nat, m2: Mem)
    requires Going(m0, m1, lo, hi, d, v, v, v, {mem}) && ZeroPages(m1, d, n0, v) && UsersKept(m1, m2, d, VPAGES)
             && v < UPAGES
    requires mem < |m1.pages| == |m2.pages| <= VPAGES && m1.pages[mem] == Zeros() && m2.pages[mem] == m1.pages[mem]
             && d < |m2.pages|
    requires forall u: nat ::
             u < VPAGES ==> Leaf(m2, d, u) == if v <= u <= v then PageEntry(mem + (u - v), PTE_USER) else Leaf(m1, d, u)
    ensures ZeroPages(m2, d, n0, v + 1)
  {
    EntryFrame(mem, PTE_USER);
    hide PageEntry, Leaf, OthersKept, MemOk, Shape;
    ZeroMore(m1, m2, d, n0, v, mem);
  }

  /** A page held by the caller is managed, and freeing it takes nothing from anyone. */
  lemma HeldPage(m0: Mem, m: Mem, lo: nat, hi: nat, d: nat, k: nat, a: nat, n: nat, held: set<nat>, f: nat)
    requires Going(m0, m, lo, hi, d, k, a, n, held) && f in held
    ensures f in m.own && lo <= f < hi && f < |m.pages| && LinkWord(m.free, 0) < 0x1_0000_0000
    ensures UsersKept(m, Push(m, f), d, k)
  {
    hide UserOk, OthersKept, Shape, Junk;
    OwnRange(m, lo, hi);
    PushOk(m, lo, hi, f);
  }

  lemma UsersLess(m: Mem, d: nat, k: nat)
    ensures UsersKept(m, m, d, k)
  {}

  /** Writing an entry of a table of `d`. */
  lemma TableUsers(m0: Mem, m: Mem, lo: nat, hi: nat, d: nat, k: nat, a: nat, n: nat, held: set<nat>, v: nat, m': Mem)
    requires Going(m0, m, lo, hi, d, k, a, n, held) && v < VPAGES && d < |m.pages| && Present(m.pages[d][v / ENTRIES])
    requires |m'.pages| == |m.pages| && m'.own == m.own
    requires forall g: nat :: g < |m.pages| && g != FrameOf(m.pages[d][v / ENTRIES]) ==> m'.pages[g] == m.pages[g]
    ensures UsersKept(m, m', d, VPAGES) && forall f: nat :: f in held && f < |m.pages| ==> m'.pages[f] == m.pages[f]
  {
    hide UserOk, OthersKept, MemOk, Leaf;
    TableFrame(m, d, v);
  }

  /** Giving a held page to user page `n` changes no other page's owner. */
  lemma HeldUsers(m0: Mem, m: Mem, lo: nat, hi: nat, d: nat, n: nat, held: set<nat>, f: nat, before: Mem, m': Mem)
    requires Going(m0, m, lo, hi, d, n, n, n, held) && f in held && UsersKept(before, m'.(own := m.own), d, VPAGES)
    requires m'.own == m.own[f := User(d, n)]
    ensures UsersKept(before, m', d, VPAGES)
  {}

  /** Pages already zero stay so while the space grows by one more page of zeros. */
  lemma ZeroMore(m: Mem, m': Mem, d: nat, a: nat, v: nat, f: nat)
    requires ZeroPages(m, d, a, v) && UsersKept(m, m', d, VPAGES) && v < UPAGES && UserOk(m, d, v, v, v)
             && d < |m'.pages|
    requires forall u: nat :: u < UPAGES && u != v ==> Leaf(m', d, u) == Leaf(m, d, u)
    requires FrameOf(Leaf(m', d, v)) == f && f < |m'.pages| && m'.pages[f] == Zeros() && ForUsers(Leaf(m', d, v))
    ensures ZeroPages(m', d, a, v + 1)
  {
    hide Leaf;
    var n := v + 1;
    forall u: nat | a <= u < n && u < UPAGES ensures ZeroPage(m', d, u) {
      if u != v {
        assert ZeroPage(m, d, u);
        assert LeafOk(m, d, u, InUse(u, v, v, v));
      }
    }
  }

  datatype MapResult = Mapped | NoMemory | PanicRemap

  class Machine {
    const lo: nat  // first and last page kalloc manages
    const hi: nat
    var pages: seq<Page>
    var freelist: Word  // address of the first free page, or 0
    ghost var own: map<nat, Owner>
    ghost var free: seq<nat>

    ghost function State(): Mem
      reads this
    {
      Mem(pages, own, free)
    }

    ghost predicate Valid()
      reads this
    {
      MemOk(State(), lo, hi) && freelist == LinkWord(free, 0)
    }

    /** Before kinit: every page in use, none free. */
    constructor (lo: nat, hi: nat, pages: seq<Page>)
      requires 0 < lo <= hi <= |pages| <= VPAGES
      ensures Valid() && this.lo == lo && this.hi == hi && forall f: nat :: lo <= f < hi ==> f in own && own[f] == Loose
    {
      this.lo, this.hi, this.pages, freelist := lo, hi, pages, 0;
      own, free := AllLoose(lo, hi), [];
    }

    method Kalloc() returns (f: nat)
      requires Valid()
      modifies this`freelist, this`own, this`free
      ensures Valid() && (f == 0 <==> old(free) == [])
      ensures f == 0 ==> State() == old(State())
      ensures f != 0 ==> f == old(free)[0] && State() == Pop(old(State()))
    {
      FreeHead(State(), lo, hi);
      f := freelist / PGSIZE;
      if f != 0 {
        PopOk(State(), lo, hi);
        assert Linked(pages, free, 0);
        freelist := pages[f][0];
        own, free := own[f := Loose], free[1..];
      }
    }

    /** Free the page at physical address `pa`; true is the "kfree" panic. */
    method Kfree(pa: nat) returns (panic: bool)
      requires Valid() && (lo <= pa / PGSIZE < hi ==> pa / PGSIZE in own)
      modifies this`pages, this`freelist, this`own, this`free
      ensures panic <==> pa % PGSIZE != 0 || !(lo <= pa / PGSIZE < hi)
      ensures panic ==> unchanged(this)
      ensures !panic ==> var f := pa / PGSIZE;
                         && Valid() && f < old(|pages|) && old(LinkWord(free, 0)) < 0x1_0000_0000
                         && State() == Push(old(State()), f)
      ensures !panic ==> var f := pa / PGSIZE;
                         && f !in own && free == [f] + old(free) && |pages| == old(|pages|) && f < |pages|
                         && (forall i :: 1 <= i < ENTRIES ==> pages[f][i] == 0x0101_0101)
                         && forall g: nat :: g < |pages| && g != f ==> pages[g] == old(pages)[g]
    {
      var f := pa / PGSIZE;
      if pa % PGSIZE != 0 || f < lo || f >= hi { return true; }
      PushOk(State(), lo, hi, f);
      pages := pages[f := Junk(freelist)];
      freelist := f * PGSIZE;
      own, free := own - {f}, [f] + free;
      return false;
    }

    /** freerange: the pages from `from` up to `to` become free. */
    method Freerange(from: nat, to: nat)
      requires Valid() && lo <= from <= to <= hi && forall f: nat :: from <= f < to ==> f in own
      modifies this`pages, this`freelist, this`own, this`free
      ensures Valid() && forall f: nat :: f in own <==> f in old(own) && !(from <= f < to)
      ensures forall f: nat :: f in own ==> own[f] == old(own)[f]
    {
      hide MemOk, Junk;
      var p := from;
      while p < to
        invariant from <= p <= to && Valid()
        invariant forall f: nat :: f in own <==> f in old(own) && !(from <= f < p)
        invariant forall f: nat :: f in own ==> own[f] == old(own)[f]
      {
        var panic := Kfree(p * PGSIZE);
        p := p + 1;
      }
    }

    /** The page of the table for virtual page `v`, 0 when there is none and none can be made. */
    method Walkpgdir(d: nat, v: nat, alloc: bool, ghost m0: Mem, ghost k: nat, ghost a: nat, ghost n: nat,
                     ghost held: set<nat>) returns (t: nat)
      requires Valid() && Going(m0, State(), lo, hi, d, k, a, n, held) && v < VPAGES
      modifies this`pages, this`freelist, this`own, this`free
      ensures Valid() && Going(m0, State(), lo, hi, d, k, a, n, held) && d < |pages| == old(|pages|)
      ensures !alloc || t == 0 ==> State() == old(State())
      ensures t == 0 <==> !Present(pages[d][v / ENTRIES])
      ensures t == 0 && alloc ==> free == []
      ensures |free| >= old(|free|) - 1
      ensures t != 0 ==> t == FrameOf(pages[d][v / ENTRIES]) && t < |pages|
      ensures forall u: nat :: u < VPAGES ==> Leaf(State(), d, u) == old(Leaf(State(), d, u))
      ensures UsersKept(old(State()), State(), d, VPAGES) && forall f: nat ::
              f in held && f < |pages| ==> pages[f] == old(pages)[f]
    {
      hide MemOk, UserOk, OthersKept, Leaf, Junk;
      MemSizes(State(), lo, hi, d);
      if Present(pages[d][v / ENTRIES]) {
        TableFrame(State(), d, v);
        return FrameOf(pages[d][v / ENTRIES]);
      }
      hide Shape;
      if !alloc { return 0; }
      ghost var m := State();
      t := Kalloc();
      if t == 0 { return; }
      GoPop(m0, m, lo, hi, d, k, a, n, held);
      GoFill(m0, State(), lo, hi, d, k, a, n, held + {t}, t, Zeros());
      assert d != t by { DirHeld(m0, State(), lo, hi, d, k, a, n, held + {t}, t); }
      pages := pages[t := Zeros()];
      GoAttach(m0, State(), lo, hi, d, k, a, n, held + {t}, v / ENTRIES, t);
      assert held + {t} - {t} == held;
      EntryFrame(t, 7);
      pages := pages[d := pages[d][v / ENTRIES := PageEntry(t, 7)]];
      own := own[t := Table(d, v / ENTRIES)];
      WalkUsers(m0, m, lo, hi, d, k, a, n, held, t, State());
    }

    /** Map virtual pages `first` to `last` to the pages from `f` on: kernel pages, or the next user
        page, backed by a page the caller holds. */
    method Mappages(d: nat, first: nat, last: nat, f: nat, flags: nat, ghost m0: Mem, ghost n: nat,
                    ghost held: set<nat>) returns (r: MapResult)
      requires Valid() && Going(m0, State(), lo, hi, d, n, n, n, held)
      requires first <= last < VPAGES && f + (last - first) < VPAGES && flags < PGSIZE && flags % 2 == 1
      requires first < UPAGES ==> first == last == n && f in held && flags == PTE_USER
      modifies this`pages, this`freelist, this`own, this`free
      ensures Valid() && d < |pages| == old(|pages|)
      ensures first < UPAGES && r == Mapped ==> Going(m0, State(), lo, hi, d, n + 1, n + 1, n + 1, held - {f})
      ensures first >= UPAGES || r != Mapped ==> Going(m0, State(), lo, hi, d, n, n, n, held)
      ensures r == Mapped ==> forall u: nat :: u < VPAGES ==>
                Leaf(State(), d, u) == if first <= u <= last then PageEntry(f + (u - first), flags)
                    else old(Leaf(State(), d, u))
      ensures r == NoMemory ==> free == [] && old(|free|) <= last - first
      ensures |free| >= old(|free|) - (last - first + 1)
      ensures UsersKept(old(State()), State(), d, VPAGES) && forall g: nat ::
              g in held && g < |pages| ==> pages[g] == old(pages)[g]
      ensures r == PanicRemap ==> exists u: nat :: first <= u <= last && Present(old(Leaf(State(), d, u)))
      ensures r == Mapped ==> forall u: nat :: first <= u <= last ==> !Present(old(Leaf(State(), d, u)))
      ensures first < UPAGES ==> r != PanicRemap
    {
      hide MemOk, UserOk, OthersKept, Leaf, PageEntry, Going, Shape, Present, UsersKept;
      GoSizes(m0, State(), lo, hi, d, n, n, n, held);
      UsersLess(State(), d, VPAGES);
      var v := first;
      while true
        invariant first <= v <= last && Valid() && Going(m0, State(), lo, hi, d, n, n, n, held)
                  && d < |pages| == old(|pages|)
        invariant forall u: nat :: u < VPAGES ==>
                    Leaf(State(), d, u) == if first <= u < v then PageEntry(f + (u - first), flags)
                        else old(Leaf(State(), d, u))
        invariant forall u: nat :: first <= u < v ==> !Present(old(Leaf(State(), d, u)))
        invariant |free| >= old(|free|) - (v - first)
        invariant UsersKept(old(State()), State(), d, VPAGES) && forall g: nat ::
                  g in held && g < |pages| ==> pages[g] == old(pages)[g]
        decreases last - v
      {
        ghost var before := State();
        var t := Walkpgdir(d, v, true, m0, n, n, n, held);
        UsersTrans(old(State()), before, State(), d, VPAGES, VPAGES);
        if t == 0 { return NoMemory; }
        LeafIs(m0, State(), lo, hi, d, n, n, n, held, v);
        if Present(pages[t][v % ENTRIES]) {
          if first < UPAGES { NextFree(m0, State(), lo, hi, d, n, held); }
          return PanicRemap;
        }
        ghost var m := State();
        if first < UPAGES {
          MapUser(d, v, t, f, m0, held, old(State()));
          return Mapped;
        }
        pages := pages[t := pages[t][v % ENTRIES := PageEntry(f + (v - first), flags)]];
        TableUsers(m0, m, lo, hi, d, n, n, n, held, v, State());
        UsersTrans(old(State()), m, State(), d, VPAGES, VPAGES);
        GoSet(m0, m, lo, hi, d, n, n, n, held, v, PageEntry(f + (v - first), flags));
        GoSizes(m0, State(), lo, hi, d, n, n, n, held);
        if v == last { return Mapped; }
        v := v + 1;
      }
    }

    /** The store of one user page's entry into the table page `t`. */
    method MapUser(d: nat, v: nat, t: nat, f: nat, ghost m0: Mem, ghost held: set<nat>, ghost was: Mem)
      requires Valid() && Going(m0, State(), lo, hi, d, v, v, v, held) && v < UPAGES && f in held && f < VPAGES
               && d < |pages|
      requires Present(pages[d][v / ENTRIES]) && t == FrameOf(pages[d][v / ENTRIES]) < |pages|
      requires UsersKept(was, State(), d, VPAGES)
      modifies this`pages, this`own
      ensures Valid() && Going(m0, State(), lo, hi, d, v + 1, v + 1, v + 1, held - {f}) && |pages| == old(|pages|)
      ensures forall u: nat ::
              u < VPAGES ==> Leaf(State(), d, u) == if u == v then PageEntry(f, PTE_USER) else old(Leaf(State(), d, u))
      ensures UsersKept(was, State(), d, VPAGES) && forall g: nat ::
              g in held && g < |pages| ==> pages[g] == old(pages)[g]
    {
      hide MemOk, UserOk, OthersKept, Leaf, PageEntry, Going, Shape, Present, UsersKept;
      ghost var m := State();
      pages := pages[t := pages[t][v % ENTRIES := PageEntry(f, PTE_USER)]];
      TableUsers(m0, m, lo, hi, d, v, v, v, held, v, State());
      UsersTrans(was, m, State(), d, VPAGES, VPAGES);
      GoMap(m0, m, lo, hi, d, v, held, f);
      MapLeaves(m0, m, lo, hi, d, v, held, f);
      own := own[f := User(d, v)];
      HeldUsers(m0, m, lo, hi, d, v, held, f, was, State());
      GoSizes(m0, State(), lo, hi, d, v + 1, v + 1, v + 1, held - {f});
    }

    /** Shrink the user part to `newsz` bytes.  `oldsz` may exceed the true size.  The "kfree" panic
        cannot happen. */
    method Deallocuvm(d: nat, oldsz: nat, newsz: nat, ghost m0: Mem, ghost n: nat, ghost held: set<nat>)
        returns (r: nat, panic: bool)
      requires Valid() && Going(m0, State(), lo, hi, d, n, n, n, held) && oldsz <= KERNBASE && n <= PagesFor(oldsz)
      modifies this`pages, this`freelist, this`own, this`free
      ensures Valid() && !panic
      ensures newsz >= oldsz ==> r == oldsz && State() == old(State())
      ensures newsz < oldsz ==>
              r == newsz && var k := Least(n, PagesFor(newsz)); Going(m0, State(), lo, hi, d, k, k, k, held)
      ensures UsersKept(old(State()), State(), d, Least(n, PagesFor(newsz)))
    {
      hide MemOk, UserOk, OthersKept, Leaf, Going, Shape, Present, FrameOf, UsersKept;
      UsersLess(State(), d, Least(n, PagesFor(newsz)));
      panic := false;
      if newsz >= oldsz { return oldsz, false; }
      ghost var k := Least(n, PagesFor(newsz));
      var a := PagesFor(newsz) * PGSIZE;
      ghost var v := PagesFor(newsz);
      GoShrink(m0, State(), lo, hi, d, n, v, held);
      while a < oldsz
        invariant Valid() && !panic && a == v * PGSIZE && k <= v && Going(m0, State(), lo, hi, d, k, v, n, held)
        invariant UsersKept(old(State()), State(), d, k)
      {
        ghost var before := State();
        var t := Walkpgdir(d, a / PGSIZE, false, m0, k, v, n, held);
        if t == 0 {
          GoSkip(m0, State(), lo, hi, d, k, v, n, held);
          a := a + (ENTRIES - 1) * PGSIZE;
          v := v + (ENTRIES - 1);
        } else {
          LeafIs(m0, State(), lo, hi, d, k, v, n, held, v);
          if Present(pages[t][a / PGSIZE % ENTRIES]) {
            panic := FreePage(d, a / PGSIZE, t, m0, k, n, held);
            UsersTrans(old(State()), before, State(), d, k, k);
          } else {
            GoPast(m0, State(), lo, hi, d, k, v, n, held);
          }
        }
        a := a + PGSIZE;
        v := v + 1;
      }
      BeyondSize(oldsz, v, n);
      GoShrunk(m0, State(), lo, hi, d, k, v, n, held);
      r := newsz;
    }

    /** Free the page mapped at `v` and clear its entry, in the table page `t`. */
    method FreePage(d: nat, v: nat, t: nat, ghost m0: Mem, ghost k: nat, ghost n: nat, ghost held: set<nat>)
        returns (panic: bool)
      requires Valid() && Going(m0, State(), lo, hi, d, k, v, n, held) && k <= v < UPAGES && d < |pages|
      requires Present(pages[d][v / ENTRIES]) && t == FrameOf(pages[d][v / ENTRIES]) < |pages|
               && Present(pages[t][v % ENTRIES])
      modifies this`pages, this`freelist, this`own, this`free
      ensures Valid() && !panic && Going(m0, State(), lo, hi, d, k, v + 1, n, held)
              && UsersKept(old(State()), State(), d, k)
    {
      hide MemOk, UserOk, OthersKept, Leaf, Going, Shape, Junk;
      ghost var m := State();
      LeafIs(m0, m, lo, hi, d, k, v, n, held, v);
      MappedBelow(m0, m, lo, hi, d, k, v, n, held);
      GoUnmap(m0, m, lo, hi, d, k, v, n, held);
      GoSizes(m0, m, lo, hi, d, k, v, n, held);
      OwnRange(m, lo, hi);
      var f := FrameOf(pages[t][v % ENTRIES]);
      if f == 0 { return true; }
      panic := Kfree(f * PGSIZE);
      pages := pages[t := pages[t][v % ENTRIES := 0]];
      UnmapUsers(m0, m, lo, hi, d, k, v, n, held, f, t, State());
      GoSizes(m0, State(), lo, hi, d, k, v + 1, n, held);
    }

    /** Grow the user part from `oldsz` to `newsz` bytes.  0 means failure, and then the address
        space is what it was. */
    method Allocuvm(d: nat, oldsz: nat, newsz: nat) returns (r: nat)
      requires Valid() && SpaceOk(State(), d, PagesFor(oldsz)) && oldsz <= KERNBASE
      modifies this`pages, this`freelist, this`own, this`free
      ensures Valid() && OthersKept(old(State()), State(), d, {})
      ensures newsz >= KERNBASE ==> r == 0 && State() == old(State())
      ensures newsz < KERNBASE && newsz < oldsz ==> r == oldsz && State() == old(State())
      ensures oldsz <= newsz < KERNBASE ==>
              (r == newsz && SpaceOk(State(), d, PagesFor(newsz))) || (r == 0 && SpaceOk(State(), d, PagesFor(oldsz)))
      ensures oldsz <= newsz < KERNBASE && r != newsz ==> old(|free|) < 2 * (PagesFor(newsz) - PagesFor(oldsz))
      ensures r == newsz != 0 && oldsz <= newsz ==> ZeroPages(State(), d, PagesFor(oldsz), PagesFor(newsz))
      ensures UsersKept(old(State()), State(), d, VPAGES)
    {
      hide MemOk, UserOk, OthersKept, Leaf, Going, Shape, PagesFor, UsersKept, ZeroPages;
      ghost var m0 := State();
      ghost var n0 := PagesFor(oldsz);
      UsersLess(m0, d, VPAGES);
      UsersLess(m0, d, n0);
      GoStart(m0, lo, hi, d, PagesFor(oldsz));
      if newsz >= KERNBASE { return 0; }
      if newsz < oldsz { return oldsz; }
      PagesMono(oldsz, newsz);
      var a := RoundUp(oldsz);
      ghost var v := PagesFor(oldsz);
      NoPages(m0, lo, hi, d, v);
      while a < newsz
        invariant Valid() && a == v * PGSIZE && PagesFor(oldsz) <= v <= PagesFor(newsz)
                  && Going(m0, State(), lo, hi, d, v, v, v, {})
        invariant UsersKept(m0, State(), d, n0) && ZeroPages(State(), d, n0, v) && |free| >= |m0.free| - 2 * (v - n0)
      {
        PageBelow(newsz, v);
        ghost var m := State();
        var mem := Kalloc();
        if mem == 0 {
          var _, _ := Deallocuvm(d, newsz, oldsz, m0, v, {});
          UsersTrans(m0, m, State(), d, n0, n0);
          UsersAll(m0, State(), d, n0);
          GoDone(m0, State(), lo, hi, d, PagesFor(oldsz));
          return 0;
        }
        GoPop(m0, m, lo, hi, d, v, v, v, {});
        assert {} + {mem} == {mem};
        GoFill(m0, State(), lo, hi, d, v, v, v, {mem}, mem, Zeros());
        pages := pages[mem := Zeros()];
        GoSizes(m0, State(), lo, hi, d, v, v, v, {mem});
        ghost var m1 := State();
        NewPage(m0, m, lo, hi, d, v, n0, m1, mem);
        var ok := Mappages(d, a / PGSIZE, a / PGSIZE, mem, PTE_USER, m0, v, {mem});
        ghost var m2 := State();
        UsersTrans(m0, m1, m2, d, n0, VPAGES);
        if ok != Mapped {
          assert ok == NoMemory && free == [] && |m0.free| <= 2 * (v - n0) + 1;
          var _, _ := Deallocuvm(d, newsz, oldsz, m0, v, {mem});
          UsersTrans(m0, m2, State(), d, n0, n0);
          ghost var m3 := State();
          FreeHeld(d, mem, m0, PagesFor(oldsz));
          UsersTrans(m0, m3, State(), d, n0, n0);
          UsersAll(m0, State(), d, n0);
          GoDone(m0, State(), lo, hi, d, PagesFor(oldsz));
          return 0;
        }
        assert {mem} - {mem} == {};
        MappedZero(m0, m1, lo, hi, d, n0, v, mem, m2);
        a := a + PGSIZE;
        v := v + 1;
      }
      ReachedSize(newsz, v);
      UsersAll(m0, State(), d, n0);
      GoDone(m0, State(), lo, hi, d, PagesFor(newsz));
      return newsz;
    }

    /** kfree of a page that was never mapped. */
    method FreeHeld(d: nat, f: nat, ghost m0: Mem, ghost n: nat)
      requires Valid() && Going(m0, State(), lo, hi, d, n, n, n, {f})
      modifies this`pages, this`freelist, this`own, this`free
      ensures Valid() && Going(m0, State(), lo, hi, d, n, n, n, {}) && UsersKept(old(State()), State(), d, n)
    {
      hide MemOk, UserOk, OthersKept, Shape, Junk, Going, UsersKept;
      GoPush(m0, State(), lo, hi, d, n, n, n, {f}, f);
      HeldPage(m0, State(), lo, hi, d, n, n, n, {f}, f);
      var panic := Kfree(f * PGSIZE);
      assert {f} - {f} == {};
    }

    /** Free the user pages, the tables and the directory: every page `d` owned is on the free list
        again, once, and no other page has moved. */
    method Freevm(d: nat, ghost n: nat) returns (panic: bool)
      requires Valid() && SpaceOk(State(), d, n) && n <= UPAGES
      modifies this`pages, this`freelist, this`own, this`free
      ensures Valid() && !panic && Gone(State(), d) && OthersKept(old(State()), State(), d, {})
      ensures forall f: nat :: f in old(own) && OfDir(old(own)[f], d) ==> f in free
    {
      hide MemOk, UserOk, OthersKept, Leaf, Going, Shape, Junk, TablesLeft, Gone;
      ghost var m0 := State();
      GoStart(m0, lo, hi, d, n);
      var _, p := Deallocuvm(d, KERNBASE, 0, m0, n, {});
      GoDone(m0, State(), lo, hi, d, 0);
      TablesStart(State(), d);
      panic := false;
      var i := 0;
      while i < ENTRIES
        invariant i <= ENTRIES && Valid() && !panic && TablesLeft(State(), d, i) && OthersKept(m0, State(), d, {})
      {
        ghost var m := State();
        LeftSizes(m, lo, hi, d, i);
        TablesStep(m, lo, hi, d, i);
        if Present(pages[d][i]) {
          KeptPush(m0, m, d, {}, FrameOf(pages[d][i]));
          assert {} - {FrameOf(m.pages[d][i])} == {};
          panic := Kfree(FrameOf(pages[d][i]) * PGSIZE);
        }
        i := i + 1;
      }
      LeftSizes(State(), lo, hi, d, ENTRIES);
      TablesEnd(State(), lo, hi, d);
      KeptPush(m0, State(), d, {}, d);
      assert {} - {d} == {};
      panic := Kfree(d * PGSIZE);
      AllReturned(m0, State(), lo, hi, d);
    }
  }

  function RoundUp(sz: nat): nat { (sz + PGSIZE - 1) / PGSIZE * PGSIZE }

  lemma PagesMono(a: nat, b: nat)
    requires a <= b
    ensures PagesFor(a) <= PagesFor(b) && RoundUp(a) == PagesFor(a) * PGSIZE
  {}

  lemma PageBelow(sz: nat, v: nat)
    requires v * PGSIZE < sz < KERNBASE
    ensures v < PagesFor(sz) <= UPAGES && v * PGSIZE / PGSIZE == v
  {}

  lemma ReachedSize(sz: nat, v: nat)
    requires v * PGSIZE >= sz && v <= PagesFor(sz)
    ensures v == PagesFor(sz)
  {}

  lemma BeyondSize(sz: nat, v: nat, n: nat)
    requires v * PGSIZE >= sz && n <= PagesFor(sz)
    ensures n <= v
  {}

  lemma OwnRange(m: Mem, lo: nat, hi: nat)
    requires MemOk(m, lo, hi)
    ensures forall f: nat :: f in m.own ==> 0 < lo <= f < hi
  {}

  lemma GoStart(m: Mem, lo: nat, hi: nat, d: nat, n: nat)
    requires MemOk(m, lo, hi) && SpaceOk(m, d, n)
    ensures Going(m, m, lo, hi, d, n, n, n, {}) && OthersKept(m, m, d, {})
  {
    hide MemOk, Shape, UserOk;
  }

  lemma GoDone(m0: Mem, m: Mem, lo: nat, hi: nat, d: nat, n: nat)
    requires Going(m0, m, lo, hi, d, n, n, n, {})
    ensures SpaceOk(m, d, n) && OthersKept(m0, m, d, {})
  {}

  lemma GoShrink(m0: Mem, m: Mem, lo: nat, hi: nat, d: nat, n: nat, v: nat, held: set<nat>)
    requires Going(m0, m, lo, hi, d, n, n, n, held)
    ensures Going(m0, m, lo, hi, d, Least(n, v), v, n, held)
  {
    hide MemOk, Shape, OthersKept, Leaf;
    var k := Least(n, v);
    forall u: nat | u < UPAGES ensures LeafOk(m, d, u, InUse(u, k, v, n)) { assert LeafOk(m, d, u, InUse(u, n, n, n)); }
  }

  lemma GoSkip(m0: Mem, m: Mem, lo: nat, hi: nat, d: nat, k: nat, v: nat, n: nat, held: set<nat>)
    requires Going(m0, m, lo, hi, d, k, v, n, held) && k <= v < UPAGES && d < |m.pages|
             && !Present(m.pages[d][v / ENTRIES])
    ensures Going(m0, m, lo, hi, d, k, v + ENTRIES, n, held)
  {
    hide MemOk, Shape, OthersKept;
    SkipOk(m, d, k, v, n);
  }

  lemma GoPast(m0: Mem, m: Mem, lo: nat, hi: nat, d: nat, k: nat, v: nat, n: nat, held: set<nat>)
    requires Going(m0, m, lo, hi, d, k, v, n, held) && k <= v < UPAGES && d < |m.pages| && !Present(Leaf(m, d, v))
    ensures Going(m0, m, lo, hi, d, k, v + 1, n, held)
  {
    hide MemOk, Shape, OthersKept, Leaf;
    assert LeafOk(m, d, v, InUse(v, k, v, n));
    NothingAbove(m, d, k, v, n);
  }

  lemma MappedBelow(m0: Mem, m: Mem, lo: nat, hi: nat, d: nat, k: nat, v: nat, n: nat, held: set<nat>)
    requires Going(m0, m, lo, hi, d, k, v, n, held) && k <= v < UPAGES && d < |m.pages| && Present(Leaf(m, d, v))
    ensures v < n
  {
    hide Leaf;
    assert LeafOk(m, d, v, InUse(v, k, v, n));
  }

  lemma GoShrunk(m0: Mem, m: Mem, lo: nat, hi: nat, d: nat, k: nat, v: nat, n: nat, held: set<nat>)
    requires Going(m0, m, lo, hi, d, k, v, n, held) && n <= v
    ensures Going(m0, m, lo, hi, d, k, k, k, held)
  {
    hide MemOk, Shape, OthersKept;
    NothingAbove(m, d, k, v, n);
  }

  lemma LeftSizes(m: Mem, lo: nat, hi: nat, d: nat, i: nat)
    requires MemOk(m, lo, hi) && TablesLeft(m, d, i)
    ensures d < |m.pages| && d in m.own && m.own[d] == Dir(d) && forall f: nat :: f in m.own ==> lo <= f < hi
  {}

  lemma AllReturned(m0: Mem, m: Mem, lo: nat, hi: nat, d: nat)
    requires MemOk(m0, lo, hi) && MemOk(m, lo, hi) && Gone(m, d) && OthersKept(m0, m, d, {})
    ensures forall f: nat :: f in m0.own && OfDir(m0.own[f], d) ==> f in m.free
  {
    forall f: nat | f in m0.own && OfDir(m0.own[f], d) ensures f in m.free {
      assert f !in m.own;
    }
  }

  lemma GoSizes(m0: Mem, m: Mem, lo: nat, hi: nat, d: nat, k: nat, a: nat, n: nat, held: set<nat>)
    requires Going(m0, m, lo, hi, d, k, a, n, held)
    ensures MemOk(m, lo, hi) && d < |m.pages| <= VPAGES && 0 < lo
            && (forall f: nat :: f in held ==> lo <= f < |m.pages|)
  {}

  lemma LeafIs(m0: Mem, m: Mem, lo: nat, hi: nat, d: nat, k: nat, a: nat, n: nat, held: set<nat>, v: nat)
    requires Going(m0, m, lo, hi, d, k, a, n, held) && v < VPAGES && d < |m.pages| && Present(m.pages[d][v / ENTRIES])
    ensures var t := FrameOf(m.pages[d][v / ENTRIES]); t < |m.pages| && Leaf(m, d, v) == m.pages[t][v % ENTRIES]
  {
    TableFrame(m, d, v);
  }

  lemma NextFree(m0: Mem, m: Mem, lo: nat, hi: nat, d: nat, n: nat, held: set<nat>)
    requires Going(m0, m, lo, hi, d, n, n, n, held) && n < UPAGES
    ensures d < |m.pages| && !Present(Leaf(m, d, n))
  {
    assert LeafOk(m, d, n, InUse(n, n, n, n));
  }

  lemma MapLeaves(m0: Mem, m: Mem, lo: nat, hi: nat, d: nat, n: nat, held: set<nat>, f: nat)
    requires Going(m0, m, lo, hi, d, n, n, n, held) && n < UPAGES && f < VPAGES && d < |m.pages|
             && Present(m.pages[d][n / ENTRIES])
    requires FrameOf(m.pages[d][n / ENTRIES]) < |m.pages|
    ensures MapPage(m, d, n, f, PTE_USER).pages == SetEntry(m, d, n, PageEntry(f, PTE_USER)).pages
    ensures forall u: nat ::
            u < VPAGES ==>
                Leaf(MapPage(m, d, n, f, PTE_USER), d, u) == if u == n then PageEntry(f, PTE_USER) else Leaf(m, d, u)
  {
    forall u: nat | u < VPAGES
      ensures Leaf(MapPage(m, d, n, f, PTE_USER), d, u) == if u == n then PageEntry(f, PTE_USER) else Leaf(m, d, u)
    {
      SetEntryLeaf(m, d, n, PageEntry(f, PTE_USER), u);
    }
  }

  /** Setting the entry of a kernel page. */
  lemma GoSet(m0: Mem, m: Mem, lo: nat, hi: nat, d: nat, k: nat, a: nat, n: nat, held: set<nat>, v: nat, w: Word)
    requires Going(m0, m, lo, hi, d, k, a, n, held) && UPAGES <= v < VPAGES && d < |m.pages|
             && Present(m.pages[d][v / ENTRIES])
    ensures FrameOf(m.pages[d][v / ENTRIES]) < |m.pages| && Going(m0, SetEntry(m, d, v, w), lo, hi, d, k, a, n, held)
    ensures forall u: nat :: u < VPAGES ==> Leaf(SetEntry(m, d, v, w), d, u) == if u == v then w else Leaf(m, d, u)
  {
    hide UserOk, OthersKept, Leaf;
    TableFrame(m, d, v);
    SetEntryShape(m, d, v, w);
    var m' := SetEntry(m, d, v, w);
    forall u: nat | u < VPAGES
      ensures Leaf(m', d, u) == if u == v then w else Leaf(m, d, u)
    {
      SetEntryLeaf(m, d, v, w, u);
    }
    var t := FrameOf(m.pages[d][v / ENTRIES]);
    var p := m.pages[t][v % ENTRIES := w];
    WriteOk(m, lo, hi, t, p, m.own[t]);
    hide MemOk, Shape;
    KeptWrite(m0, m, d, held, t, p, m.own[t]);
    assert m.own[t := m.own[t]] == m.own;
    UserFrame(m, m', d, k, a, n);
  }

  lemma DirHeld(m0: Mem, m: Mem, lo: nat, hi: nat, d: nat, k: nat, a: nat, n: nat, held: set<nat>, t: nat)
    requires Going(m0, m, lo, hi, d, k, a, n, held) && t in held
    ensures d != t
  {}

  lemma FreeHead(m: Mem, lo: nat, hi: nat)
    requires MemOk(m, lo, hi)
    ensures m.free != [] ==> lo <= m.free[0] < hi
  {
    assert m.free != [] ==> m.free[0] in m.free;
  }

  ghost function AllLoose(lo: nat, hi: nat): (r: map<nat, Owner>)
    ensures forall f: nat :: f in r <==> lo <= f < hi
    ensures forall f: nat :: f in r ==> r[f] == Loose
    decreases hi
  {
    if hi <= lo then map[] else AllLoose(lo, hi - 1)[hi - 1 := Loose]
  }
}
