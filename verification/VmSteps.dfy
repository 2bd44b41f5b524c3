/** How single writes to pages move the page tables. */
module VmSteps {
  import opened Blocks
  import opened VmSpec

  lemma TableFrame(m: Mem, d: nat, v: nat)
    requires Shape(m, d) && v < VPAGES && Present(m.pages[d][v / ENTRIES])
    ensures var t := FrameOf(m.pages[d][v / ENTRIES]);
            t in m.own && m.own[t] == Table(d, v / ENTRIES) && t < |m.pages| && t != d
                && Leaf(m, d, v) == m.pages[t][v % ENTRIES]
  {
    assert TableOk(m, d, v / ENTRIES);
  }

  /** Contents of pages that are neither the directory nor one of its tables do not matter. */
  lemma LeafFrame(m: Mem, m': Mem, d: nat, v: nat)
    requires Shape(m, d) && v < VPAGES && |m'.pages| == |m.pages|
    requires forall f: nat ::
             f in m.own && f < |m.pages| && (m.own[f] == Dir(d) || (m.own[f].Table? && m.own[f].d == d)) ==>
                 m'.pages[f] == m.pages[f]
    ensures Leaf(m', d, v) == Leaf(m, d, v)
  {
    if Present(m.pages[d][v / ENTRIES]) { TableFrame(m, d, v); }
  }

  /** The same leaves and the same user ownership: the same address space. */
  lemma UserFrame(m: Mem, m': Mem, d: nat, k: nat, a: nat, n: nat)
    requires UserOk(m, d, k, a, n) && |m'.pages| == |m.pages|
    requires forall v: nat :: v < UPAGES ==> Leaf(m', d, v) == Leaf(m, d, v)
    requires forall f: nat :: f in m.own && m.own[f].User? ==> f in m'.own && m'.own[f] == m.own[f]
    requires forall f: nat :: f in m'.own && m'.own[f].User? ==> f in m.own && m.own[f] == m'.own[f]
    ensures UserOk(m', d, k, a, n)
  {
    hide Leaf;
    forall v: nat | v < UPAGES
      ensures LeafOk(m', d, v, InUse(v, k, a, n))
    {
      assert LeafOk(m, d, v, InUse(v, k, a, n));
    }
    forall f: nat | f in m'.own ensures OwnUser(m', d, f) { if m'.own[f].User? { assert OwnUser(m, d, f); } }
  }

  /** kalloc. */
  lemma PopKeeps(m: Mem, lo: nat, hi: nat, d: nat, k: nat, a: nat, n: nat)
    requires MemOk(m, lo, hi) && m.free != [] && Shape(m, d) && UserOk(m, d, k, a, n)
    ensures Shape(Pop(m), d) && UserOk(Pop(m), d, k, a, n)
  {
    PopOk(m, lo, hi);
    var m' := Pop(m);
    hide MemOk;
    forall i: nat | i < ENTRIES ensures TableOk(m', d, i) { assert TableOk(m, d, i); }
    forall f: nat | f in m'.own ensures OwnTable(m', d, f) { if f in m.own { assert OwnTable(m, d, f); } }
    assert forall v: nat :: v < UPAGES ==> Leaf(m', d, v) == Leaf(m, d, v);
    UserFrame(m, m', d, k, a, n);
  }

  /** Filling a page that is not part of the page table. */
  lemma FillKeeps(m: Mem, d: nat, k: nat, a: nat, n: nat, f: nat, p: Page)
    requires Shape(m, d) && UserOk(m, d, k, a, n) && f in m.own && m.own[f] == Loose
    ensures f < |m.pages|
    ensures var m' := m.(pages := m.pages[f := p]); Shape(m', d) && UserOk(m', d, k, a, n)
  {
    var m' := m.(pages := m.pages[f := p]);
    forall v: nat | v < VPAGES ensures Leaf(m', d, v) == Leaf(m, d, v) { LeafFrame(m, m', d, v); }
    hide Leaf;
    forall i: nat | i < ENTRIES ensures TableOk(m', d, i) { assert TableOk(m, d, i); }
    forall g: nat | g in m'.own ensures OwnTable(m', d, g) { assert OwnTable(m, d, g); }
    UserFrame(m, m', d, k, a, n);
  }

  /** Page `t` becomes the table of directory entry `i`: present, writable, for users. */
  function Attach(m: Mem, d: nat, i: nat, t: nat): Mem
    requires d < |m.pages| && i < ENTRIES && t < VPAGES
  {
    Mem(m.pages[d := m.pages[d][i := PageEntry(t, 7)]], m.own[t := Table(d, i)], m.free)
  }

  lemma AttachLeaf(m: Mem, d: nat, i: nat, t: nat, v: nat)
    requires Shape(m, d) && i < ENTRIES && t < |m.pages| <= VPAGES && !Present(m.pages[d][i])
    requires t in m.own && m.own[t] == Loose && m.pages[t] == Zeros() && v < VPAGES
    ensures Leaf(Attach(m, d, i, t), d, v) == Leaf(m, d, v)
  {
    EntryFrame(t, 7);
    if v / ENTRIES != i && Present(m.pages[d][v / ENTRIES]) { TableFrame(m, d, v); }
  }

  /** A new, empty table maps nothing. */
  lemma AttachOk(m: Mem, d: nat, i: nat, t: nat, k: nat, a: nat, n: nat)
    requires Shape(m, d) && UserOk(m, d, k, a, n) && i < ENTRIES && t < |m.pages| <= VPAGES && !Present(m.pages[d][i])
    requires t in m.own && m.own[t] == Loose && m.pages[t] == Zeros()
    ensures Shape(Attach(m, d, i, t), d) && UserOk(Attach(m, d, i, t), d, k, a, n)
  {
    var m' := Attach(m, d, i, t);
    EntryFrame(t, 7);
    forall v: nat | v < UPAGES ensures Leaf(m', d, v) == Leaf(m, d, v) { AttachLeaf(m, d, i, t, v); }
    hide Leaf, PageEntry;
    forall j: nat | j < ENTRIES ensures TableOk(m', d, j) { assert TableOk(m, d, j); }
    forall g: nat | g in m'.own ensures OwnTable(m', d, g) { assert OwnTable(m, d, g); }
    UserFrame(m, m', d, k, a, n);
  }

  /** The entry of virtual page `v` is set to `w`. */
  function SetEntry(m: Mem, d: nat, v: nat, w: Word): Mem
    requires d < |m.pages| && v < VPAGES && FrameOf(m.pages[d][v / ENTRIES]) < |m.pages|
  {
    var t := FrameOf(m.pages[d][v / ENTRIES]);
    m.(pages := m.pages[t := m.pages[t][v % ENTRIES := w]])
  }

  lemma SetEntryLeaf(m: Mem, d: nat, v: nat, w: Word, u: nat)
    requires Shape(m, d) && v < VPAGES && Present(m.pages[d][v / ENTRIES]) && u < VPAGES
    ensures FrameOf(m.pages[d][v / ENTRIES]) < |m.pages| && Leaf(SetEntry(m, d, v, w), d, u) == if u == v then w
            else Leaf(m, d, u)
  {
    TableFrame(m, d, v);
    if Present(m.pages[d][u / ENTRIES]) { TableFrame(m, d, u); }
    if u / ENTRIES == v / ENTRIES && u % ENTRIES == v % ENTRIES { assert u == v; }
  }

  lemma SetEntryShape(m: Mem, d: nat, v: nat, w: Word)
    requires Shape(m, d) && v < VPAGES && Present(m.pages[d][v / ENTRIES])
    ensures FrameOf(m.pages[d][v / ENTRIES]) < |m.pages| && Shape(SetEntry(m, d, v, w), d)
  {
    TableFrame(m, d, v);
    var m' := SetEntry(m, d, v, w);
    hide Leaf;
    forall j: nat | j < ENTRIES ensures TableOk(m', d, j) { assert TableOk(m, d, j); }
    forall g: nat | g in m'.own ensures OwnTable(m', d, g) { assert OwnTable(m, d, g); }
  }

  // ---- Mapping the next user page ----

  /** mappages of one page: the held page `f` becomes user page `v`. */
  function MapPage(m: Mem, d: nat, v: nat, f: nat, flags: nat): Mem
    requires d < |m.pages| && v < VPAGES && FrameOf(m.pages[d][v / ENTRIES]) < |m.pages| && f < VPAGES && flags < PGSIZE
  {
    SetEntry(m, d, v, PageEntry(f, flags)).(own := m.own[f := User(d, v)])
  }

  lemma MapOk(m: Mem, d: nat, v: nat, f: nat, flags: nat)
    requires Shape(m, d) && UserOk(m, d, v, v, v) && v < UPAGES && Present(m.pages[d][v / ENTRIES])
    requires f in m.own && m.own[f] == Loose && f < VPAGES && flags < PGSIZE && flags % 2 == 1
    ensures FrameOf(m.pages[d][v / ENTRIES]) < |m.pages| && SpaceOk(MapPage(m, d, v, f, flags), d, v + 1)
  {
    TableFrame(m, d, v);
    EntryFrame(f, flags);
    var w := PageEntry(f, flags);
    var m1 := SetEntry(m, d, v, w);
    var m' := MapPage(m, d, v, f, flags);
    SetEntryShape(m, d, v, w);
    forall u: nat | u < VPAGES
      ensures Leaf(m', d, u) == if u == v then w else Leaf(m, d, u)
    {
      SetEntryLeaf(m, d, v, w, u);
    }
    hide Leaf, SetEntry, PageEntry;
    assert LeafOk(m, d, v, InUse(v, v, v, v));
    assert m'.pages == m1.pages && m1.own == m.own by { SetEntryOwn(m, d, v, w); }
    forall j: nat | j < ENTRIES ensures TableOk(m', d, j) { assert TableOk(m1, d, j); }
    forall g: nat | g in m'.own
      ensures OwnTable(m', d, g) && OwnUser(m', d, g)
    {
      assert OwnTable(m1, d, g) && OwnUser(m, d, g);
    }
    var n := v + 1;
    forall u: nat | u < UPAGES
      ensures LeafOk(m', d, u, InUse(u, n, n, n))
    {
      assert LeafOk(m, d, u, InUse(u, v, v, v));
    }
  }

  lemma SetEntryOwn(m: Mem, d: nat, v: nat, w: Word)
    requires d < |m.pages| && v < VPAGES && FrameOf(m.pages[d][v / ENTRIES]) < |m.pages|
    ensures SetEntry(m, d, v, w).own == m.own && SetEntry(m, d, v, w).free == m.free
            && |SetEntry(m, d, v, w).pages| == |m.pages|
  {}

  // ---- Freeing a user page ----

  /** kfree of a page outside the page table. */
  lemma PushShape(m: Mem, lo: nat, hi: nat, d: nat, f: nat)
    requires MemOk(m, lo, hi) && Shape(m, d) && f in m.own && (m.own[f].User? || m.own[f] == Loose)
    ensures f < |m.pages| && LinkWord(m.free, 0) < 0x1_0000_0000 && Shape(Push(m, f), d)
    ensures forall v: nat :: v < VPAGES ==> Leaf(Push(m, f), d, v) == Leaf(m, d, v)
  {
    PushOk(m, lo, hi, f);
    hide MemOk, Junk;
    var m' := Push(m, f);
    forall v: nat | v < VPAGES ensures Leaf(m', d, v) == Leaf(m, d, v) { LeafFrame(m, m', d, v); }
    hide Leaf;
    forall i: nat | i < ENTRIES ensures TableOk(m', d, i) { assert TableOk(m, d, i); }
    forall g: nat | g in m'.own ensures OwnTable(m', d, g) { assert OwnTable(m, d, g); }
  }

  /** Page `f`, mapped at `v`, goes to the free list, and its entry is cleared. */
  function Unmap(m: Mem, d: nat, v: nat, f: nat): Mem
    requires d < |m.pages| && v < VPAGES && f < |m.pages| && LinkWord(m.free, 0) < 0x1_0000_0000
    requires f != d && FrameOf(m.pages[d][v / ENTRIES]) < |m.pages|
  {
    SetEntry(Push(m, f), d, v, 0)
  }

  lemma UnmapOk(m: Mem, lo: nat, hi: nat, d: nat, k: nat, v: nat, n: nat)
    requires MemOk(m, lo, hi) && Shape(m, d) && UserOk(m, d, k, v, n) && k <= v < n && v < UPAGES
    ensures var f := FrameOf(Leaf(m, d, v));
            && Present(Leaf(m, d, v)) && f in m.own && m.own[f] == User(d, v) && f < |m.pages| && f != d
               && LinkWord(m.free, 0) < 0x1_0000_0000
            && FrameOf(m.pages[d][v / ENTRIES]) < |m.pages|
            && MemOk(Unmap(m, d, v, f), lo, hi) && Shape(Unmap(m, d, v, f), d)
               && UserOk(Unmap(m, d, v, f), d, k, v + 1, n)
  {
    assert LeafOk(m, d, v, InUse(v, k, v, n));
    var f := FrameOf(Leaf(m, d, v));
    assert Present(m.pages[d][v / ENTRIES]);
    TableFrame(m, d, v);
    PushShape(m, lo, hi, d, f);
    PushOk(m, lo, hi, f);
    var m1 := Push(m, f);
    assert m1.pages[d] == m.pages[d];
    TableFrame(m1, d, v);
    SetEntryShape(m1, d, v, 0);
    var m' := Unmap(m, d, v, f);
    var t := FrameOf(m1.pages[d][v / ENTRIES]);
    WriteOk(m1, lo, hi, t, m1.pages[t][v % ENTRIES := 0], m1.own[t]);
    assert m1.own[t := m1.own[t]] == m1.own;
    forall u: nat | u < VPAGES
      ensures Leaf(m', d, u) == if u == v then 0 else Leaf(m, d, u)
    {
      SetEntryLeaf(m1, d, v, 0, u);
    }
    UnmapUser(m, m', d, k, v, n, f);
  }

  lemma UnmapUser(m: Mem, m': Mem, d: nat, k: nat, v: nat, n: nat, f: nat)
    requires UserOk(m, d, k, v, n) && k <= v < n && v < UPAGES && |m'.pages| == |m.pages|
    requires f == FrameOf(Leaf(m, d, v)) && m'.own == m.own - {f}
    requires forall u: nat :: u < VPAGES ==> Leaf(m', d, u) == if u == v then 0 else Leaf(m, d, u)
    ensures UserOk(m', d, k, v + 1, n)
  {
    hide Leaf;
    var a := v + 1;
    assert LeafOk(m, d, v, InUse(v, k, v, n));
    forall u: nat | u < UPAGES
      ensures LeafOk(m', d, u, InUse(u, k, a, n))
    {
      assert LeafOk(m, d, u, InUse(u, k, v, n));
    }
    forall g: nat | g in m'.own ensures OwnUser(m', d, g) { assert OwnUser(m, d, g); }
  }

  /** The 4 MB step of deallocuvm: without a table nothing is mapped here, so, the rest of the space
      being contiguous, nothing is mapped further up either. */
  lemma SkipOk(m: Mem, d: nat, k: nat, v: nat, n: nat)
    requires UserOk(m, d, k, v, n) && k <= v < UPAGES && !Present(m.pages[d][v / ENTRIES])
    ensures n <= v && UserOk(m, d, k, v + ENTRIES, n) && UserOk(m, d, k, k, k)
  {
    assert LeafOk(m, d, v, InUse(v, k, v, n));
    NothingAbove(m, d, k, v, n);
  }

  lemma NothingAbove(m: Mem, d: nat, k: nat, v: nat, n: nat)
    requires UserOk(m, d, k, v, n) && (n <= v || n <= k)
    ensures UserOk(m, d, k, v + ENTRIES, n) && UserOk(m, d, k, k, k) && UserOk(m, d, k, v + 1, n)
  {
    hide Leaf;
    var v1, v2 := v + ENTRIES, v + 1;
    forall u: nat | u < UPAGES
      ensures LeafOk(m, d, u, InUse(u, k, v1, n)) && LeafOk(m, d, u, InUse(u, k, k, k))
              && LeafOk(m, d, u, InUse(u, k, v2, n))
    {
      assert LeafOk(m, d, u, InUse(u, k, v, n));
    }
  }

  // ---- Freeing the tables ----

  ghost predicate StillOwned(m: Mem, d: nat, i: nat, f: nat)
    requires d < |m.pages| && f in m.own
  {
    OfDir(m.own[f], d) ==>
      || (f == d && m.own[f] == Dir(d))
      || (m.own[f].Table? && i <= m.own[f].i < ENTRIES && Present(m.pages[d][m.own[f].i])
         && FrameOf(m.pages[d][m.own[f].i]) == f)
  }

  /** Part way through freevm: of directory `d` only the tables from index `i` on are left, and the
      directory page. */
  ghost predicate TablesLeft(m: Mem, d: nat, i: nat) {
    && d < |m.pages| && d in m.own && m.own[d] == Dir(d)
    && (forall j: nat :: i <= j < ENTRIES ==> TableOk(m, d, j))
    && (forall f: nat :: f in m.own ==> f < |m.pages| && StillOwned(m, d, i, f))
  }

  lemma TablesStart(m: Mem, d: nat)
    requires SpaceOk(m, d, 0)
    ensures TablesLeft(m, d, 0)
  {
    hide Leaf;
    forall f: nat | f in m.own ensures f < |m.pages| && StillOwned(m, d, 0, f) {
      assert OwnTable(m, d, f) && OwnUser(m, d, f);
      assert m.own[f].User? && m.own[f].v < UPAGES ==> LeafOk(m, d, m.own[f].v, InUse(m.own[f].v, 0, 0, 0));
    }
  }

  lemma TablesStep(m: Mem, lo: nat, hi: nat, d: nat, i: nat)
    requires MemOk(m, lo, hi) && TablesLeft(m, d, i) && i < ENTRIES
    ensures var f := FrameOf(m.pages[d][i]);
            if Present(m.pages[d][i]) then
              && f in m.own && OfDir(m.own[f], d) && f < |m.pages| && LinkWord(m.free, 0) < 0x1_0000_0000 && f != d
              && MemOk(Push(m, f), lo, hi) && TablesLeft(Push(m, f), d, i + 1)
            else TablesLeft(m, d, i + 1)
  {
    var next := i + 1;
    assert TableOk(m, d, i);
    if Present(m.pages[d][i]) {
      var f := FrameOf(m.pages[d][i]);
      PushOk(m, lo, hi, f);
      hide MemOk, Junk;
      var m' := Push(m, f);
      forall j: nat | next <= j < ENTRIES ensures TableOk(m', d, j) { assert TableOk(m, d, j); }
      forall g: nat | g in m'.own
        ensures g < |m'.pages| && StillOwned(m', d, next, g)
      {
        assert StillOwned(m, d, i, g);
      }
    } else {
      hide MemOk;
      forall g: nat | g in m.own ensures StillOwned(m, d, next, g) { assert StillOwned(m, d, i, g); }
    }
  }

  /** Nothing is owned in the name of `d` any more. */
  ghost predicate Gone(m: Mem, d: nat) { forall f: nat :: f in m.own ==> !OfDir(m.own[f], d) }

  lemma TablesEnd(m: Mem, lo: nat, hi: nat, d: nat)
    requires MemOk(m, lo, hi) && TablesLeft(m, d, ENTRIES)
    ensures LinkWord(m.free, 0) < 0x1_0000_0000 && MemOk(Push(m, d), lo, hi) && Gone(Push(m, d), d)
  {
    PushOk(m, lo, hi, d);
    hide MemOk;
    forall g: nat | g in Push(m, d).own ensures !OfDir(m.own[g], d) { assert StillOwned(m, d, ENTRIES, g); }
  }

  // ---- Other directories ----

  lemma KeptPop(m0: Mem, m: Mem, lo: nat, hi: nat, d: nat, held: set<nat>)
    requires OthersKept(m0, m, d, held) && MemOk(m, lo, hi) && m.free != []
    ensures OthersKept(m0, Pop(m), d, held + {m.free[0]})
  {
    PopOk(m, lo, hi);
    hide OfDir, MemOk;
  }

  /** Writing a page of `d`, or a held page, and perhaps giving the held page to `d`. */
  lemma KeptWrite(m0: Mem, m: Mem, d: nat, held: set<nat>, f: nat, p: Page, o: Owner)
    requires OthersKept(m0, m, d, held) && f in m.own && f < |m.pages|
    requires (OfDir(m.own[f], d) && o == m.own[f]) || (f in held && m.own[f] == Loose && (o == Loose || OfDir(o, d)))
    ensures OthersKept(m0, Mem(m.pages[f := p], m.own[f := o], m.free), d, if o == m.own[f] then held else held - {f})
  {
    hide OfDir;
  }

  lemma KeptPush(m0: Mem, m: Mem, d: nat, held: set<nat>, f: nat)
    requires OthersKept(m0, m, d, held) && f in m.own && f < |m.pages| && LinkWord(m.free, 0) < 0x1_0000_0000
    requires OfDir(m.own[f], d) || f in held
    ensures OthersKept(m0, Push(m, f), d, held - {f})
  {
    hide OfDir, Junk;
  }

  /** Another directory's address space is as it was. */
  lemma OtherSpace(m: Mem, m': Mem, d: nat, e: nat, n: nat)
    requires SpaceOk(m, e, n) && OthersKept(m, m', d, {}) && d != e && forall f: nat :: f in m'.own ==> f < |m'.pages|
    ensures SpaceOk(m', e, n) && forall v: nat :: v < UPAGES ==> Leaf(m', e, v) == Leaf(m, e, v)
  {
    forall v: nat | v < UPAGES ensures Leaf(m', e, v) == Leaf(m, e, v) { LeafFrame(m, m', e, v); }
    hide Leaf;
    forall i: nat | i < ENTRIES ensures TableOk(m', e, i) { assert TableOk(m, e, i); }
    forall f: nat | f in m'.own ensures OwnTable(m', e, f) && OwnUser(m', e, f) {
      if !OfDir(m'.own[f], d) { assert OwnTable(m, e, f) && OwnUser(m, e, f); }
    }
    forall v: nat | v < UPAGES
      ensures LeafOk(m', e, v, InUse(v, n, n, n))
    {
      assert LeafOk(m, e, v, InUse(v, n, n, n));
    }
  }
}
