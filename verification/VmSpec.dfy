/** Physical pages, the page allocator's free list (kalloc.c) and two-level page tables (vm.c). */
module VmSpec {
  import opened Blocks

  const ENTRIES: nat := 1024        // words in a page, entries in a table
  const PGSIZE: nat := 4096
  const UPAGES: nat := 0x80000      // user pages: KERNBASE / PGSIZE
  const VPAGES: nat := 0x10_0000    // all virtual pages

  type Page = p: seq<Word> | |p| == ENTRIES witness seq(ENTRIES, i => 0)

  /** What an allocated page is for. */
  datatype Owner = Loose | Dir(d: nat) | Table(d: nat, i: nat) | User(d: nat, v: nat)

  /** Page contents, the use of every allocated page, and the free list in order. */
  datatype Mem = Mem(pages: seq<Page>, own: map<nat, Owner>, free: seq<nat>)

  predicate Present(w: Word) { w % 2 == 1 }

  /** Present, writable and for user programs: the three lowest bits. */
  predicate ForUsers(w: Word) { w % 8 == 7 }

  function FrameOf(w: Word): nat { w / PGSIZE }

  function PageEntry(f: nat, flags: nat): Word
    requires f < VPAGES && flags < PGSIZE
  {
    f * PGSIZE + flags
  }

  lemma EntryFrame(f: nat, flags: nat)
    requires f < VPAGES && flags < PGSIZE
    ensures FrameOf(PageEntry(f, flags)) == f && (Present(PageEntry(f, flags)) <==> flags % 2 == 1)
    ensures ForUsers(PageEntry(f, flags)) <==> flags % 8 == 7
  {
    assert f * PGSIZE + flags == 8 * (512 * f) + flags;
  }

  function Zeros(): (p: Page)
    ensures forall i :: 0 <= i < ENTRIES ==> p[i] == 0
  {
    seq(ENTRIES, i => 0)
  }

  /** memset(v, 1, PGSIZE), then the link to the next free page. */
  function Junk(next: Word): (p: Page)
    ensures p[0] == next && forall i :: 1 <= i < ENTRIES ==> p[i] == 0x0101_0101
  {
    seq(ENTRIES, i => 0x0101_0101)[0 := next]
  }

  // ---- The free list ----

  function LinkWord(free: seq<nat>, i: nat): nat { if i < |free| then free[i] * PGSIZE else 0 }

  ghost predicate Linked(pages: seq<Page>, free: seq<nat>, i: nat)
    requires i < |free|
  {
    free[i] < |pages| && pages[free[i]][0] == LinkWord(free, i + 1)
  }

  ghost predicate Distinct(s: seq<nat>) { forall i, j :: 0 <= i < |s| && 0 <= j < |s| && s[i] == s[j] ==> i == j }

  /** Pages `lo` to `hi`: each is either on the free list, once, or in use. */
  ghost predicate MemOk(m: Mem, lo: nat, hi: nat) {
    && 0 < lo <= hi <= |m.pages| <= VPAGES
    && (forall f: nat :: f in m.own ==> lo <= f < hi)
    && Distinct(m.free) && (forall f: nat :: f in m.free <==> lo <= f < hi && f !in m.own)
    && (forall i: nat :: i < |m.free| ==> Linked(m.pages, m.free, i))
  }

  /** kalloc takes the first free page. */
  function Pop(m: Mem): Mem
    requires m.free != []
  {
    Mem(m.pages, m.own[m.free[0] := Loose], m.free[1..])
  }

  lemma PopOk(m: Mem, lo: nat, hi: nat)
    requires MemOk(m, lo, hi) && m.free != []
    ensures MemOk(Pop(m), lo, hi) && m.free[0] !in m.own && lo <= m.free[0] < hi
  {
    var m' := Pop(m);
    assert m.free[0] in m.free;
    forall f: nat ensures f in m'.free <==> lo <= f < hi && f !in m'.own {
      if f in m.free && f != m.free[0] {
        var i :| 0 <= i < |m.free| && m.free[i] == f;
        assert m'.free[i - 1] == f;
      }
    }
    forall i: nat | i < |m'.free| ensures Linked(m'.pages, m'.free, i) { assert Linked(m.pages, m.free, i + 1); }
  }

  /** kfree puts the page at the front. */
  function Push(m: Mem, f: nat): Mem
    requires f < |m.pages| && LinkWord(m.free, 0) < 0x1_0000_0000
  {
    Mem(m.pages[f := Junk(LinkWord(m.free, 0))], m.own - {f}, [f] + m.free)
  }

  lemma PushOk(m: Mem, lo: nat, hi: nat, f: nat)
    requires MemOk(m, lo, hi) && f in m.own
    ensures f < |m.pages| && LinkWord(m.free, 0) < 0x1_0000_0000 && MemOk(Push(m, f), lo, hi)
  {
    assert m.free != [] ==> m.free[0] in m.free;
    var m' := Push(m, f);
    forall g: nat ensures g in m'.free <==> lo <= g < hi && g !in m'.own {}
    forall i: nat | i < |m'.free| ensures Linked(m'.pages, m'.free, i) {
      if i > 0 {
        assert Linked(m.pages, m.free, i - 1);
        assert m.free[i - 1] in m.free;
      }
    }
  }

  /** Writing a page in use does not disturb the free list. */
  lemma WriteOk(m: Mem, lo: nat, hi: nat, f: nat, p: Page, o: Owner)
    requires MemOk(m, lo, hi) && f in m.own
    ensures f < |m.pages| && MemOk(Mem(m.pages[f := p], m.own[f := o], m.free), lo, hi)
  {
    var m' := Mem(m.pages[f := p], m.own[f := o], m.free);
    forall i: nat | i < |m'.free| ensures Linked(m'.pages, m'.free, i) {
      assert Linked(m.pages, m.free, i);
      assert m.free[i] in m.free;
    }
  }

  // ---- Page tables ----

  /** The entry of virtual page `v`, 0 when it has no table. */
  function Leaf(m: Mem, d: nat, v: nat): Word
    requires d < |m.pages| && v < VPAGES
  {
    var e := m.pages[d][v / ENTRIES];
    if Present(e) && FrameOf(e) < |m.pages| then m.pages[FrameOf(e)][v % ENTRIES] else 0
  }

  /** Every table of directory `d` is a page of its own, with an entry that lets users through. */
  ghost predicate TableOk(m: Mem, d: nat, i: nat)
    requires d < |m.pages| && i < ENTRIES
  {
    Present(m.pages[d][i]) ==>
      && FrameOf(m.pages[d][i]) in m.own && m.own[FrameOf(m.pages[d][i])] == Table(d, i)
      && ForUsers(m.pages[d][i])
  }

  ghost predicate OwnTable(m: Mem, d: nat, f: nat)
    requires d < |m.pages| && f in m.own
  {
    match m.own[f]
    case Dir(e) => e == d ==> f == d
    case Table(e, i) => e == d ==> i < ENTRIES && Present(m.pages[d][i]) && FrameOf(m.pages[d][i]) == f
    case _ => true
  }

  /** Directory `d` and its tables own their pages, and nothing else is owned in their name. */
  ghost predicate Shape(m: Mem, d: nat) {
    && d < |m.pages| && d in m.own && m.own[d] == Dir(d) && (forall f: nat :: f in m.own ==> f < |m.pages|)
    && (forall i: nat :: i < ENTRIES ==> TableOk(m, d, i))
    && (forall f: nat :: f in m.own ==> OwnTable(m, d, f))
  }

  /** Which user pages are mapped: those below `k`, and those from `a` up to `n`. */
  predicate InUse(v: nat, k: nat, a: nat, n: nat) { v < k || a <= v < n }

  ghost predicate LeafOk(m: Mem, d: nat, v: nat, used: bool)
    requires d < |m.pages| && v < UPAGES
  {
    && (Present(Leaf(m, d, v)) <==> used)
    && (used ==> FrameOf(Leaf(m, d, v)) in m.own && m.own[FrameOf(Leaf(m, d, v))] == User(d, v))
  }

  ghost predicate OwnUser(m: Mem, d: nat, f: nat)
    requires d < |m.pages| && f in m.own
  {
    m.own[f].User? && m.own[f].d == d ==>
        m.own[f].v < UPAGES && Present(Leaf(m, d, m.own[f].v)) && FrameOf(Leaf(m, d, m.own[f].v)) == f
  }

  /** The user pages of directory `d` are exactly those in use, each with a page of its own. */
  ghost predicate UserOk(m: Mem, d: nat, k: nat, a: nat, n: nat) {
    && d < |m.pages|
    && (forall v: nat :: v < UPAGES ==> LeafOk(m, d, v, InUse(v, k, a, n)))
    && (forall f: nat :: f in m.own ==> OwnUser(m, d, f))
  }

  /** A user address space of `n` pages. */
  ghost predicate SpaceOk(m: Mem, d: nat, n: nat) { Shape(m, d) && UserOk(m, d, n, n, n) }

  predicate OfDir(o: Owner, d: nat) {
    match o
    case Loose => false
    case Dir(e) => e == d
    case Table(e, _) => e == d
    case User(e, _) => e == d
  }

  /** Work on directory `d` leaves every page it does not own alone; `held` are pages taken from the
      free list on the way. */
  ghost predicate OthersKept(m: Mem, m': Mem, d: nat, held: set<nat>) {
    && |m'.pages| == |m.pages|
    && (forall f: nat :: f in m.own && !OfDir(m.own[f], d) ==> f in m'.own && m'.own[f] == m.own[f] && f !in held)
    && (forall f: nat :: f in m.own && !OfDir(m.own[f], d) && f < |m.pages| ==> m'.pages[f] == m.pages[f])
    && (forall f: nat ::
         f in m'.own && !OfDir(m'.own[f], d) ==>
             (f in held && m'.own[f] == Loose) || (f in m.own && m.own[f] == m'.own[f]))
  }
}
