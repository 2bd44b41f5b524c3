/** umalloc.c's free, morecore and malloc as code.  The answer sbrk would give is a parameter. */
module AllocCode {
  import opened AllocSpec
  import opened Options

  const HEADER: nat := 8  // bytes in a header

  /** Units for `nbytes` bytes and a header, with the 32-bit addition of the source. */
  function NUnits(nbytes: nat): nat { (nbytes + HEADER - 1) % 0x1_0000_0000 / HEADER + 1 }

  /** The rounding leaves room for the request exactly when the addition does not wrap. */
  lemma RoomExactly(nbytes: nat)
    requires nbytes < 0x1_0000_0000
    ensures (NUnits(nbytes) - 1) * HEADER >= nbytes <==> nbytes <= 0x1_0000_0000 - HEADER
    ensures nbytes <= 0x1_0000_0000 - HEADER ==> (NUnits(nbytes) - 1) * HEADER < nbytes + HEADER
  {}

  /** The number morecore hands sbrk, a signed 32-bit int. */
  function SbrkBytes(nu: nat): int {
    var n := nu * HEADER % 0x1_0000_0000;
    if n < 0x8000_0000 then n else n - 0x1_0000_0000
  }

  /** morecore asks for what it means exactly when the request is under two gigabytes. */
  lemma SbrkExactly(nbytes: nat)
    requires nbytes <= 0x1_0000_0000 - HEADER
    ensures SbrkBytes(NUnits(nbytes)) == NUnits(nbytes) * HEADER <==> nbytes <= 0x7FFF_FFF0
  {}

  /** Steps from list index `i` on to index `f`. */
  function Dist(i: nat, f: nat, n: nat): nat
    requires i < n && f < n
  {
    if i <= f then f - i else f + n - i
  }

  class Allocator {
    const base: nat  // address of the static header
    var ptr: map<nat, nat>
    var size: map<nat, nat>
    var freep: nat  // 0 before the first malloc
    ghost var brk: nat
    ghost var fl: seq<nat>
    ghost var live: set<nat>
    ghost var owner: map<nat, nat>
    ghost var grown: nat  // successful morecore calls

    ghost function State(): Heap
      reads this
    {
      Heap(ptr, size, fl, live, owner)
    }

    ghost predicate Ready()
      reads this
    {
      0 < base && HeapOk(State(), base, brk) && freep in fl
    }

    /** Nothing allocated yet, or a sound heap. */
    ghost predicate Valid()
      reads this
    {
      if freep == 0 then 0 < base < brk && live == {} && owner == map[] && fl == [] else Ready()
    }

    constructor (base: nat, brk: nat)
      requires 0 < base < brk
      ensures Valid() && live == {} && owner == map[] && this.base == base && this.brk == brk
    {
      this.base, this.brk, ptr, size, freep := base, brk, map[], map[], 0;
      fl, live, owner, grown := [], {}, map[], 0;
    }

    /** free's loop: the list entry `bp` goes after. */
    method FindSlot(bp: nat) returns (p: nat, ghost i: nat)
      requires Ready() && bp in live
      ensures SlotFor(fl, i, bp) && p == fl[i]
    {
      hide Tiles, Coalesced, FreeBlocks;
      NotInList(State(), base, brk, bp);
      ghost var t := Slot(fl, bp);
      p := freep;
      i :| 0 <= i < |fl| && fl[i] == p;
      assert LinkedAt(ptr, fl, i);
      while !(bp > p && bp < ptr[p])
        invariant i < |fl| && fl[i] == p && LinkedAt(ptr, fl, i)
        decreases Dist(i, t, |fl|)
      {
        if p >= ptr[p] && (bp > p || bp < ptr[p]) { break; }
        assert i != t;
        p := ptr[p];
        i := NextIx(i, |fl|);
        assert LinkedAt(ptr, fl, i);
      }
    }

    method Free(ap: nat)
      requires Ready() && 0 < ap && ap - 1 in live
      modifies this`ptr, this`size, this`freep, this`fl, this`live, this`owner
      ensures Ready() && live == old(live) - {ap - 1} && owner.Keys == old(owner.Keys)
      ensures KeepsSizes(live, old(size), size)
      ensures ap - 1 in old(size) && Holds(State(), ap - 1, old(size)[ap - 1])
    {
      hide HeapOk, HalfFreed, KeepsSizes, Holds;
      var bp := ap - 1;
      var p, i := FindSlot(bp);
      JoinAfter(bp, p, i);
      ghost var was := size;
      JoinBefore(bp, p, i);
      KeepsTrans(live, old(size), was, size);
      HoldsLess(State(), bp, was[bp], old(size)[bp]);
      freep := p;
    }

    /** free's first test: join `bp` with a neighbour after it, and point it at what follows. */
    method JoinAfter(bp: nat, p: nat, ghost i: nat)
      requires HeapOk(State(), base, brk) && bp in live && SlotFor(fl, i, bp) && p == fl[i]
      modifies this`ptr, this`size, this`fl, this`owner
      ensures HalfFreed(State(), base, brk, i, bp) && i < |fl| && p == fl[i] && owner.Keys == old(owner.Keys)
      ensures KeepsSizes(live - {bp}, old(size), size) && bp in old(size) && bp in size && size[bp] >= old(size)[bp]
    {
      hide HeapOk, BlocksOk, Linked;
      FreeFacts(State(), base, brk, i, bp);
      ghost var h := State();
      var next := ptr[p];
      if bp + size[bp] == next {
        JoinedRightOk(h, base, brk, i, bp);
        ptr, size := ptr[bp := ptr[next]], size[bp := size[bp] + size[next]];
        fl, owner := RemoveAt(fl, i + 1), Remap(owner, next, h.size[next], bp);
      } else {
        KeptRightOk(h, base, brk, i, bp);
        ptr := ptr[bp := next];
      }
    }

    /** free's second test: join `bp` to a neighbour before it, or link it in. */
    method JoinBefore(bp: nat, p: nat, ghost i: nat)
      requires HalfFreed(State(), base, brk, i, bp) && p == fl[i]
      modifies this`ptr, this`size, this`fl, this`live, this`owner
      ensures HeapOk(State(), base, brk) && live == old(live) - {bp} && owner.Keys == old(owner.Keys) && p in fl
      ensures KeepsSizes(live, old(size), size) && bp in old(size) && Holds(State(), bp, old(size)[bp])
    {
      hide HeapOk;
      ghost var h := State();
      HalfFacts(h, base, brk, i, bp);
      hide HalfFreed;
      if p + size[p] == bp {
        JoinedLeftOk(h, base, brk, i, bp);
        ptr, size := ptr[p := ptr[bp]], size[p := size[p] + size[bp]];
        live, owner := live - {bp}, Remap(owner, bp, h.size[bp], p);
        assert fl[i] == p;
      } else {
        InsertedOk(h, base, brk, i, bp);
        ptr := ptr[p := bp];
        fl, live := InsertAt(fl, i + 1, bp), live - {bp};
        assert fl[i] == p && fl[i + 1] == bp;
      }
    }

    /** Get at least `nu` units from sbrk and put them on the free list. */
    method Morecore(nu: nat, sbrk: Option<nat>) returns (ok: bool)
      requires Ready() && 0 < nu && (sbrk.Some? ==> brk <= sbrk.value && SbrkBytes(nu) == nu * HEADER)
      modifies this
      ensures Ready() && live == old(live) && KeepsSizes(live, old(size), size)
      ensures ok <==> sbrk.Some?
      ensures !ok ==> State() == old(State()) && freep == old(freep) && brk == old(brk) && grown == old(grown)
      ensures ok ==> grown == old(grown) + 1 && Fits(State(), nu)
      ensures ok ==> owner.Keys == old(owner.Keys) + Region(sbrk.value, if nu < 4096 then 4096 else nu).Keys
    {
      hide HeapOk;
      var n := if nu < 4096 then 4096 else nu;
      LiveSizes(State(), base, brk);
      if sbrk.None? { return false; }
      var q := sbrk.value;
      ExtendedOk(State(), base, brk, q, n);
      size := size[q := n];
      live, owner, brk, grown := live + {q}, owner + Region(q, n), q + n, grown + 1;
      assert live - {q} == old(live);
      Free(q + 1);
      HoldsFits(State(), base, brk, q, n, nu);
      assert owner.Keys == old(owner.Keys) + Region(q, n).Keys;
      return true;
    }

    /** The address of a block for `nbytes` bytes, or 0. */
    method Malloc(nbytes: nat, sbrk: Option<nat>) returns (r: nat)
      requires Valid() && nbytes <= 0x1_0000_0000 - HEADER && (sbrk.Some? ==> brk <= sbrk.value)
      requires nbytes <= 0x7FFF_FFF0 || Fits(State(), NUnits(nbytes)) || sbrk.None?
      modifies this
      ensures Ready() && grown <= old(grown) + 1 && old(owner.Keys) <= owner.Keys
      ensures grown == old(grown) ==> owner.Keys == old(owner.Keys)
      ensures grown > old(grown) <==> !Fits(old(State()), NUnits(nbytes)) && sbrk.Some?
      ensures r == 0 <==> !Fits(old(State()), NUnits(nbytes)) && sbrk.None?
      ensures r != 0 ==>
              r - 1 !in old(live) && live == old(live) + {r - 1} && r - 1 in size
                  && size[r - 1] == NUnits(nbytes) && (size[r - 1] - 1) * HEADER >= nbytes
      ensures r == 0 ==> live == old(live)
      ensures KeepsSizes(old(live), old(size), size)
    {
      hide HeapOk, Fits, NoFitBehind, KeepsSizes;
      var nunits := NUnits(nbytes);
      var prevp := freep;
      if prevp == 0 {
        ptr, size, freep, prevp := ptr[base := base], size[base := 0], base, base;
        fl := [base];
        FirstHeap(State(), base, brk);
      }
      LiveSizes(State(), base, brk);
      ghost var h := State();
      FitsFirst(old(State()), h, base, nunits);
      assert KeepsSizes(live, old(size), size) by { KeepsSame(live, old(size), size); }
      ghost var f: nat := IndexOf(fl, freep);
      LinkFacts(State(), base, brk, f);
      var p := ptr[prevp];
      ghost var i: nat := NextIx(f, |fl|);
      StartWalk(State(), f, nunits);
      while true
        invariant Ready() && i < |fl| && f < |fl| && fl[f] == freep && fl[i] == p && prevp in fl
                  && i == NextIx(IndexOf(fl, prevp), |fl|)
        invariant old(grown) <= grown <= old(grown) + 1 && live == old(live) && old(owner.Keys) <= owner.Keys
        invariant grown == old(grown) ==> owner.Keys == old(owner.Keys) && (sbrk.Some? ==> brk <= sbrk.value)
        invariant grown > old(grown) ==> Fits(State(), nunits) && sbrk.Some? && !Fits(h, nunits)
        invariant grown == old(grown) ==> State() == h
        invariant KeepsSizes(live, old(size), size)
        invariant NoFitBehind(State(), i, f, nunits)
        decreases old(grown) + 1 - grown, Dist(i, f, |fl|)
      {
        LinkFacts(State(), base, brk, i);
        if size[p] >= nunits {
          FitsAt(State(), i, nunits);
          ghost var was := size;
          r := TakeFrom(p, prevp, i, nunits);
          KeepsTrans(old(live), old(size), was, size);
          RoomExactly(nbytes);
          return;
        }
        if p == freep {
          AscendingIndex(State(), base, brk, i, f);
          NoFit(State(), base, brk, i, f, nunits);
          if nbytes <= 0x7FFF_FFF0 { SbrkExactly(nbytes); }
          ghost var was := size;
          var ok := Morecore(nunits, sbrk);
          KeepsTrans(old(live), old(size), was, size);
          if !ok { return 0; }
          f := IndexOf(fl, freep);
          LinkFacts(State(), base, brk, f);
          StartWalk(State(), f, nunits);
          prevp := freep;
          p := ptr[freep];
          i := NextIx(f, |fl|);
        } else {
          NoFitNext(State(), base, brk, i, f, nunits);
          AscendingIndex(State(), base, brk, i, IndexOf(fl, p));
          prevp := p;
          p := ptr[p];
          i := NextIx(i, |fl|);
        }
      }
    }

    /** Hand out `n` units of the free block at `p`, list entry `i`. */
    method TakeFrom(p: nat, prevp: nat, ghost i: nat, n: nat) returns (r: nat)
      requires Ready() && i < |fl| && fl[i] == p && prevp in fl && i == NextIx(IndexOf(fl, prevp), |fl|)
      requires 0 < n && p in size && p in ptr && n <= size[p]
      modifies this`ptr, this`size, this`freep, this`fl, this`live, this`owner
      ensures Ready() && r > 0 && r - 1 !in old(live) && live == old(live) + {r - 1} && owner.Keys == old(owner.Keys)
      ensures r - 1 in size && size[r - 1] == n && KeepsSizes(old(live), old(size), size)
    {
      hide HeapOk;
      ghost var h := State();
      BaseEmpty(h, base, brk, i);
      LiveSizes(h, base, brk);
      NotLive(h, base, brk, i);
      if size[p] == n {
        TakenOk(h, base, brk, i);
        ptr := ptr[prevp := ptr[p]];
        fl, live := RemoveAt(fl, i), live + {p};
        assert fl[i - 1] == prevp;
        freep := prevp;
        return p + 1;
      } else {
        CutOk(h, base, brk, i, n);
        size := size[p := size[p] - n];
        var c := p + size[p];
        size := size[c := n];
        live, owner := live + {c}, Remap(owner, c, n, c);
        freep := prevp;
        return c + 1;
      }
    }
  }

  ghost function IndexOf(fl: seq<nat>, p: nat): (i: nat)
    requires p in fl
    ensures i < |fl| && fl[i] == p
  {
    var i :| 0 <= i < |fl| && fl[i] == p;
    i
  }

  /** Blocks in use keep their size. */
  ghost predicate KeepsSizes(live: set<nat>, size: map<nat, nat>, size': map<nat, nat>) {
    forall l :: l in live ==> l in size && l in size' && size'[l] == size[l]
  }

  lemma KeepsTrans(live: set<nat>, size: map<nat, nat>, size': map<nat, nat>, size'': map<nat, nat>)
    requires KeepsSizes(live, size, size') && KeepsSizes(live, size', size'')
    ensures KeepsSizes(live, size, size'')
  {}

  lemma KeepsSame(live: set<nat>, size: map<nat, nat>, size': map<nat, nat>)
    requires (forall l :: l in live ==> l in size') && (size' == size || live == {})
    ensures KeepsSizes(live, size, size')
  {}

  lemma StartWalk(h: Heap, f: nat, n: nat)
    requires f < |h.fl|
    ensures NoFitBehind(h, NextIx(f, |h.fl|), f, n)
  {}

  /** No list entry met since the walk started after entry `f` is big enough. */
  ghost predicate NoFitBehind(h: Heap, i: nat, f: nat, n: nat) {
    && i < |h.fl| && f < |h.fl|
    && forall j: nat ::
         j < |h.fl| && Dist(j, f, |h.fl|) > Dist(i, f, |h.fl|) ==> h.fl[j] in h.size && h.size[h.fl[j]] < n
  }

  lemma FirstHeap(h: Heap, base: nat, brk: nat)
    requires 0 < base < brk && h.fl == [base] && h.live == {} && h.owner == map[]
    requires base in h.ptr && h.ptr[base] == base && base in h.size && h.size[base] == 0
    ensures HeapOk(h, base, brk)
  {
    assert FreeBlocks(h.fl) == {};
    forall i: nat | i < |h.fl| ensures LinkedAt(h.ptr, h.fl, i) {}
  }

  lemma LinkFacts(h: Heap, base: nat, brk: nat, i: nat)
    requires HeapOk(h, base, brk) && i < |h.fl|
    ensures h.fl[i] in h.ptr && h.ptr[h.fl[i]] == h.fl[NextIx(i, |h.fl|)] && h.fl[i] in h.size
    ensures IndexOf(h.fl, h.fl[i]) == i
  {
    hide Tiles, Coalesced;
    assert LinkedAt(h.ptr, h.fl, i);
    ListFacts(h, base, brk, i);
  }

  lemma AscendingIndex(h: Heap, base: nat, brk: nat, i: nat, j: nat)
    requires HeapOk(h, base, brk) && i < |h.fl| && j < |h.fl| && h.fl[i] == h.fl[j]
    ensures i == j
  {
    hide Tiles, Coalesced;
  }

  lemma NoFitNext(h: Heap, base: nat, brk: nat, i: nat, f: nat, n: nat)
    requires HeapOk(h, base, brk) && NoFitBehind(h, i, f, n) && h.fl[i] in h.size && h.size[h.fl[i]] < n
             && h.fl[i] != h.fl[f]
    ensures NoFitBehind(h, NextIx(i, |h.fl|), f, n) && Dist(NextIx(i, |h.fl|), f, |h.fl|) < Dist(i, f, |h.fl|)
  {
    hide HeapOk;
  }

  /** Having gone all the way round, nothing fits. */
  lemma NoFit(h: Heap, base: nat, brk: nat, i: nat, f: nat, n: nat)
    requires HeapOk(h, base, brk) && NoFitBehind(h, i, f, n) && h.fl[i] in h.size && h.size[h.fl[i]] < n && i == f
    ensures !Fits(h, n)
  {
    hide HeapOk;
    forall j: nat | j < |h.fl| ensures h.fl[j] in h.size && h.size[h.fl[j]] < n {
      assert j != i ==> Dist(j, f, |h.fl|) > 0;
    }
  }

  lemma BaseEmpty(h: Heap, base: nat, brk: nat, i: nat)
    requires HeapOk(h, base, brk) && i < |h.fl| && h.fl[i] in h.size && h.size[h.fl[i]] > 0
    ensures 1 <= i
  {}

  lemma NotLive(h: Heap, base: nat, brk: nat, i: nat)
    requires HeapOk(h, base, brk) && i < |h.fl|
    ensures h.fl[i] !in h.live
  {
    forall l | l in h.live ensures l !in h.fl { NotInList(h, base, brk, l); }
  }

  /** The index whose successor bounds `bp`. */
  ghost function Slot(fl: seq<nat>, bp: nat): (t: nat)
    requires 0 < |fl| && Ascending(fl) && fl[0] < bp && bp !in fl
    ensures SlotFor(fl, t, bp)
  {
    if fl[|fl| - 1] < bp then |fl| - 1 else Slot(fl[..|fl| - 1], bp)
  }

  /** Some free block contains the `n` units at `b`. */
  ghost predicate Holds(h: Heap, b: nat, n: nat) {
    exists i :: 0 <= i < |h.fl| && h.fl[i] in h.size && h.fl[i] <= b && b + n <= h.fl[i] + h.size[h.fl[i]]
  }

  ghost predicate Fits(h: Heap, n: nat) {
    exists i :: 0 <= i < |h.fl| && h.fl[i] in h.size && h.size[h.fl[i]] >= n
  }

  lemma FitsAt(h: Heap, i: nat, n: nat)
    requires i < |h.fl| && h.fl[i] in h.size && h.size[h.fl[i]] >= n
    ensures Fits(h, n)
  {}

  /** Before the first malloc nothing fits, and the empty block at `base` fits nothing either. */
  lemma FitsFirst(h: Heap, h': Heap, base: nat, n: nat)
    requires h' == h || (h.fl == [] && h'.fl == [base] && base in h'.size && h'.size[base] == 0 && 0 < n)
    ensures Fits(h, n) <==> Fits(h', n)
  {}

  lemma HoldsLess(h: Heap, b: nat, n: nat, m: nat)
    requires Holds(h, b, n) && m <= n
    ensures Holds(h, b, m)
  {
    var i :| 0 <= i < |h.fl| && h.fl[i] in h.size && h.fl[i] <= b && b + n <= h.fl[i] + h.size[h.fl[i]];
    assert b + m <= h.fl[i] + h.size[h.fl[i]];
  }

  lemma HoldsFits(h: Heap, base: nat, brk: nat, b: nat, n: nat, nu: nat)
    requires HeapOk(h, base, brk) && Holds(h, b, n) && nu <= n
    ensures Fits(h, nu)
  {
    hide HeapOk;
    var i :| 0 <= i < |h.fl| && h.fl[i] in h.size && h.fl[i] <= b && b + n <= h.fl[i] + h.size[h.fl[i]];
    assert h.size[h.fl[i]] >= nu;
  }

  lemma LiveSizes(h: Heap, base: nat, brk: nat)
    requires HeapOk(h, base, brk)
    ensures forall l :: l in h.live ==> l in h.size && l < brk
  {
    forall l | l in h.live ensures l in h.size && l < brk { BlockFacts(h, base, brk, l); }
  }

  /** What the code of free relies on at the slot it found. */
  lemma FreeFacts(h: Heap, base: nat, brk: nat, i: nat, bp: nat)
    requires HeapOk(h, base, brk) && bp in h.live && SlotFor(h.fl, i, bp)
    ensures bp in h.size && bp !in h.fl && h.fl[i] in h.ptr && h.ptr[h.fl[i]] == h.fl[NextIx(i, |h.fl|)]
    ensures bp + h.size[bp] == h.ptr[h.fl[i]] ==> i + 1 < |h.fl| && h.fl[i + 1] in h.size && h.fl[i + 1] in h.ptr
    ensures i + 1 < |h.fl| ==> h.fl[i + 1] !in h.live
    ensures forall l :: l in h.live ==> l in h.size && l !in h.fl
  {
    NotInList(h, base, brk, bp);
    assert LinkedAt(h.ptr, h.fl, i);
    if i + 1 < |h.fl| {
      ListFacts(h, base, brk, i + 1);
      assert LinkedAt(h.ptr, h.fl, i + 1);
    }
    forall l | l in h.live ensures l in h.size && l !in h.fl { NotInList(h, base, brk, l); }
  }

  lemma HalfFacts(h: Heap, base: nat, brk: nat, i: nat, bp: nat)
    requires HalfFreed(h, base, brk, i, bp)
    ensures i < |h.fl| && h.fl[i] in h.size && bp in h.size && bp in h.ptr && h.fl[i] !in h.live
    ensures forall l :: l in h.live ==> l in h.size
  {
    NotInList(h, base, brk, bp);
    ListFacts(h, base, brk, i);
    forall l | l in h.live ensures l in h.size && l !in h.fl { NotInList(h, base, brk, l); }
  }
}
