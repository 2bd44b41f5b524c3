/** bio.c and memide.c as code: the buffers are an array of records, a `struct buf *` is an
    index into it, and bcache.head is the node HEAD of the prev/next links. */
module BioCode {
  import opened Blocks
  import opened LogSpec
  import opened Bio

  /** Node `k` of the circular list, counting the head as -1 and as |order|. */
  function Node(order: seq<nat>, k: int): nat
    requires -1 <= k <= |order|
  {
    if 0 <= k < |order| then order[k] else HEAD
  }

  /** next and prev run through `order` and back through the head, in both directions. */
  ghost predicate Linked(next: seq<nat>, prev: seq<nat>, order: seq<nat>) {
    && |next| == |prev| == NBUF + 1 && ListOk(order)
    && forall j, k :: -1 <= j < k <= |order| && k == j + 1 ==>
         next[Node(order, j)] == Node(order, k) && prev[Node(order, k)] == Node(order, j)
  }

  /** The nodes are distinct, except that the head closes the circle. */
  lemma NodesDistinct(order: seq<nat>, p: int, q: int)
    requires ListOk(order) && -1 <= p <= |order| && -1 <= q <= |order| && p != q
    requires !(p == -1 && q == |order|) && !(q == -1 && p == |order|)
    ensures Node(order, p) != Node(order, q)
  {}

  /** Taking node `k` out of the circle. */
  lemma UnlinkNode(next: seq<nat>, prev: seq<nat>, o: seq<nat>, k: nat)
    requires Linked(next, prev, o) && k < |o|
    ensures Linked(next[Node(o, k - 1) := Node(o, k + 1)], prev[Node(o, k + 1) := Node(o, k - 1)], o[..k] + o[k+1..])
  {
    var w := o[..k] + o[k+1..];
    var next', prev' := next[Node(o, k - 1) := Node(o, k + 1)], prev[Node(o, k + 1) := Node(o, k - 1)];
    forall i, j | -1 <= i < j <= |w| && j == i + 1
      ensures next'[Node(w, i)] == Node(w, j) && prev'[Node(w, j)] == Node(w, i)
    {
      var i', j' := if i < k then i else i + 1, if j < k then j else j + 1;
      assert Node(w, i) == Node(o, i') && Node(w, j) == Node(o, j');
      if i != k - 1 {
        NodesDistinct(o, i', k - 1);
        NodesDistinct(o, j', k + 1);
      }
    }
  }

  class BufferCache {
    const bufs: array<Buf>
    const next: array<nat>
    const prev: array<nat>
    var disk: Disk
    ghost var order: seq<nat>
    ghost var view: seq<Block>
    ghost var writes: seq<Write>   // every block write since the cache was built
    ghost var releases: seq<nat>   // every brelse since the cache was built

    ghost predicate Valid()
      reads this, bufs, next, prev
    {
      && bufs.Length == NBUF && next.Length == prev.Length == NBUF + 1
      && next != prev && |view| == |disk|
      && Linked(next[..], prev[..], order)
      && LruSorted(order, releases)
      && CacheOk(Model())
    }

    ghost function Model(): Cache
      reads this, bufs
    {
      Cache(bufs[..], order, disk, view)
    }

    /** binit on a fresh boot: all buffers on the list, none caching anything. */
    constructor (disk: Disk)
      ensures Valid() && fresh(bufs) && fresh(next) && fresh(prev)
      ensures this.disk == disk && view == disk && writes == []
      ensures releases == []
      ensures forall i :: 0 <= i < NBUF ==> !bufs[i].busy && !bufs[i].valid && !bufs[i].dirty
    {
      this.disk := disk;
      view := disk;
      writes := [];
      releases := [];
      order := [];
      bufs := new Buf[NBUF](_ => Buf(false, false, false, -1, 0, ZeroBlock()));
      next := new nat[NBUF + 1](_ => HEAD);
      prev := new nat[NBUF + 1](_ => HEAD);
      new;
      assert next[..] == seq(NBUF + 1, _ => HEAD) && prev[..] == seq(NBUF + 1, _ => HEAD);
      for b := 0 to NBUF
        invariant next.Length == prev.Length == NBUF + 1 && next != prev
        invariant Linked(next[..], prev[..], order)
        invariant order == seq(b, k requires 0 <= k < b => b - 1 - k)
        invariant forall i :: 0 <= i < NBUF ==> bufs[i] == Buf(false, false, false, -1, 0, ZeroBlock())
        invariant this.disk == disk && view == disk && writes == [] && releases == []
      {
        PushFront(b);
      }
      assert order == seq(NBUF, k => NBUF - 1 - k);
      forall x: nat | x < NBUF ensures x in order { assert order[NBUF - 1 - x] == x; }
      assert Complete(order);
      assert CacheOk(Model());
    }

    /** The four assignments that put a buffer first on the list. */
    method PushFront(b: nat)
      requires next.Length == prev.Length == NBUF + 1 && next != prev
      requires Linked(next[..], prev[..], order) && b < NBUF && b !in order
      modifies this`order, next, prev
      ensures Linked(next[..], prev[..], order) && order == [b] + old(order)
    {
      ghost var o := order;
      assert next[Node(o, -1)] == Node(o, 0);
      next[b] := next[HEAD];
      prev[b] := HEAD;
      prev[next[HEAD]] := b;
      next[HEAD] := b;
      order := [b] + order;
      assert forall k :: 0 < k <= |order| ==> Node(order, k) == Node(o, k - 1);
      assert forall k :: 0 < k <= |o| ==> Node(o, k) != Node(o, 0);
      assert Node(order, -1) == HEAD && Node(order, 0) == b;
    }

    /** The two assignments that take a buffer off the list. */
    method Unlink(b: nat)
      requires next.Length == prev.Length == NBUF + 1 && next != prev
      requires Linked(next[..], prev[..], order) && b in order
      modifies this`order, next, prev
      ensures Linked(next[..], prev[..], order) && order == Without(old(order), b)
    {
      ghost var k: int, o := IndexOf(order, b), order;
      ghost var before, after := Node(o, k - 1), Node(o, k + 1);
      assert b == Node(o, k) && next[b] == after && prev[b] == before;
      ghost var n0, p0 := next[..], prev[..];
      prev[next[b]] := prev[b];
      next[prev[b]] := next[b];
      assert next[..] == n0[before := after] && prev[..] == p0[after := before];
      UnlinkNode(n0, p0, o, k);
      order := Without(order, b);
    }

    /** bget's first loop: is the block already cached? */
    method Lookup(bno: nat) returns (b: nat)
      requires Valid()
      ensures b == HEAD ==> Absent(Model(), ROOTDEV, bno)
      ensures b != HEAD ==> b < NBUF && Caches(bufs[b], ROOTDEV, bno)
    {
      hide LruSorted, BufOk, Unique;
      ghost var k := 0;
      assert next[Node(order, -1)] == Node(order, 0);
      b := next[HEAD];
      while b != HEAD
        invariant 0 <= k <= |order| && b == Node(order, k)
        invariant forall j :: 0 <= j < k ==> !Caches(bufs[order[j]], ROOTDEV, bno)
        decreases |order| - k
      {
        if bufs[b].dev == ROOTDEV && bufs[b].blockno == bno { return; }
        assert next[Node(order, k)] == Node(order, k + 1);
        b := next[b];
        k := k + 1;
      }
      assert k == |order|;
      forall i | 0 <= i < NBUF ensures !Caches(bufs[i], ROOTDEV, bno) {
        assert i in order;
      }
    }

    /** bget's second loop: the least recently released buffer that may be recycled. */
    method FindVictim() returns (b: nat)
      requires Valid()
      ensures b == HEAD ==> forall i :: 0 <= i < NBUF ==> !Recyclable(bufs[i])
      ensures b != HEAD ==> b < NBUF && IsVictim(Model(), b)
    {
      hide LruSorted, BufOk, Unique;
      ghost var k := |order|;
      assert prev[Node(order, k)] == Node(order, k - 1);
      b, k := prev[HEAD], k - 1;
      while b != HEAD
        invariant -1 <= k < |order| && b == Node(order, k)
        invariant forall j :: k < j < |order| ==> !Recyclable(bufs[order[j]])
        decreases k + 1
      {
        if !bufs[b].busy && !bufs[b].dirty {
          assert VictimAt(Model(), k);
          return;
        }
        assert prev[Node(order, k)] == Node(order, k - 1);
        b := prev[b];
        k := k - 1;
      }
      assert k == -1;
      forall i | 0 <= i < NBUF ensures !Recyclable(bufs[i]) {
        assert i in order;
      }
    }

    /** One pass of bget under bcache.lock.  Sleep(i) means the caller sleeps on buffer i and
        scans again from the start when woken; NoBuffers is the panic. */
    method Bget(bno: nat) returns (r: Outcome)
      requires Valid() && bno < |disk|
      modifies bufs
      ensures Valid() && BgetRel(old(Model()), ROOTDEV, bno, Model(), r)
    {
      hide LruSorted, Linked, CacheOk;
      ghost var c := Model();
      var b := Lookup(bno);
      if b != HEAD {
        assert !Absent(c, ROOTDEV, bno);
        if bufs[b].busy { return Sleep(b); }
        bufs[b] := bufs[b].(busy := true);
        assert Model() == c.(bufs := c.bufs[b := c.bufs[b].(busy := true)]);
      } else {
        b := FindVictim();
        if b == HEAD { return NoBuffers; }
        bufs[b] := Buf(true, false, false, ROOTDEV, bno, bufs[b].data);
        assert Model() == c.(bufs := c.bufs[b := bufs[b]]);
      }
      r := Got(b);
      GetOk(c, bno, Model(), r);
    }

    /** memide.c: transfer between a buffer and the memory disk. */
    method Iderw(b: nat)
      requires b < bufs.Length && bufs.Length == NBUF && IderwOk(bufs[b], disk)
      modifies this`disk, this`writes, bufs
      ensures bufs[..] == old(bufs[..])[b := IderwBuf(old(bufs[b]), old(disk))]
      ensures disk == IderwDisk(old(bufs[b]), old(disk))
      ensures writes == old(writes) + if old(bufs[b]).dirty then [Write(bufs[b].blockno, bufs[b].data)] else []
    {
      var p := bufs[b].blockno;
      if bufs[b].dirty {
        bufs[b] := bufs[b].(dirty := false);
        disk := disk[p := bufs[b].data];
        writes := writes + [Write(p, bufs[b].data)];
      } else {
        bufs[b] := bufs[b].(data := disk[p]);
      }
      bufs[b] := bufs[b].(valid := true);
    }

    /** One pass of bread: the caller gets what the last holder left, sleeps because someone holds the
        block, or panics for want of a buffer; nobody's view of any block changes. */
    method Bread(bno: nat) returns (r: Outcome)
      requires Valid() && bno < |disk|
      modifies this`disk, this`writes, bufs
      ensures Valid() && unchanged(this)
      ensures r.Sleep? <==> old(Busy(bufs[..], bno))
      ensures r.NoBuffers? <==> old(Absent(Model(), ROOTDEV, bno)) && !old(Spare(bufs[..]))
      ensures !r.Got? ==> bufs[..] == old(bufs[..])
      ensures r.Got? ==> r.i < NBUF && !old(bufs[r.i].busy) && bufs[r.i].busy && Holds(bufs[..], r.i, bno)
      ensures r.Got? ==> bufs[r.i].data == view[bno]
      ensures r.Got? ==> forall j :: 0 <= j < NBUF && j != r.i ==> bufs[j] == old(bufs[j])
      ensures SameDirty(old(bufs[..]), bufs[..])
    {
      ghost var c := Model();
      r := Bget(bno);
      GetOutcome(c, bno, Model(), r);
      if !r.Got? { return; }
      var b := r.i;
      GetOk(c, bno, Model(), r);
      assert BufOk(bufs[b], disk, view);
      ghost var c1 := Model();
      assert c1.bufs == c.bufs[b := c1.bufs[b]];
      DirtyUpdate(c.bufs, b, c1.bufs[b]);
      if !bufs[b].valid {
        FillOk(c1, b);
        ghost var w := writes;
        Iderw(b);
        assert writes == w;
        assert Model() == WithBuf(c1, b, IderwBuf(c1.bufs[b], c1.disk));
        DirtyUpdate(c1.bufs, b, bufs[b]);
      }
    }

    /** The holder of a buffer stores new data in it. */
    method Store(b: nat, data: Block)
      requires Valid() && b < NBUF && bufs[b].busy && bufs[b].valid
      modifies this`view, bufs
      ensures Valid() && old(bufs[b].blockno) < |old(view)|
      ensures bufs[..] == old(bufs[..])[b := old(bufs[b]).(data := data)]
      ensures view == old(view)[old(bufs[b].blockno) := data]
      ensures SameDirty(old(bufs[..]), bufs[..])
    {
      ModifyOk(Model(), b, data);
      DirtyUpdate(bufs[..], b, bufs[b].(data := data));
      ghost var c := Model();
      bufs[b] := bufs[b].(data := data);
      view := view[bufs[b].blockno := data];
      assert Model() == ModifySpec(c, b, data);
    }

    /** log_write's B_DIRTY: the buffer may not be recycled until it is written. */
    method Pin(b: nat)
      requires Valid() && b < NBUF && bufs[b].busy && bufs[b].valid
      modifies bufs
      ensures Valid() && bufs[..] == old(bufs[..])[b := old(bufs[b]).(dirty := true)]
    {
      MarkDirtyOk(Model(), b);
      ghost var c := Model();
      bufs[b] := bufs[b].(dirty := true);
      assert Model() == WithBuf(c, b, c.bufs[b].(dirty := true));
    }

    method Bwrite(b: nat)
      requires Valid() && b < NBUF && bufs[b].busy && bufs[b].valid
      modifies this`disk, this`writes, bufs
      ensures Valid() && view == old(view) && order == old(order)
      ensures var a := old(bufs[b].blockno);
              && a < old(|disk|) && disk == old(disk)[a := view[a]]
              && writes == old(writes) + [Write(a, view[a])]
      ensures bufs[..] == old(bufs[..])[b := old(bufs[b]).(dirty := false)]
      ensures forall a: nat :: Dirty(bufs[..], a) <==> old(Dirty(bufs[..], a)) && a != old(bufs[b].blockno)
    {
      BwriteOk(Model(), b);
      ghost var c := Model();
      forall a: nat { DirtyCleared(bufs[..], b, a); }
      assert BufOk(bufs[b], disk, view);
      bufs[b] := bufs[b].(dirty := true);
      Iderw(b);
      assert Model() == BwriteSpec(c, b);
      assert bufs[..] == c.bufs[b := c.bufs[b].(dirty := false)];
    }

    /** Release a buffer whose changes are on the disk or pinned; it becomes the most recently used. */
    method Brelse(b: nat)
      requires Valid() && b < NBUF && bufs[b].busy && bufs[b].valid
      requires bufs[b].dirty || (bufs[b].blockno < |disk| && bufs[b].data == disk[bufs[b].blockno])
      modifies this`order, this`releases, bufs, next, prev
      ensures Valid() && releases == old(releases) + [b] && order == [b] + Without(old(order), b)
      ensures bufs[..] == old(bufs[..])[b := old(bufs[b]).(busy := false)]
      ensures SameDirty(old(bufs[..]), bufs[..])
    {
      BrelseOk(Model(), b);
      DirtyUpdate(bufs[..], b, bufs[b].(busy := false));
      ghost var c := Model();
      WithoutOk(order, b);
      ReleaseKeepsLru(order, releases, b);
      Unlink(b);
      PushFront(b);
      bufs[b] := bufs[b].(busy := false);
      releases := releases + [b];
      assert Model() == BrelseSpec(c, b);
    }
  }
}
