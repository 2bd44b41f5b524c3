/** The buffer cache of bio.c over the memory disk of memide.c.

    `Cache` is the cache as a value: the buffers, the recency list from most to least
    recently released, the disk, and `view`, a record of what the last holder of each
    block left in it.  The predicates say what one critical section does
    to it; class BufferCache is the code, with the recency list held in prev/next links. */
module Bio {
  import opened Blocks
  import opened LogSpec

  const NBUF: nat := 30
  const HEAD: nat := 30  // bcache.head, as a node of the list

  datatype Buf = Buf(busy: bool, valid: bool, dirty: bool, dev: int, blockno: nat, data: Block)

  datatype Cache = Cache(bufs: seq<Buf>, order: seq<nat>, disk: Disk, view: seq<Block>)

  // ---- The recency list as a value ----

  /** `order` lists buffers, none twice. */
  ghost predicate ListOk(order: seq<nat>) {
    && (forall k :: 0 <= k < |order| ==> order[k] < NBUF)
    && (forall j, k :: 0 <= j < k < |order| ==> order[j] != order[k])
  }

  /** Every buffer is on the list. */
  ghost predicate Complete(order: seq<nat>) {
    ListOk(order) && forall b: nat :: b < NBUF ==> b in order
  }

  ghost function IndexOf(order: seq<nat>, b: nat): (k: nat)
    requires b in order
    ensures k < |order| && order[k] == b
  {
    var k: nat :| k < |order| && order[k] == b; k
  }

  ghost function Without(order: seq<nat>, b: nat): seq<nat>
    requires b in order
  {
    order[..IndexOf(order, b)] + order[IndexOf(order, b) + 1..]
  }

  ghost function MoveToFront(order: seq<nat>, b: nat): seq<nat>
    requires b in order
  {
    [b] + Without(order, b)
  }

  lemma WithoutOk(order: seq<nat>, b: nat)
    requires ListOk(order) && b in order
    ensures ListOk(Without(order, b)) && b !in Without(order, b)
    ensures forall x: nat :: x in order && x != b ==> x in Without(order, b)
    ensures forall x: nat :: x in Without(order, b) ==> x in order
  {
    var k := IndexOf(order, b);
    var w := Without(order, b);
    forall x: nat | x in order && x != b ensures x in w {
      var j :| 0 <= j < |order| && order[j] == x;
      if j < k { assert w[j] == x; } else { assert w[j-1] == x; }
    }
  }

  lemma MoveToFrontOk(order: seq<nat>, b: nat)
    requires ListOk(order) && b in order
    ensures ListOk(MoveToFront(order, b))
    ensures Complete(order) ==> Complete(MoveToFront(order, b))
  {
    WithoutOk(order, b);
    var m := MoveToFront(order, b);
    forall x: nat | x < NBUF && Complete(order) ensures x in m {
      if x != b { assert x in Without(order, b); }
    }
  }

  // ---- Least recently released ----

  /** When buffer `b` was last released, by position in the history `rs` of releases; a buffer
      never released counts as released before the history, in the order binit linked it. */
  function LastRelease(rs: seq<nat>, b: nat): int
    decreases |rs|
  {
    if |rs| == 0 then b - NBUF
    else if rs[|rs|-1] == b then |rs|
    else LastRelease(rs[..|rs|-1], b)
  }

  /** The list runs from the most to the least recently released buffer. */
  ghost predicate LruSorted(order: seq<nat>, rs: seq<nat>) {
    forall j, k :: 0 <= j < k < |order| ==> LastRelease(rs, order[j]) > LastRelease(rs, order[k])
  }

  lemma {:induction false} LastReleaseBound(rs: seq<nat>, b: nat)
    requires b < NBUF
    ensures LastRelease(rs, b) <= |rs|
    decreases |rs|
  {
    if |rs| != 0 && rs[|rs|-1] != b { LastReleaseBound(rs[..|rs|-1], b); }
  }

  lemma ReleaseOthers(rs: seq<nat>, b: nat, x: nat)
    requires b < NBUF && x < NBUF
    ensures LastRelease(rs + [b], x) == if x == b then |rs| + 1 else LastRelease(rs, x)
  {
    assert (rs + [b])[..|rs|] == rs;
  }

  /** Moving a released buffer to the front keeps the list sorted by last release. */
  lemma ReleaseKeepsLru(order: seq<nat>, rs: seq<nat>, b: nat)
    requires ListOk(order) && LruSorted(order, rs) && b in order
    ensures LruSorted(MoveToFront(order, b), rs + [b])
  {
    var m, k := MoveToFront(order, b), IndexOf(order, b);
    hide LastRelease;
    forall i, j | 0 <= i < j < |m| ensures LastRelease(rs + [b], m[i]) > LastRelease(rs + [b], m[j]) {
      var i', j' := if i <= k then i - 1 else i, if j <= k then j - 1 else j;
      assert m[j] == order[j'];
      ReleaseOthers(rs, b, m[j]);
      ReleaseOthers(rs, b, m[i]);
      if i == 0 { LastReleaseBound(rs, m[j]); } else { assert m[i] == order[i']; }
    }
  }

  /** A miss recycles the least recently released of the buffers that are neither busy nor dirty. */
  lemma VictimIsLeastRecent(c: Cache, rs: seq<nat>, i: nat, j: nat)
    requires |c.bufs| == NBUF && Complete(c.order) && LruSorted(c.order, rs) && IsVictim(c, i)
    requires j < NBUF && j != i && Recyclable(c.bufs[j])
    ensures LastRelease(rs, i) < LastRelease(rs, j)
  {
    var k: nat :| k < |c.order| && c.order[k] == i && VictimAt(c, k);
    assert j in c.order;
  }

  // ---- What the code does to the cache, one critical section at a time ----

  predicate Caches(b: Buf, dev: int, bno: nat) { b.dev == dev && b.blockno == bno }

  predicate Recyclable(b: Buf) { !b.busy && !b.dirty }

  datatype Outcome = Got(i: nat) | Sleep(i: nat) | NoBuffers

  ghost predicate Absent(c: Cache, dev: int, bno: nat) {
    forall i :: 0 <= i < |c.bufs| ==> !Caches(c.bufs[i], dev, bno)
  }

  /** The last recyclable buffer of the recency list. */
  ghost predicate IsVictim(c: Cache, i: nat) {
    exists k :: 0 <= k < |c.order| && c.order[k] == i && VictimAt(c, k)
  }

  ghost predicate VictimAt(c: Cache, k: nat)
    requires k < |c.order|
  {
    && c.order[k] < |c.bufs| && Recyclable(c.bufs[c.order[k]])
    && forall j :: k < j < |c.order| && c.order[j] < |c.bufs| ==> !Recyclable(c.bufs[c.order[j]])
  }

  /** One pass of bget under bcache.lock: a hit on a free buffer takes it, a hit on a busy one
      puts the caller to sleep on it, and a miss recycles the victim. */
  ghost predicate BgetRel(c: Cache, dev: int, bno: nat, c': Cache, r: Outcome) {
    match r
    case Got(i) =>
      i < |c.bufs| &&
      if Absent(c, dev, bno)
      then IsVictim(c, i) && c' == c.(bufs := c.bufs[i := Buf(true, false, false, dev, bno, c.bufs[i].data)])
      else Caches(c.bufs[i], dev, bno) && !c.bufs[i].busy && c' == c.(bufs := c.bufs[i := c.bufs[i].(busy := true)])
    case Sleep(i) => i < |c.bufs| && Caches(c.bufs[i], dev, bno) && c.bufs[i].busy && c' == c
    case NoBuffers =>
      Absent(c, dev, bno) && c' == c && forall i :: 0 <= i < |c.bufs| ==> !Recyclable(c.bufs[i])
  }

  /** iderw accepts a busy buffer of disk 1 that has something to transfer. */
  predicate IderwOk(b: Buf, disk: Disk) {
    b.busy && (!b.valid || b.dirty) && b.dev == ROOTDEV && b.blockno < |disk|
  }

  function IderwBuf(b: Buf, disk: Disk): Buf
    requires IderwOk(b, disk)
  {
    if b.dirty then b.(dirty := false, valid := true) else b.(data := disk[b.blockno], valid := true)
  }

  function IderwDisk(b: Buf, disk: Disk): Disk
    requires IderwOk(b, disk)
  {
    if b.dirty then disk[b.blockno := b.data] else disk
  }

  ghost function BrelseSpec(c: Cache, i: nat): Cache
    requires i < |c.bufs| && i in c.order
  {
    c.(bufs := c.bufs[i := c.bufs[i].(busy := false)], order := MoveToFront(c.order, i))
  }

  // ---- Agreement of the cache with the disk ----

  /** No two buffers cache the same block. */
  ghost predicate Unique(bufs: seq<Buf>) {
    forall i, j ::
      0 <= i < j < |bufs| && bufs[i].dev == ROOTDEV && bufs[j].dev == ROOTDEV ==>
      bufs[i].blockno != bufs[j].blockno
  }

  /** Buffer `i` holds a copy of block `a`. */
  ghost predicate Holds(bufs: seq<Buf>, i: nat, a: nat) {
    i < |bufs| && bufs[i].valid && Caches(bufs[i], ROOTDEV, a)
  }

  ghost predicate Cached(bufs: seq<Buf>, a: nat) {
    exists i: nat :: Holds(bufs, i, a)
  }

  ghost predicate BufOk(b: Buf, disk: Disk, view: seq<Block>)
    requires |view| == |disk|
  {
    && (b.busy || b.valid || b.dirty ==> b.dev == ROOTDEV)
    && (b.dev == ROOTDEV ==> b.blockno < |disk|)
    && (b.dirty ==> b.valid)
    && (b.valid ==> b.data == view[b.blockno])
    && (b.valid && !b.busy && !b.dirty ==> b.data == disk[b.blockno])
  }

  ghost predicate CacheOk(c: Cache) {
    && |c.bufs| == NBUF && Complete(c.order) && Unique(c.bufs) && |c.view| == |c.disk|
    && (forall i :: 0 <= i < NBUF ==> BufOk(c.bufs[i], c.disk, c.view))
    && (forall a: nat :: a < |c.disk| && !Cached(c.bufs, a) ==> c.view[a] == c.disk[a])
  }

  ghost predicate Busy(bufs: seq<Buf>, a: nat) {
    exists i: nat :: i < |bufs| && bufs[i].busy && Caches(bufs[i], ROOTDEV, a)
  }

  ghost predicate Dirty(bufs: seq<Buf>, a: nat) {
    exists i: nat :: i < |bufs| && bufs[i].dirty && Caches(bufs[i], ROOTDEV, a)
  }

  /** A block whose current content is not on the disk is pinned: a buffer holds it, busy or dirty. */
  lemma Agreement(c: Cache, a: nat)
    requires CacheOk(c) && a < |c.disk| && !Busy(c.bufs, a) && !Dirty(c.bufs, a)
    ensures c.view[a] == c.disk[a]
  {
    if Cached(c.bufs, a) {
      var i: nat :| Holds(c.bufs, i, a);
      assert BufOk(c.bufs[i], c.disk, c.view);
      assert !c.bufs[i].busy && !c.bufs[i].dirty;
    }
  }

  // ---- Each step keeps the cache in agreement ----

  lemma GetOk(c: Cache, bno: nat, c': Cache, r: Outcome)
    requires CacheOk(c) && bno < |c.disk| && BgetRel(c, ROOTDEV, bno, c', r)
    ensures CacheOk(c')
    ensures r.Got? ==> !Busy(c.bufs, bno) && c'.bufs[r.i].busy && Caches(c'.bufs[r.i], ROOTDEV, bno)
  {
    if r.Got? {
      var i := r.i;
      assert BufOk(c.bufs[i], c.disk, c.view);
      forall a: nat | a < |c.disk| && !Cached(c'.bufs, a) ensures c'.view[a] == c'.disk[a] {
        if Cached(c.bufs, a) {
          var j: nat :| Holds(c.bufs, j, a);
          if j != i || !Absent(c, ROOTDEV, bno) { assert Holds(c'.bufs, j, a); }
        }
      }
    }
  }

  /** Some buffer may be recycled. */
  ghost predicate Spare(bufs: seq<Buf>) { exists i: nat :: i < |bufs| && Recyclable(bufs[i]) }

  /** bget sleeps exactly on a block someone holds, and gives up exactly when the block is not cached
      and every buffer is busy or dirty. */
  lemma GetOutcome(c: Cache, bno: nat, c': Cache, r: Outcome)
    requires CacheOk(c) && BgetRel(c, ROOTDEV, bno, c', r)
    ensures r.Sleep? <==> Busy(c.bufs, bno)
    ensures r.NoBuffers? <==> Absent(c, ROOTDEV, bno) && !Spare(c.bufs)
  {
    if r.Got? {
      if !Absent(c, ROOTDEV, bno) {
        forall j: nat | j < |c.bufs| && Caches(c.bufs[j], ROOTDEV, bno) ensures j == r.i {}
      }
    } else if r.Sleep? {
      assert Caches(c.bufs[r.i], ROOTDEV, bno);
    }
  }

  /** A buffer some caller of bget holds and that iderw may fill or write out. */
  ghost predicate HeldBy(c: Cache, i: nat) {
    i < |c.bufs| && c.bufs[i].busy
  }

  function WithBuf(c: Cache, i: nat, b: Buf): Cache
    requires i < |c.bufs|
  {
    c.(bufs := c.bufs[i := b])
  }

  lemma StillCached(bufs: seq<Buf>, i: nat, b: Buf, a: nat)
    requires i < |bufs| && Cached(bufs, a)
    requires bufs[i].valid ==> b.valid && b.dev == bufs[i].dev && b.blockno == bufs[i].blockno
    ensures Cached(bufs[i := b], a)
  {
    var j: nat :| Holds(bufs, j, a);
    assert Holds(bufs[i := b], j, a);
  }

  /** bread on a miss: the buffer is filled with the block's current content. */
  lemma FillOk(c: Cache, i: nat)
    requires CacheOk(c) && i < NBUF && c.bufs[i].busy && !c.bufs[i].valid
    ensures IderwOk(c.bufs[i], c.disk) && !c.bufs[i].dirty
    ensures var c' := WithBuf(c, i, IderwBuf(c.bufs[i], c.disk));
            CacheOk(c') && c'.bufs[i].data == c.view[c.bufs[i].blockno]
  {
    assert BufOk(c.bufs[i], c.disk, c.view);
    var a := c.bufs[i].blockno;
    assert !Cached(c.bufs, a);
    var c' := WithBuf(c, i, IderwBuf(c.bufs[i], c.disk));
    forall x: nat | x < |c.disk| && !Cached(c'.bufs, x) ensures c.view[x] == c.disk[x] {
      if Cached(c.bufs, x) { StillCached(c.bufs, i, c'.bufs[i], x); }
    }
  }

  /** The holder of a buffer changes its data. */
  function ModifySpec(c: Cache, i: nat, data: Block): Cache
    requires i < |c.bufs| && c.bufs[i].blockno < |c.view|
  {
    c.(bufs := c.bufs[i := c.bufs[i].(data := data)], view := c.view[c.bufs[i].blockno := data])
  }

  lemma ModifyOk(c: Cache, i: nat, data: Block)
    requires CacheOk(c) && i < NBUF && c.bufs[i].busy && c.bufs[i].valid
    ensures c.bufs[i].blockno < |c.view| && CacheOk(ModifySpec(c, i, data))
  {
    assert BufOk(c.bufs[i], c.disk, c.view);
    var c' := ModifySpec(c, i, data);
    forall x: nat | x < |c.disk| && !Cached(c'.bufs, x) ensures c'.view[x] == c.disk[x] {
      if x == c.bufs[i].blockno { assert Holds(c'.bufs, i, x); }
      if Cached(c.bufs, x) { StillCached(c.bufs, i, c'.bufs[i], x); }
    }
  }

  /** log_write pins the buffer. */
  lemma MarkDirtyOk(c: Cache, i: nat)
    requires CacheOk(c) && i < NBUF && c.bufs[i].busy && c.bufs[i].valid
    ensures CacheOk(WithBuf(c, i, c.bufs[i].(dirty := true)))
  {
    var c' := WithBuf(c, i, c.bufs[i].(dirty := true));
    forall x: nat | x < |c.disk| && !Cached(c'.bufs, x) ensures c'.view[x] == c.disk[x] {
      if Cached(c.bufs, x) { StillCached(c.bufs, i, c'.bufs[i], x); }
    }
  }

  /** bwrite: the disk takes the buffer's data. */
  function BwriteSpec(c: Cache, i: nat): Cache
    requires i < |c.bufs| && IderwOk(c.bufs[i].(dirty := true), c.disk)
  {
    var b := c.bufs[i].(dirty := true);
    c.(bufs := c.bufs[i := IderwBuf(b, c.disk)], disk := IderwDisk(b, c.disk))
  }

  lemma BwriteOk(c: Cache, i: nat)
    requires CacheOk(c) && i < NBUF && c.bufs[i].busy && c.bufs[i].valid
    ensures IderwOk(c.bufs[i].(dirty := true), c.disk) && CacheOk(BwriteSpec(c, i))
    ensures BwriteSpec(c, i).disk == c.disk[c.bufs[i].blockno := c.view[c.bufs[i].blockno]]
  {
    assert BufOk(c.bufs[i], c.disk, c.view);
    var c' := BwriteSpec(c, i);
    forall x: nat | x < |c.disk| && !Cached(c'.bufs, x) ensures c'.view[x] == c'.disk[x] {
      if Cached(c.bufs, x) { StillCached(c.bufs, i, c'.bufs[i], x); }
    }
  }

  /** A holder may let go once its changes are on the disk or pinned. */
  lemma BrelseOk(c: Cache, i: nat)
    requires CacheOk(c) && i < NBUF && c.bufs[i].busy && c.bufs[i].valid
    requires c.bufs[i].dirty || c.bufs[i].data == c.disk[c.bufs[i].blockno]
    ensures i in c.order && CacheOk(BrelseSpec(c, i))
  {
    MoveToFrontOk(c.order, i);
    var c' := BrelseSpec(c, i);
    forall x: nat | x < |c.disk| && !Cached(c'.bufs, x) ensures c'.view[x] == c.disk[x] {
      if Cached(c.bufs, x) { StillCached(c.bufs, i, c'.bufs[i], x); }
    }
  }

  // ---- Which blocks are dirty ----

  ghost predicate SameDirty(bufs: seq<Buf>, bufs': seq<Buf>) {
    forall a: nat :: Dirty(bufs', a) <==> Dirty(bufs, a)
  }

  /** What is dirty now was dirty then. */
  ghost predicate DirtyWithin(bufs: seq<Buf>, bufs': seq<Buf>) {
    forall a: nat :: Dirty(bufs', a) ==> Dirty(bufs, a)
  }

  lemma DirtyWithinTrans(b0: seq<Buf>, b1: seq<Buf>, b2: seq<Buf>)
    requires DirtyWithin(b0, b1) && DirtyWithin(b1, b2)
    ensures DirtyWithin(b0, b2)
  {}

  /** A buffer changes but is dirty for the same block as before, or not dirty as before. */
  lemma DirtyUpdate(bufs: seq<Buf>, i: nat, b: Buf)
    requires i < |bufs| && b.dirty == bufs[i].dirty
    requires b.dirty ==> b.dev == bufs[i].dev && b.blockno == bufs[i].blockno
    ensures SameDirty(bufs, bufs[i := b])
  {
    var bufs' := bufs[i := b];
    forall a: nat ensures Dirty(bufs', a) <==> Dirty(bufs, a) {
      if Dirty(bufs, a) {
        var k: nat :| k < |bufs| && bufs[k].dirty && Caches(bufs[k], ROOTDEV, a);
        assert bufs'[k].dirty && Caches(bufs'[k], ROOTDEV, a);
      }
      if Dirty(bufs', a) {
        var k: nat :| k < |bufs| && bufs'[k].dirty && Caches(bufs'[k], ROOTDEV, a);
        assert bufs[k].dirty && Caches(bufs[k], ROOTDEV, a);
      }
    }
  }

  lemma DirtyCleared(bufs: seq<Buf>, i: nat, a: nat)
    requires Unique(bufs) && i < |bufs| && bufs[i].dev == ROOTDEV
    ensures Dirty(bufs[i := bufs[i].(dirty := false)], a) <==> Dirty(bufs, a) && a != bufs[i].blockno
  {
    var bufs' := bufs[i := bufs[i].(dirty := false)];
    if Dirty(bufs, a) && a != bufs[i].blockno {
      var k: nat :| k < |bufs| && bufs[k].dirty && Caches(bufs[k], ROOTDEV, a);
      assert bufs'[k].dirty && Caches(bufs'[k], ROOTDEV, a);
    }
    if Dirty(bufs', a) {
      var k: nat :| k < |bufs| && bufs'[k].dirty && Caches(bufs'[k], ROOTDEV, a);
      assert bufs[k].dirty && Caches(bufs[k], ROOTDEV, a);
    }
  }
}
