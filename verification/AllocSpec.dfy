/** The heap of umalloc.c as a value: headers, the circular free list in address order, and which
    block every unit of the heap belongs to.  Addresses and sizes are in units of a header. */
module AllocSpec {
  /** `ptr` and `size` are the header fields by address; `fl` is the free list from the static base
      block up; `live` are the blocks handed out; `owner` gives each heap unit its block. */
  datatype Heap = Heap(ptr: map<nat, nat>, size: map<nat, nat>, fl: seq<nat>, live: set<nat>, owner: map<nat, nat>)

  function NextIx(i: nat, n: nat): nat { if i + 1 == n then 0 else i + 1 }

  ghost predicate Ascending(fl: seq<nat>) {
    forall i, j :: 0 <= i < j < |fl| ==> fl[i] < fl[j]
  }

  /** Following ptr goes once through the list and back to its start. */
  ghost predicate LinkedAt(ptr: map<nat, nat>, fl: seq<nat>, i: nat)
    requires i < |fl|
  {
    fl[i] in ptr && ptr[fl[i]] == fl[NextIx(i, |fl|)]
  }

  ghost predicate Linked(ptr: map<nat, nat>, fl: seq<nat>) {
    forall i: nat :: i < |fl| ==> LinkedAt(ptr, fl, i)
  }

  predicate OwnedBy(owner: map<nat, nat>, u: nat, b: nat) { u in owner && owner[u] == b }

  /** Block `b` owns exactly the `size[b]` units from its header on. */
  ghost predicate Extent(size: map<nat, nat>, owner: map<nat, nat>, b: nat) {
    b in size && size[b] > 0 && forall u: nat :: b <= u < b + size[b] ==> OwnedBy(owner, u, b)
  }

  predicate HasHome(size: map<nat, nat>, blocks: set<nat>, owner: map<nat, nat>, u: nat)
    requires u in owner
  {
    owner[u] in blocks && owner[u] in size && owner[u] <= u < owner[u] + size[owner[u]]
  }

  /** The blocks in `blocks` cut the heap up: every unit is in exactly one of them. */
  ghost predicate Tiles(size: map<nat, nat>, blocks: set<nat>, owner: map<nat, nat>) {
    && (forall b: nat :: b in blocks ==> Extent(size, owner, b))
    && (forall u: nat :: u in owner ==> HasHome(size, blocks, owner, u))
  }

  function FreeBlocks(fl: seq<nat>): set<nat> {
    set i | 1 <= i < |fl| :: fl[i]
  }

  function Blocks(h: Heap): set<nat> { FreeBlocks(h.fl) + h.live }

  /** No two free blocks are neighbours. */
  ghost predicate Coalesced(size: map<nat, nat>, fl: seq<nat>) {
    forall i, j :: 0 <= i < |fl| && 0 <= j < |fl| && fl[i] in size ==> fl[i] + size[fl[i]] != fl[j] || i == j
  }

  /** What holds of the blocks, whatever the links. */
  ghost predicate BlocksOk(h: Heap, base: nat, brk: nat) {
    && 0 < |h.fl| && h.fl[0] == base && Ascending(h.fl) && base in h.size && h.size[base] == 0
    && FreeBlocks(h.fl) !! h.live && Tiles(h.size, Blocks(h), h.owner) && Coalesced(h.size, h.fl)
    && base < brk && forall u :: u in h.owner ==> base < u < brk
  }

  ghost predicate HeapOk(h: Heap, base: nat, brk: nat) {
    BlocksOk(h, base, brk) && Linked(h.ptr, h.fl)
  }

  lemma BlockFacts(h: Heap, base: nat, brk: nat, b: nat)
    requires BlocksOk(h, base, brk) && b in Blocks(h)
    ensures base < b && b in h.size && h.size[b] > 0 && b + h.size[b] <= brk
  {
    assert Extent(h.size, h.owner, b);
    assert OwnedBy(h.owner, b, b) && OwnedBy(h.owner, b + h.size[b] - 1, b);
  }

  /** Blocks do not overlap. */
  lemma Apart(h: Heap, base: nat, brk: nat, b: nat, c: nat)
    requires BlocksOk(h, base, brk) && b in Blocks(h) && c in Blocks(h) && b < c
    ensures b in h.size && b + h.size[b] <= c
  {
    assert Extent(h.size, h.owner, b) && Extent(h.size, h.owner, c);
    assert OwnedBy(h.owner, c, c);
    assert c < b + h.size[b] ==> OwnedBy(h.owner, c, b);
  }

  /** Free and live blocks partition the heap: a unit obtained from the kernel is in exactly one of
      them, and no block reaches outside. */
  lemma Partition(h: Heap, base: nat, brk: nat, u: nat)
    requires HeapOk(h, base, brk)
    ensures u in h.owner <==> exists b :: b in Blocks(h) && Contains(h, b, u)
    ensures forall b, c :: b in Blocks(h) && c in Blocks(h) && Contains(h, b, u) && Contains(h, c, u) ==> b == c
  {
    forall b | b in Blocks(h) && Contains(h, b, u) ensures OwnedBy(h.owner, u, b) { assert Extent(h.size, h.owner, b); }
    if u in h.owner {
      assert HasHome(h.size, Blocks(h), h.owner, u);
      assert Contains(h, h.owner[u], u);
    }
  }

  predicate Contains(h: Heap, b: nat, u: nat) { b in h.size && b <= u < b + h.size[b] }

  lemma ListFacts(h: Heap, base: nat, brk: nat, i: nat)
    requires BlocksOk(h, base, brk) && i < |h.fl|
    ensures h.fl[i] in h.size && (i > 0 ==>
            h.fl[i] in Blocks(h) && h.fl[i] !in h.live && h.size[h.fl[i]] > 0 && base < h.fl[i])
  {
    if i > 0 { BlockFacts(h, base, brk, h.fl[i]); }
  }

  // ---- Joining and cutting blocks ----

  function Remap(owner: map<nat, nat>, lo: nat, n: nat, b: nat): (r: map<nat, nat>)
    ensures r.Keys == owner.Keys
    ensures forall u :: u in owner ==> r[u] == if lo <= u < lo + n then b else owner[u]
  {
    map u | u in owner :: if lo <= u < lo + n then b else owner[u]
  }

  /** Block `b` takes over its right neighbour `c`. */
  lemma JoinTiles(size: map<nat, nat>, blocks: set<nat>, owner: map<nat, nat>, b: nat, c: nat)
    requires Tiles(size, blocks, owner) && b in blocks && c in blocks && b in size && c in size && b + size[b] == c
    ensures Tiles(size[b := size[b] + size[c]], blocks - {c}, Remap(owner, c, size[c], b))
  {
    var size', owner' := size[b := size[b] + size[c]], Remap(owner, c, size[c], b);
    assert Extent(size, owner, b) && Extent(size, owner, c);
    forall x: nat | x in blocks - {c} ensures Extent(size', owner', x) {
      assert Extent(size, owner, x);
      forall u: nat | x <= u < x + size'[x] ensures OwnedBy(owner', u, x) {
        assert c <= u < c + size[c] ==> OwnedBy(owner, u, c);
        assert u < x + size[x] ==> OwnedBy(owner, u, x);
      }
    }
    forall u: nat | u in owner'
      ensures HasHome(size', blocks - {c}, owner', u)
    {
      assert HasHome(size, blocks, owner, u);
    }
  }

  /** Block `b` is cut after its first `k` units. */
  lemma CutTiles(size: map<nat, nat>, blocks: set<nat>, owner: map<nat, nat>, b: nat, k: nat)
    requires Tiles(size, blocks, owner) && b in blocks && b in size && 0 < k < size[b]
    ensures b + k !in blocks
    ensures Tiles(size[b := k][b + k := size[b] - k], blocks + {b + k}, Remap(owner, b + k, size[b] - k, b + k))
  {
    var c := b + k;
    assert Extent(size, owner, b);
    assert OwnedBy(owner, c, b);
    assert c in blocks ==> Extent(size, owner, c) && OwnedBy(owner, c, c);
    var size', owner' := size[b := k][c := size[b] - k], Remap(owner, c, size[b] - k, c);
    forall x: nat | x in blocks + {c} ensures Extent(size', owner', x) {
      assert x != c ==> Extent(size, owner, x);
      forall u: nat | x <= u < x + size'[x] ensures OwnedBy(owner', u, x) {
        assert b <= u < b + size[b] ==> OwnedBy(owner, u, b);
        assert x != c ==> OwnedBy(owner, u, x);
      }
    }
    forall u: nat | u in owner'
      ensures HasHome(size', blocks + {c}, owner', u)
    {
      assert HasHome(size, blocks, owner, u);
    }
  }

  function Region(q: nat, n: nat): (r: map<nat, nat>)
    ensures forall u: nat :: u in r <==> q <= u < q + n
    ensures forall u :: u in r ==> r[u] == q
  {
    if n == 0 then map[] else Region(q, n - 1)[q + n - 1 := q]
  }

  /** A new block beyond the end of the heap. */
  lemma GrowTiles(size: map<nat, nat>, blocks: set<nat>, owner: map<nat, nat>, q: nat, n: nat, brk: nat)
    requires Tiles(size, blocks, owner) && 0 < n && brk <= q && forall u :: u in owner ==> u < brk
    ensures Tiles(size[q := n], blocks + {q}, owner + Region(q, n)) && q !in blocks
  {
    hide Region;
    assert q in blocks ==> Extent(size, owner, q) && OwnedBy(owner, q, q);
    var size', owner' := size[q := n], owner + Region(q, n);
    forall x: nat | x in blocks + {q} ensures Extent(size', owner', x) {
      assert x != q ==> Extent(size, owner, x);
      forall u: nat | x <= u < x + size'[x] ensures OwnedBy(owner', u, x) {
        assert x != q ==> OwnedBy(owner, u, x);
      }
    }
    forall u: nat | u in owner'
      ensures HasHome(size', blocks + {q}, owner', u)
    {
      assert u in owner ==> HasHome(size, blocks, owner, u);
    }
  }

  // ---- free: joining with the block after ----

  /** Where `bp` goes in the list: after entry `i`. */
  ghost predicate SlotFor(fl: seq<nat>, i: nat, bp: nat) {
    i < |fl| && fl[i] < bp && (i + 1 < |fl| ==> bp < fl[i + 1])
  }

  /** The state between free's two tests: `bp` is joined with what follows it and points on, and
      only the link to it is missing. */
  ghost predicate HalfFreed(h: Heap, base: nat, brk: nat, i: nat, bp: nat) {
    && BlocksOk(h, base, brk) && bp in h.live && bp in h.size && SlotFor(h.fl, i, bp)
    && (i + 1 < |h.fl| ==> bp + h.size[bp] < h.fl[i + 1])
    && (forall j: nat :: j < |h.fl| && j != i ==> LinkedAt(h.ptr, h.fl, j))
    && bp in h.ptr && h.ptr[bp] == h.fl[NextIx(i, |h.fl|)]
  }

  function RemoveAt(fl: seq<nat>, k: nat): (r: seq<nat>)
    requires k < |fl|
    ensures |r| == |fl| - 1
    ensures forall i :: 0 <= i < k ==> r[i] == fl[i]
    ensures forall i :: k <= i < |r| ==> r[i] == fl[i + 1]
  {
    fl[..k] + fl[k + 1..]
  }

  lemma RemoveAtBlocks(fl: seq<nat>, k: nat)
    requires 1 <= k < |fl| && Ascending(fl)
    ensures Ascending(RemoveAt(fl, k)) && FreeBlocks(RemoveAt(fl, k)) == FreeBlocks(fl) - {fl[k]}
  {
    hide RemoveAt;
    var r := RemoveAt(fl, k);
    forall x | x in FreeBlocks(fl) - {fl[k]} ensures x in FreeBlocks(r) {
      var i :| 1 <= i < |fl| && fl[i] == x;
      if i < k { assert r[i] == x; } else { assert r[i - 1] == x; }
    }
    forall x | x in FreeBlocks(r) ensures x in FreeBlocks(fl) - {fl[k]} {
      var i :| 1 <= i < |r| && r[i] == x;
      if i < k { assert fl[i] == x; } else { assert fl[i + 1] == x; }
    }
  }

  /** The block at `bp` takes over the free block behind it, and its place in the list. */
  function JoinedRight(h: Heap, i: nat, bp: nat): Heap
    requires i + 1 < |h.fl| && bp in h.size && h.fl[i + 1] in h.size && h.fl[i + 1] in h.ptr
  {
    var next := h.fl[i + 1];
    Heap(h.ptr[bp := h.ptr[next]], h.size[bp := h.size[bp] + h.size[next]], RemoveAt(h.fl, i + 1), h.live,
        Remap(h.owner, next, h.size[next], bp))
  }

  lemma NotInList(h: Heap, base: nat, brk: nat, b: nat)
    requires BlocksOk(h, base, brk) && b in h.live
    ensures b !in h.fl && base < b && b in h.size && h.size[b] > 0
  {
    BlockFacts(h, base, brk, b);
    forall i: nat | i < |h.fl| ensures h.fl[i] != b { ListFacts(h, base, brk, i); }
  }

  lemma JoinedRightBlocks(h: Heap, base: nat, brk: nat, i: nat, bp: nat)
    requires HeapOk(h, base, brk) && bp in h.live && bp in h.size && SlotFor(h.fl, i, bp)
    requires i + 1 < |h.fl| && h.fl[i + 1] in h.size && h.fl[i + 1] in h.ptr && bp + h.size[bp] == h.fl[i + 1]
    ensures BlocksOk(JoinedRight(h, i, bp), base, brk)
  {
    hide Linked, Tiles, Coalesced, FreeBlocks, Ascending;
    var h', next := JoinedRight(h, i, bp), h.fl[i + 1];
    NotInList(h, base, brk, bp);
    ListFacts(h, base, brk, i + 1);
    RemoveAtBlocks(h.fl, i + 1);
    JoinTiles(h.size, Blocks(h), h.owner, bp, next);
    assert Blocks(h') == Blocks(h) - {next};
    CoalescedRemove(h.size, h'.size, h.fl, i + 1);
  }

  lemma CoalescedRemove(size: map<nat, nat>, size': map<nat, nat>, fl: seq<nat>, k: nat)
    requires Coalesced(size, fl) && k < |fl| && forall i ::
             0 <= i < |fl| && fl[i] in size' ==> fl[i] in size && size'[fl[i]] == size[fl[i]]
    ensures Coalesced(size', RemoveAt(fl, k))
  {
    hide RemoveAt;
    var r := RemoveAt(fl, k);
    forall i, j | 0 <= i < |r| && 0 <= j < |r| && r[i] in size' ensures r[i] + size'[r[i]] != r[j] || i == j {
      assert r[i] == fl[if i < k then i else i + 1] && r[j] == fl[if j < k then j else j + 1];
    }
  }

  lemma CoalescedGrow(size: map<nat, nat>, fl: seq<nat>, i: nat, n: nat)
    requires Coalesced(size, fl) && Ascending(fl) && i < |fl| && 0 < n && (i + 1 < |fl| ==> fl[i] + n < fl[i + 1])
    ensures Coalesced(size[fl[i] := n], fl)
  {
    var size' := size[fl[i] := n];
    forall j, k | 0 <= j < |fl| && 0 <= k < |fl| && fl[j] in size' ensures fl[j] + size'[fl[j]] != fl[k] || j == k {
      if j == i && k > i + 1 { assert fl[i + 1] < fl[k]; }
    }
  }

  /** Dropping the entry after `i` leaves every link but that of `i`. */
  lemma LinksDropped(ptr: map<nat, nat>, fl: seq<nat>, i: nat, bp: nat)
    requires Linked(ptr, fl) && i + 1 < |fl| && bp !in fl && fl[i + 1] in ptr
    ensures var ptr', fl' := ptr[bp := ptr[fl[i + 1]]], RemoveAt(fl, i + 1);
            && (forall j: nat :: j < |fl'| && j != i ==> LinkedAt(ptr', fl', j)) && ptr'[bp] == fl'[NextIx(i, |fl'|)]
  {
    hide RemoveAt;
    var ptr', fl' := ptr[bp := ptr[fl[i + 1]]], RemoveAt(fl, i + 1);
    assert LinkedAt(ptr, fl, i + 1);
    forall j: nat | j < |fl'| && j != i ensures LinkedAt(ptr', fl', j) {
      assert LinkedAt(ptr, fl, if j < i then j else j + 1);
    }
  }

  /** The block after next starts beyond the end of the next one. */
  lemma BeyondNext(h: Heap, base: nat, brk: nat, i: nat)
    requires BlocksOk(h, base, brk) && i + 1 < |h.fl|
    ensures h.fl[i + 1] in h.size && (i + 2 < |h.fl| ==> h.fl[i + 1] + h.size[h.fl[i + 1]] < h.fl[i + 2])
  {
    ListFacts(h, base, brk, i + 1);
    if i + 2 < |h.fl| {
      ListFacts(h, base, brk, i + 2);
      Apart(h, base, brk, h.fl[i + 1], h.fl[i + 2]);
    }
  }

  /** The first test of free, when the block after is a neighbour. */
  lemma JoinedRightOk(h: Heap, base: nat, brk: nat, i: nat, bp: nat)
    requires HeapOk(h, base, brk) && bp in h.live && bp in h.size && SlotFor(h.fl, i, bp)
    requires i + 1 < |h.fl| && h.fl[i + 1] in h.size && h.fl[i + 1] in h.ptr && bp + h.size[bp] == h.fl[i + 1]
    ensures HalfFreed(JoinedRight(h, i, bp), base, brk, i, bp)
  {
    hide BlocksOk, RemoveAt, Remap, Linked, LinkedAt;
    JoinedRightBlocks(h, base, brk, i, bp);
    NotInList(h, base, brk, bp);
    BeyondNext(h, base, brk, i);
    LinksDropped(h.ptr, h.fl, i, bp);
    AscendingList(h, base, brk, i);
  }

  lemma AscendingList(h: Heap, base: nat, brk: nat, i: nat)
    requires BlocksOk(h, base, brk)
    ensures i + 2 < |h.fl| ==> h.fl[i + 1] < h.fl[i + 2]
  {}

  /** The first test of free, when it is not. */
  lemma KeptRightOk(h: Heap, base: nat, brk: nat, i: nat, bp: nat)
    requires HeapOk(h, base, brk) && bp in h.live && bp in h.size && SlotFor(h.fl, i, bp)
    requires i + 1 < |h.fl| ==> bp + h.size[bp] != h.fl[i + 1]
    ensures HalfFreed(h.(ptr := h.ptr[bp := h.fl[NextIx(i, |h.fl|)]]), base, brk, i, bp)
  {
    var h' := h.(ptr := h.ptr[bp := h.fl[NextIx(i, |h.fl|)]]);
    NotInList(h, base, brk, bp);
    if i + 1 < |h.fl| {
      ListFacts(h, base, brk, i + 1);
      Apart(h, base, brk, bp, h.fl[i + 1]);
    }
    hide Tiles, FreeBlocks;
    forall j: nat | j < |h'.fl| && j != i ensures LinkedAt(h'.ptr, h'.fl, j) { assert LinkedAt(h.ptr, h.fl, j); }
  }

  // ---- free: joining with the block before ----

  /** The free block before `bp` takes it over. */
  function JoinedLeft(h: Heap, i: nat, bp: nat): Heap
    requires i < |h.fl| && bp in h.size && h.fl[i] in h.size && bp in h.ptr
  {
    var p := h.fl[i];
    Heap(h.ptr[p := h.ptr[bp]], h.size[p := h.size[p] + h.size[bp]], h.fl, h.live - {bp},
        Remap(h.owner, bp, h.size[bp], p))
  }

  lemma JoinedLeftOk(h: Heap, base: nat, brk: nat, i: nat, bp: nat)
    requires HalfFreed(h, base, brk, i, bp) && h.fl[i] in h.size && h.fl[i] + h.size[h.fl[i]] == bp
    ensures HeapOk(JoinedLeft(h, i, bp), base, brk)
  {
    hide Tiles, Coalesced, FreeBlocks;
    var h', p := JoinedLeft(h, i, bp), h.fl[i];
    NotInList(h, base, brk, bp);
    ListFacts(h, base, brk, i);
    JoinTiles(h.size, Blocks(h), h.owner, p, bp);
    assert Blocks(h') == Blocks(h) - {bp};
    CoalescedGrow(h.size, h.fl, i, h.size[p] + h.size[bp]);
    forall j: nat | j < |h'.fl| ensures LinkedAt(h'.ptr, h'.fl, j) {
      assert j != i ==> LinkedAt(h.ptr, h.fl, j);
    }
  }

  function InsertAt(fl: seq<nat>, k: nat, b: nat): (r: seq<nat>)
    requires k <= |fl|
    ensures |r| == |fl| + 1 && r[k] == b
    ensures forall i :: 0 <= i < k ==> r[i] == fl[i]
    ensures forall i :: k < i < |r| ==> r[i] == fl[i - 1]
  {
    fl[..k] + [b] + fl[k..]
  }

  lemma InsertAtBlocks(fl: seq<nat>, i: nat, b: nat)
    requires Ascending(fl) && SlotFor(fl, i, b)
    ensures Ascending(InsertAt(fl, i + 1, b)) && FreeBlocks(InsertAt(fl, i + 1, b)) == FreeBlocks(fl) + {b}
  {
    hide InsertAt;
    var r := InsertAt(fl, i + 1, b);
    forall x | x in FreeBlocks(fl) + {b} ensures x in FreeBlocks(r) {
      if x == b { assert r[i + 1] == x; } else {
        var k :| 1 <= k < |fl| && fl[k] == x;
        if k <= i { assert r[k] == x; } else { assert r[k + 1] == x; }
      }
    }
    forall x | x in FreeBlocks(r) ensures x in FreeBlocks(fl) + {b} {
      var k :| 1 <= k < |r| && r[k] == x;
      if k <= i { assert fl[k] == x; } else if k > i + 1 { assert fl[k - 1] == x; }
    }
  }

  /** The block at `bp` is linked in after list entry `i`. */
  function Inserted(h: Heap, i: nat, bp: nat): Heap
    requires i < |h.fl|
  {
    Heap(h.ptr[h.fl[i] := bp], h.size, InsertAt(h.fl, i + 1, bp), h.live - {bp}, h.owner)
  }

  /** Between the entries of a list and a block to be inserted nothing touches. */
  lemma NotTouching(h: Heap, base: nat, brk: nat, i: nat, bp: nat, j: nat)
    requires HalfFreed(h, base, brk, i, bp) && h.fl[i] in h.size && h.fl[i] + h.size[h.fl[i]] != bp && j < |h.fl|
    ensures h.fl[j] in h.size && bp in h.size && h.fl[j] + h.size[h.fl[j]] != bp && bp + h.size[bp] != h.fl[j]
            && h.fl[j] != bp
  {
    hide Linked, LinkedAt, Coalesced, FreeBlocks, Tiles;
    NotInList(h, base, brk, bp);
    ListFacts(h, base, brk, j);
    if 0 < j < i {
      ListFacts(h, base, brk, i);
      Apart(h, base, brk, h.fl[j], h.fl[i]);
    }
  }

  lemma InsertedCoalesced(h: Heap, base: nat, brk: nat, i: nat, bp: nat)
    requires HalfFreed(h, base, brk, i, bp) && h.fl[i] in h.size && h.fl[i] + h.size[h.fl[i]] != bp
    ensures Coalesced(h.size, InsertAt(h.fl, i + 1, bp))
  {
    forall j: nat | j < |h.fl|
      ensures h.fl[j] in h.size && h.fl[j] + h.size[h.fl[j]] != bp && bp + h.size[bp] != h.fl[j]
    {
      NotTouching(h, base, brk, i, bp, j);
    }
    CoalescedInsert(h.size, h.fl, i + 1, bp);
  }

  lemma CoalescedInsert(size: map<nat, nat>, fl: seq<nat>, k: nat, b: nat)
    requires Coalesced(size, fl) && k <= |fl| && b in size
    requires forall j: nat :: j < |fl| ==> fl[j] in size && fl[j] + size[fl[j]] != b && b + size[b] != fl[j]
    ensures Coalesced(size, InsertAt(fl, k, b))
  {
    hide InsertAt;
    var r := InsertAt(fl, k, b);
    forall i, j | 0 <= i < |r| && 0 <= j < |r| && r[i] in size ensures r[i] + size[r[i]] != r[j] || i == j {
      var i', j' := if i < k then i else i - 1, if j < k then j else j - 1;
      if i != k { assert r[i] == fl[i']; }
      if j != k { assert r[j] == fl[j']; }
    }
  }

  lemma InsertedOk(h: Heap, base: nat, brk: nat, i: nat, bp: nat)
    requires HalfFreed(h, base, brk, i, bp) && h.fl[i] in h.size && h.fl[i] + h.size[h.fl[i]] != bp
    ensures HeapOk(Inserted(h, i, bp), base, brk)
  {
    hide Tiles, FreeBlocks, Coalesced, InsertAt;
    var h' := Inserted(h, i, bp);
    NotInList(h, base, brk, bp);
    InsertedCoalesced(h, base, brk, i, bp);
    InsertAtBlocks(h.fl, i, bp);
    assert Blocks(h') == Blocks(h);
    forall j: nat | j < |h'.fl| ensures LinkedAt(h'.ptr, h'.fl, j) {
      if j < i { assert LinkedAt(h.ptr, h.fl, j); } else if j > i + 1 { assert LinkedAt(h.ptr, h.fl, j - 1); }
    }
  }

  // ---- malloc ----

  /** The whole of list entry `i` is handed out. */
  function Taken(h: Heap, i: nat): Heap
    requires 1 <= i < |h.fl| && h.fl[i] in h.ptr
  {
    Heap(h.ptr[h.fl[i - 1] := h.ptr[h.fl[i]]], h.size, RemoveAt(h.fl, i), h.live + {h.fl[i]}, h.owner)
  }

  lemma TakenOk(h: Heap, base: nat, brk: nat, i: nat)
    requires HeapOk(h, base, brk) && 1 <= i < |h.fl| && h.fl[i] in h.ptr
    ensures HeapOk(Taken(h, i), base, brk) && h.fl[i] !in h.live
  {
    hide Tiles, FreeBlocks, Coalesced, RemoveAt, Linked, Ascending;
    var h' := Taken(h, i);
    ListFacts(h, base, brk, i);
    RemoveAtBlocks(h.fl, i);
    CoalescedRemove(h.size, h.size, h.fl, i);
    FreeBlock(h.fl, i);
    assert Blocks(h') == Blocks(h);
    LinkedRemove(h.ptr, h.fl, i);
  }

  lemma LinkedRemove(ptr: map<nat, nat>, fl: seq<nat>, i: nat)
    requires Linked(ptr, fl) && Ascending(fl) && 1 <= i < |fl| && fl[i] in ptr
    ensures Linked(ptr[fl[i - 1] := ptr[fl[i]]], RemoveAt(fl, i))
  {
    hide RemoveAt;
    var fl', ptr' := RemoveAt(fl, i), ptr[fl[i - 1] := ptr[fl[i]]];
    assert LinkedAt(ptr, fl, i);
    forall j: nat | j < |fl'| ensures LinkedAt(ptr', fl', j) {
      assert LinkedAt(ptr, fl, if j < i then j else j + 1);
    }
  }

  lemma FreeBlock(fl: seq<nat>, i: nat)
    requires 1 <= i < |fl|
    ensures fl[i] in FreeBlocks(fl)
  {}

  /** The last `n` units of block `i` are handed out. */
  function Cut(h: Heap, i: nat, n: nat): Heap
    requires i < |h.fl| && h.fl[i] in h.size && n < h.size[h.fl[i]]
  {
    var p, k := h.fl[i], h.size[h.fl[i]] - n;
    Heap(h.ptr, h.size[p := k][p + k := n], h.fl, h.live + {p + k}, Remap(h.owner, p + k, n, p + k))
  }

  lemma CutOk(h: Heap, base: nat, brk: nat, i: nat, n: nat)
    requires HeapOk(h, base, brk) && 1 <= i < |h.fl| && h.fl[i] in h.size && 0 < n < h.size[h.fl[i]]
    ensures HeapOk(Cut(h, i, n), base, brk) && h.fl[i] + (h.size[h.fl[i]] - n) !in h.live
  {
    hide Tiles, FreeBlocks, Coalesced, Linked, Remap;
    var h', p, k := Cut(h, i, n), h.fl[i], h.size[h.fl[i]] - n;
    ListFacts(h, base, brk, i);
    CutTiles(h.size, Blocks(h), h.owner, p, k);
    assert Blocks(h') == Blocks(h) + {p + k};
    CutCoalesced(h, base, brk, i, n);
    RemapKeys(h.owner, p + k, n, p + k);
  }

  lemma RemapKeys(owner: map<nat, nat>, lo: nat, n: nat, b: nat)
    ensures forall u :: u in Remap(owner, lo, n, b) <==> u in owner
  {}

  lemma CutCoalesced(h: Heap, base: nat, brk: nat, i: nat, n: nat)
    requires BlocksOk(h, base, brk) && 1 <= i < |h.fl| && h.fl[i] in h.size && 0 < n < h.size[h.fl[i]]
    requires h.fl[i] + (h.size[h.fl[i]] - n) !in Blocks(h)
    ensures Coalesced(Cut(h, i, n).size, h.fl)
  {
    var size', c := Cut(h, i, n).size, h.fl[i] + (h.size[h.fl[i]] - n);
    ListFacts(h, base, brk, i);
    hide Tiles;
    forall j, k | 0 <= j < |h.fl| && 0 <= k < |h.fl| && h.fl[j] in size'
      ensures h.fl[j] + size'[h.fl[j]] != h.fl[k] || j == k
    {
      ListFacts(h, base, brk, j);
      ListFacts(h, base, brk, k);
    }
  }

  /** A region of `n` units at `q` from the kernel, as a block about to be freed. */
  function Extended(h: Heap, q: nat, n: nat): Heap {
    Heap(h.ptr, h.size[q := n], h.fl, h.live + {q}, h.owner + Region(q, n))
  }

  lemma ExtendedOk(h: Heap, base: nat, brk: nat, q: nat, n: nat)
    requires HeapOk(h, base, brk) && brk <= q && 0 < n
    ensures HeapOk(Extended(h, q, n), base, q + n) && q !in h.live && q !in h.fl
  {
    hide Tiles, FreeBlocks, Coalesced, Linked, Region;
    var h' := Extended(h, q, n);
    GrowTiles(h.size, Blocks(h), h.owner, q, n, brk);
    assert Blocks(h') == Blocks(h) + {q};
    forall j: nat | j < |h.fl| ensures h.fl[j] < q && h.fl[j] in h.size {
      ListFacts(h, base, brk, j);
      if j > 0 { BlockFacts(h, base, brk, h.fl[j]); }
    }
    CoalescedSame(h.size, h'.size, h.fl);
  }

  lemma CoalescedSame(size: map<nat, nat>, size': map<nat, nat>, fl: seq<nat>)
    requires Coalesced(size, fl) && forall i ::
             0 <= i < |fl| ==> fl[i] in size && fl[i] in size' && size'[fl[i]] == size[fl[i]]
    ensures Coalesced(size', fl)
  {}
}
