/** The in-memory inode cache of fs.c: the table of entries and its critical sections. */
module Icache {
  import opened Options
  import opened Paths

  const NINODE: nat := 50

  /** One struct inode as far as reference counting goes. */
  datatype Entry = Entry(dev: nat, inum: nat, ref: nat, busy: bool, valid: bool, nlink: nat)

  predicate Caches(e: Entry, dev: nat, inum: nat) { e.ref > 0 && e.dev == dev && e.inum == inum }

  /** No inode is in use in two places. */
  ghost predicate Unique(es: seq<Entry>) {
    forall j, k :: 0 <= j < |es| && 0 <= k < |es| && es[j].ref > 0 && Caches(es[k], es[j].dev, es[j].inum) ==> j == k
  }

  function Referenced(e: Entry): Entry { e.(ref := e.ref + 1) }

  function Recycled(e: Entry, dev: nat, inum: nat): Entry { Entry(dev, inum, 1, false, false, e.nlink) }

  /** iget: the entry caching the inode if there is one, otherwise the first unused entry, otherwise
      the "iget: no inodes" panic. */
  ghost predicate IgetOk(es: seq<Entry>, dev: nat, inum: nat, r: Option<nat>, es': seq<Entry>) {
    match r
    case Some(k) =>
      && k < |es|
      && (if Caches(es[k], dev, inum) then es' == es[k := Referenced(es[k])]
          else && es[k].ref == 0 && es' == es[k := Recycled(es[k], dev, inum)]
               && (forall j :: 0 <= j < |es| ==> !Caches(es[j], dev, inum)) && forall j :: 0 <= j < k ==> es[j].ref > 0)
    case None => es' == es && forall j :: 0 <= j < |es| ==> es[j].ref > 0 && !Caches(es[j], dev, inum)
  }

  lemma IgetUnique(es: seq<Entry>, dev: nat, inum: nat, r: Option<nat>, es': seq<Entry>)
    requires Unique(es) && IgetOk(es, dev, inum, r, es')
    ensures Unique(es') && |es'| == |es| && (r.Some? ==> r.value < |es'| && Caches(es'[r.value], dev, inum))
  {}

  /** What iput does to the entry: drop the reference, start freeing the inode, or panic. */
  datatype PutResult = Dropped | MustFree | PanicBusy

  function PutOutcome(e: Entry): PutResult {
    if e.ref == 1 && e.valid && e.nlink == 0 then if e.busy then PanicBusy else MustFree
    else Dropped
  }

  class InodeCache {
    const inode: array<Entry>

    constructor ()
      ensures inode.Length == NINODE && fresh(inode) && Unique(inode[..]) && forall k ::
              0 <= k < NINODE ==> inode[k].ref == 0
    {
      inode := new Entry[NINODE](i => Entry(0, 0, 0, false, false, 0));
    }

    method Iget(dev: nat, inum: nat) returns (r: Option<nat>)
      modifies inode
      ensures IgetOk(old(inode[..]), dev, inum, r, inode[..])
      ensures old(Unique(inode[..])) ==> Unique(inode[..])
      ensures r.None? <==> forall j :: 0 <= j < inode.Length ==>
                old(inode[j]).ref > 0 && !(old(inode[j]).dev == dev && old(inode[j]).inum == inum)
      ensures r.Some? ==> r.value < inode.Length && inode[r.value].dev == dev && inode[r.value].inum == inum
                          && inode[r.value].ref == old(inode[r.value]).ref + 1
      ensures r.Some? && old(inode[r.value]).ref == 0 ==> !inode[r.value].valid && !inode[r.value].busy
      ensures r.Some? && old(inode[r.value]).ref == 0 ==> forall j :: 0 <= j < r.value ==> old(inode[j]).ref > 0
      ensures r.Some? ==> forall j :: 0 <= j < inode.Length && j != r.value ==> inode[j] == old(inode[j])
    {
      var empty: Option<nat> := None;
      var k := 0;
      while k < inode.Length
        invariant k <= inode.Length && inode[..] == old(inode[..])
        invariant forall j :: 0 <= j < k ==> !Caches(inode[j], dev, inum)
        invariant empty.None? ==> forall j :: 0 <= j < k ==> inode[j].ref > 0
        invariant empty.Some? ==> empty.value < k && inode[empty.value].ref == 0 && forall j ::
                  0 <= j < empty.value ==> inode[j].ref > 0
      {
        if Caches(inode[k], dev, inum) {
          inode[k] := Referenced(inode[k]);
          r := Some(k);
          if old(Unique(inode[..])) { IgetUnique(old(inode[..]), dev, inum, r, inode[..]); }
          return;
        }
        if empty.None? && inode[k].ref == 0 { empty := Some(k); }
        k := k + 1;
      }
      if empty.None? { return None; }
      // Recycle an unused entry.
      inode[empty.value] := Recycled(inode[empty.value], dev, inum);
      r := empty;
      if old(Unique(inode[..])) { IgetUnique(old(inode[..]), dev, inum, r, inode[..]); }
    }

    /** The critical section of ilock: false when the caller must sleep. */
    method TryLock(k: nat) returns (locked: bool)
      requires k < inode.Length
      modifies inode
      ensures locked <==> !old(inode[k].busy)
      ensures inode[..] == if locked then old(inode[..])[k := old(inode[k]).(busy := true)] else old(inode[..])
    {
      if inode[k].busy { return false; }
      inode[k] := inode[k].(busy := true);
      return true;
    }

    /** The first critical section of iput. */
    method Iput(k: nat) returns (r: PutResult)
      requires k < inode.Length && inode[k].ref > 0
      modifies inode
      ensures r == PutOutcome(old(inode[k]))
      ensures r.Dropped? <==> !(old(inode[k]).ref == 1 && old(inode[k]).valid && old(inode[k]).nlink == 0)
      ensures r.MustFree? ==> !old(inode[k]).busy
      ensures r.PanicBusy? ==> old(inode[k]).busy
      ensures inode[..] == old(inode[..])[k := match r
                                              case Dropped => old(inode[k]).(ref := old(inode[k]).ref - 1)
                                              case MustFree => old(inode[k]).(busy := true)
                                              case PanicBusy => old(inode[k])]
    {
      if inode[k].ref == 1 && inode[k].valid && inode[k].nlink == 0 {
        if inode[k].busy { return PanicBusy; }
        inode[k] := inode[k].(busy := true);
        return MustFree;
      }
      inode[k] := inode[k].(ref := inode[k].ref - 1);
      return Dropped;
    }
  }
}
