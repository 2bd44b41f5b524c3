/** The ring buffer of pipe.c with its wrapping 32-bit counters. */
module PipeRing {
  import opened Blocks

  const PIPESIZE: nat := 512
  const WRAP: nat := 0x1_0000_0000

  datatype Ring = Ring(data: seq<Byte>, nread: nat, nwrite: nat)

  predicate Full(r: Ring) { r.nwrite == (r.nread + PIPESIZE) % WRAP }

  predicate Empty(r: Ring) { r.nread == r.nwrite }

  /** One byte stored at the write counter, which moves on and may wrap. */
  function Put(r: Ring, c: Byte): Ring
    requires |r.data| == PIPESIZE
  {
    Ring(r.data[r.nwrite % PIPESIZE := c], r.nread, (r.nwrite + 1) % WRAP)
  }

  /** The byte at the read counter. */
  function Got(r: Ring): Byte
    requires |r.data| == PIPESIZE
  {
    r.data[r.nread % PIPESIZE]
  }

  function Get(r: Ring): Ring { Ring(r.data, (r.nread + 1) % WRAP, r.nwrite) }

  /** The ring against its history: `w` are all bytes ever written, `d` all bytes ever read.  What
      was read is a prefix of what was written, at most PIPESIZE behind, and the difference is in
      the buffer. */
  ghost predicate RingOk(r: Ring, w: seq<Byte>, d: seq<Byte>) {
    && |r.data| == PIPESIZE && r.nwrite == |w| % WRAP && r.nread == |d| % WRAP
    && |d| <= |w| <= |d| + PIPESIZE && d == w[..|d|]
    && forall k :: |d| <= k < |w| ==> r.data[k % PIPESIZE] == w[k]
  }

  lemma WrapIndex(n: nat)
    ensures n % WRAP % PIPESIZE == n % PIPESIZE && (n % WRAP + 1) % WRAP == (n + 1) % WRAP
  {
    var q, r := n / WRAP, n % WRAP;
    assert n == WRAP * q + r;
    assert n == PIPESIZE * (8388608 * q + r / PIPESIZE) + r % PIPESIZE;
    DivModPipe(n, 8388608 * q + r / PIPESIZE, r % PIPESIZE);
    if r + 1 == WRAP { DivModWrap(n + 1, q + 1, 0); } else { DivModWrap(n + 1, q, r + 1); }
  }

  lemma DivModPipe(x: nat, q: nat, r: nat)
    requires x == PIPESIZE * q + r && r < PIPESIZE
    ensures x % PIPESIZE == r
  {}

  lemma DivModWrap(x: nat, q: nat, r: nat)
    requires x == WRAP * q + r && r < WRAP
    ensures x % WRAP == r
  {}

  /** The code's tests see the true occupancy, wrap-around included. */
  lemma Occupancy(r: Ring, w: seq<Byte>, d: seq<Byte>)
    requires RingOk(r, w, d)
    ensures Full(r) <==> |w| == |d| + PIPESIZE
    ensures Empty(r) <==> |w| == |d|
  {
    Gap(|w|, |d|, PIPESIZE);
    Gap(|w|, |d|, 0);
  }

  lemma Gap(w: nat, d: nat, g: nat)
    requires d <= w <= d + PIPESIZE && g <= PIPESIZE
    ensures w % WRAP == (d % WRAP + g) % WRAP <==> w == d + g
  {
    var q, r := d / WRAP, d % WRAP;
    assert d == WRAP * q + r;
    if r + (w - d) < WRAP { DivModWrap(w, q, r + (w - d)); } else { DivModWrap(w, q + 1, r + (w - d) - WRAP); }
    if r + g < WRAP { DivModWrap(d + g, q, r + g); } else { DivModWrap(d + g, q + 1, r + g - WRAP); }
  }

  lemma SameSlot(j: nat, k: nat)
    requires j <= k < j + PIPESIZE && j % PIPESIZE == k % PIPESIZE
    ensures j == k
  {}

  lemma PutOk(r: Ring, w: seq<Byte>, d: seq<Byte>, c: Byte)
    requires RingOk(r, w, d) && !Full(r)
    ensures RingOk(Put(r, c), w + [c], d)
  {
    Occupancy(r, w, d);
    WrapIndex(|w|);
    var r', w' := Put(r, c), w + [c];
    forall k | |d| <= k < |w'| ensures r'.data[k % PIPESIZE] == w'[k] {
      if k < |w| && k % PIPESIZE == |w| % PIPESIZE { SameSlot(k, |w|); }
    }
    assert w'[..|d|] == w[..|d|];
  }

  lemma GetOk(r: Ring, w: seq<Byte>, d: seq<Byte>)
    requires RingOk(r, w, d) && !Empty(r)
    ensures RingOk(Get(r), w, d + [Got(r)])
  {
    Occupancy(r, w, d);
    WrapIndex(|d|);
    assert w[..|d| + 1] == w[..|d|] + [w[|d|]];
  }

  /** The pipe's buffer as an object, used with the pipe's lock held. */
  class Buffer {
    const data: array<Byte>
    var nread: nat
    var nwrite: nat
    ghost var written: seq<Byte>
    ghost var taken: seq<Byte>

    function Val(): Ring
      reads this, data
    {
      Ring(data[..], nread, nwrite)
    }

    ghost predicate Valid()
      reads this, data
    {
      RingOk(Val(), written, taken)
    }

    constructor ()
      ensures Valid() && fresh(data) && written == taken == []
    {
      data := new Byte[PIPESIZE](i => 0);
      nread, nwrite, written, taken := 0, 0, [], [];
    }

    /** pipewrite between two sleeps: store bytes of `addr` from `from` on until they are all in or
        the pipe is full. */
    method CopyIn(addr: seq<Byte>, from: nat) returns (i: nat)
      requires Valid() && from <= |addr|
      modifies this, data
      ensures Valid() && from <= i <= |addr| && taken == old(taken)
      ensures written == old(written) + addr[from..i]
      ensures i < |addr| ==> |written| == |taken| + PIPESIZE
    {
      hide RingOk;
      i := from;
      while i < |addr| && nwrite != (nread + PIPESIZE) % WRAP
        invariant from <= i <= |addr| && Valid() && taken == old(taken)
        invariant written == old(written) + addr[from..i]
      {
        ghost var r := Val();
        RingFacts(r, written, taken);
        PutOk(r, written, taken, addr[i]);
        data[nwrite % PIPESIZE] := addr[i];
        nwrite := (nwrite + 1) % WRAP;
        written := written + [addr[i]];
        assert Val() == Put(r, addr[i]);
        assert addr[from..i + 1] == addr[from..i] + [addr[i]];
        i := i + 1;
      }
      Occupancy(Val(), written, taken);
    }

    /** piperead's copy loop: the next bytes written and not yet read, at most `n`. */
    method CopyOut(n: nat) returns (addr: seq<Byte>)
      requires Valid()
      modifies this
      ensures Valid() && written == old(written) && taken == old(taken) + addr
      ensures |addr| <= n && (|addr| < n ==> taken == written)
    {
      hide RingOk;
      addr := [];
      var i := 0;
      while i < n
        invariant i == |addr| <= n && Valid() && written == old(written) && taken == old(taken) + addr
      {
        RingFacts(Val(), written, taken);
        if nread == nwrite {
          Occupancy(Val(), written, taken);
          AllTaken(Val(), written, taken);
          return;
        }
        ghost var r := Val();
        GetOk(r, written, taken);
        addr := addr + [data[nread % PIPESIZE]];
        taken := taken + [Got(r)];
        nread := (nread + 1) % WRAP;
        assert Val() == Get(r);
        i := i + 1;
      }
    }
  }

  lemma RingFacts(r: Ring, w: seq<Byte>, d: seq<Byte>)
    requires RingOk(r, w, d)
    ensures |r.data| == PIPESIZE && d <= w && |w| <= |d| + PIPESIZE
  {}

  lemma AllTaken(r: Ring, w: seq<Byte>, d: seq<Byte>)
    requires RingOk(r, w, d) && |w| == |d|
    ensures w == d
  {}
}
