/** Path names as fs.c splits them. */
module Paths {
  const DIRSIZ: nat := 14

  /** A path cut at every slash. */
  function Split(path: string): (r: seq<string>)
    ensures |r| >= 1
  {
    if path == [] then [[]]
    else if path[0] == '/' then [[]] + Split(path[1..])
    else var r := Split(path[1..]); [[path[0]] + r[0]] + r[1..]
  }

  function NonEmpty(parts: seq<string>): seq<string> {
    if parts == [] then []
    else if parts[0] == [] then NonEmpty(parts[1..])
    else [parts[0]] + NonEmpty(parts[1..])
  }

  /** The path elements: what is left between the slashes. */
  function Elements(path: string): seq<string> { NonEmpty(Split(path)) }

  function Truncate(name: string): string { if |name| >= DIRSIZ then name[..DIRSIZ] else name }

  function Truncated(names: seq<string>): (r: seq<string>)
    ensures |r| == |names| && forall i :: 0 <= i < |r| ==> r[i] == Truncate(names[i])
  {
    seq(|names|, i requires 0 <= i < |names| => Truncate(names[i]))
  }

  predicate NoSlash(s: string) { forall i :: 0 <= i < |s| ==> s[i] != '/' }

  predicate AllSlash(s: string) { forall i :: 0 <= i < |s| ==> s[i] == '/' }

  // ---- Splitting and concatenation ----

  lemma {:induction false} LeadingSlashes(path: string, k: nat)
    requires k <= |path| && AllSlash(path[..k])
    ensures Elements(path) == Elements(path[k..])
  {
    if k > 0 {
      assert path[0] == path[..k][0];
      var tail := path[1..];
      assert tail[..k - 1] == path[..k][1..] && tail[k - 1..] == path[k..];
      LeadingSlashes(tail, k - 1);
      SplitSlash(path);
    } else {
      assert path[0..] == path;
    }
  }

  lemma SplitSlash(path: string)
    requires path != [] && path[0] == '/'
    ensures Elements(path) == Elements(path[1..])
  {
    assert Split(path)[1..] == Split(path[1..]);
  }

  lemma {:induction false} SplitWord(path: string, k: nat)
    requires k <= |path| && NoSlash(path[..k]) && (k < |path| ==> path[k] == '/')
    ensures Split(path)[0] == path[..k]
    ensures Split(path)[1..] == if k < |path| then Split(path[k + 1..]) else []
  {
    if k > 0 {
      assert path[0] == path[..k][0];
      var tail := path[1..];
      assert tail[..k - 1] == path[..k][1..];
      SplitWord(tail, k - 1);
      assert path[..k] == [path[0]] + tail[..k - 1];
      if k < |path| { assert tail[k..] == path[k + 1..]; }
    }
  }

  lemma FirstElement(path: string, k: nat)
    requires 0 < k <= |path| && NoSlash(path[..k]) && (k < |path| ==> path[k] == '/')
    ensures Elements(path) == [path[..k]] + Elements(path[k..])
  {
    SplitWord(path, k);
    var parts := Split(path);
    assert parts == [path[..k]] + parts[1..];
    if k < |path| {
      assert path[k..][1..] == path[k + 1..];
      SplitSlash(path[k..]);
    } else {
      assert path[k..] == [] && parts[1..] == [];
    }
  }

  lemma NoElements(path: string)
    requires path != [] && path[0] != '/'
    ensures Elements(path) != []
  {
    var k := 1;
    while k < |path| && path[k] != '/'
      invariant 1 <= k <= |path| && NoSlash(path[..k])
    {
      k := k + 1;
    }
    FirstElement(path, k);
  }

  lemma EmptyElements()
    ensures Elements([]) == []
  {}

  // ---- skipelem ----

  datatype Skip = NoMore | Elem(name: string, rest: string)

  /** skipelem's promise: the first element, cut to DIRSIZ, and the path after it without leading
      slashes. */
  ghost predicate SkipOk(path: string, r: Skip) {
    match r
    case NoMore => Elements(path) == []
    case Elem(name, rest) =>
      && Elements(path) != [] && name == Truncate(Elements(path)[0]) && Elements(rest) == Elements(path)[1..]
      && (rest == [] || rest[0] != '/') && |rest| < |path|
  }

  /** The caller's test for the last element. */
  lemma LastElement(path: string, r: Skip)
    requires SkipOk(path, r) && r.Elem?
    ensures r.rest == [] <==> |Elements(path)| == 1
  {
    if r.rest != [] { NoElements(r.rest); }
  }

  /** The first position that is not a slash. */
  method SkipSlashes(path: string, from: nat) returns (p: nat)
    requires from <= |path|
    ensures from <= p <= |path| && (forall i :: from <= i < p ==> path[i] == '/') && (p < |path| ==> path[p] != '/')
  {
    p := from;
    while p < |path| && path[p] == '/'
      invariant from <= p <= |path| && forall i :: from <= i < p ==> path[i] == '/'
    {
      p := p + 1;
    }
  }

  method SkipName(path: string, from: nat) returns (p: nat)
    requires from <= |path|
    ensures from <= p <= |path| && (forall i :: from <= i < p ==> path[i] != '/') && (p < |path| ==> path[p] == '/')
  {
    p := from;
    while p < |path| && path[p] != '/'
      invariant from <= p <= |path| && forall i :: from <= i < p ==> path[i] != '/'
    {
      p := p + 1;
    }
  }

  method Skipelem(path: string) returns (r: Skip)
    ensures SkipOk(path, r)
  {
    hide SkipOk;
    var s := SkipSlashes(path, 0);
    if s == |path| {
      AllSlashes(path);
      return NoMore;
    }
    var p := SkipName(path, s);
    var len := p - s;
    var name := if len >= DIRSIZ then path[s..s + DIRSIZ] else path[s..s + len];
    var q := SkipSlashes(path, p);
    Skipped(path, s, p, q, name);
    return Elem(name, path[q..]);
  }

  lemma AllSlashes(path: string)
    requires forall i :: 0 <= i < |path| ==> path[i] == '/'
    ensures SkipOk(path, NoMore)
  {
    LeadingSlashes(path, |path|);
    assert path[|path|..] == [];
    EmptyElements();
  }

  lemma Skipped(path: string, s: nat, p: nat, q: nat, name: string)
    requires s < p <= q <= |path|
    requires forall i :: 0 <= i < s || p <= i < q ==> path[i] == '/'
    requires forall i :: s <= i < p ==> path[i] != '/'
    requires (p < |path| ==> path[p] == '/') && (q < |path| ==> path[q] != '/')
    requires name == if p - s >= DIRSIZ then path[s..s + DIRSIZ] else path[s..p]
    ensures SkipOk(path, Elem(name, path[q..]))
  {
    hide Elements;
    var a, w, b, rest := path[..s], path[s..p], path[p..q], path[q..];
    assert Elements(path) == [w] + Elements(rest) by {
      Parts(path, s, p, q);
      PartsElements(a, w, b, rest);
    }
    assert Elements(path)[1..] == Elements(rest);
    assert name == Truncate(w);
  }

  lemma Parts(path: string, s: nat, p: nat, q: nat)
    requires s <= p <= q <= |path|
    ensures path == path[..s] + (path[s..p] + (path[p..q] + path[q..]))
  {}

  lemma PartsElements(a: string, w: string, b: string, rest: string)
    requires AllSlash(a) && w != [] && NoSlash(w) && AllSlash(b) && (b == [] ==> rest == [])
    ensures Elements(a + (w + (b + rest))) == [w] + Elements(rest)
  {
    var after := b + rest;
    SlashPrefix(a, w + after);
    assert (w + after)[..|w|] == w && (w + after)[|w|..] == after;
    FirstElement(w + after, |w|);
    SlashPrefix(b, rest);
  }

  lemma SlashPrefix(a: string, x: string)
    requires AllSlash(a)
    ensures Elements(a + x) == Elements(x)
  {
    assert (a + x)[..|a|] == a && (a + x)[|a|..] == x;
    LeadingSlashes(a + x, |a|);
  }

  /** SkipOk determines the name and the elements that remain. */
  lemma SkipUnique(path: string, r: Skip, r': Skip)
    requires SkipOk(path, r) && SkipOk(path, r')
    ensures r.NoMore? == r'.NoMore?
    ensures r.Elem? ==> r.name == r'.name && Elements(r.rest) == Elements(r'.rest)
  {}

  /** Joining names with slashes and splitting again gives the names. */
  function Join(names: seq<string>): string {
    if names == [] then [] else "/" + names[0] + Join(names[1..])
  }

  lemma {:induction false} JoinElements(names: seq<string>)
    requires forall i :: 0 <= i < |names| ==> names[i] != [] && NoSlash(names[i])
    ensures Elements(Join(names)) == names
  {
    if names != [] {
      var n, tail := names[0], Join(names[1..]);
      var p := n + tail;
      assert Join(names)[1..] == p;
      SplitSlash(Join(names));
      assert p[..|n|] == n && p[|n|..] == tail;
      FirstElement(p, |n|);
      JoinElements(names[1..]);
    }
  }
}
