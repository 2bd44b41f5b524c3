/** grep.c's matcher and the languages its patterns denote. */
module Grep {
  /** A pattern is read as a sequence of these: one character (or any, for '.'), a repeated
      character, or the end of the text. */
  datatype Item = One(c: char) | Star(c: char) | End

  /** How the matcher reads a pattern. */
  function Items(re: string): seq<Item> {
    if re == "" then []
    else if |re| > 1 && re[1] == '*' then [Star(re[0])] + Items(re[2..])
    else if re == "$" then [End]
    else [One(re[0])] + Items(re[1..])
  }

  predicate Ok(c: char, x: char) { c == '.' || x == c }

  predicate AllOk(c: char, u: string) { forall i :: 0 <= i < |u| ==> Ok(c, u[i]) }

  /** `u` is in the language of the item; `end` says that nothing follows the match. */
  predicate Fits(it: Item, u: string, end: bool) {
    match it
    case One(c) => |u| == 1 && Ok(c, u[0])
    case Star(c) => AllOk(c, u)
    case End => u == "" && end
  }

  function Flatten(parts: seq<string>): string {
    if parts == [] then "" else parts[0] + Flatten(parts[1..])
  }

  ghost predicate Parse(items: seq<Item>, parts: seq<string>, s: string, end: bool) {
    |parts| == |items| && Flatten(parts) == s && forall k :: 0 <= k < |items| ==> Fits(items[k], parts[k], end)
  }

  /** `s` is in the language of the items: it can be cut into one piece for each. */
  ghost predicate Accepts(items: seq<Item>, s: string, end: bool) {
    exists parts: seq<string> :: Parse(items, parts, s, end)
  }

  ghost predicate AcceptsTo(items: seq<Item>, text: string, j: nat) {
    j <= |text| && Accepts(items, text[..j], j == |text|)
  }

  /** Some beginning of the text is in the language of the pattern. */
  ghost predicate Here(re: string, text: string) { exists j: nat :: AcceptsTo(Items(re), text, j) }

  /** Some substring is, or with '^' some beginning. */
  ghost predicate Matches(re: string, text: string) {
    if re != "" && re[0] == '^' then Here(re[1..], text)
    else exists i: nat :: i <= |text| && Here(re, text[i..])
  }

  // ---- The language item by item ----

  lemma AcceptsNil(s: string, end: bool)
    ensures Accepts([], s, end) <==> s == ""
  {
    if s == "" { assert Parse([], [], s, end); }
  }

  lemma AcceptsCons(it: Item, rest: seq<Item>, s: string, end: bool, k: nat)
    requires k <= |s| && Fits(it, s[..k], end) && Accepts(rest, s[k..], end)
    ensures Accepts([it] + rest, s, end)
  {
    var parts :| Parse(rest, parts, s[k..], end);
    var all := [s[..k]] + parts;
    assert all[1..] == parts && s[..k] + s[k..] == s;
    assert Parse([it] + rest, all, s, end);
  }

  lemma AcceptsHead(it: Item, rest: seq<Item>, s: string, end: bool) returns (k: nat)
    requires Accepts([it] + rest, s, end)
    ensures k <= |s| && Fits(it, s[..k], end) && Accepts(rest, s[k..], end)
  {
    var items := [it] + rest;
    var parts :| Parse(items, parts, s, end);
    k := |parts[0]|;
    assert Flatten(parts) == parts[0] + Flatten(parts[1..]);
    assert s[..k] == parts[0] && s[k..] == Flatten(parts[1..]);
    assert Fits(items[0], parts[0], end);
    forall i | 0 <= i < |rest|
      ensures Fits(rest[i], parts[1..][i], end)
    {
      assert Fits(items[i + 1], parts[i + 1], end);
    }
    assert Parse(rest, parts[1..], s[k..], end);
  }

  // ---- A pattern against the beginning of a text ----

  lemma HereEmpty(text: string)
    ensures Here("", text)
  {
    AcceptsNil(text[..0], 0 == |text|);
    assert AcceptsTo(Items(""), text, 0);
  }

  lemma HereEnd(text: string)
    ensures Here("$", text) <==> text == ""
  {
    assert Items("$") == [End] + [];
    if text == "" {
      AcceptsNil("", true);
      AcceptsCons(End, [], text[..0], true, 0);
      assert AcceptsTo(Items("$"), text, 0);
    }
    if Here("$", text) {
      var j: nat :| AcceptsTo(Items("$"), text, j);
      var k := AcceptsHead(End, [], text[..j], j == |text|);
      AcceptsNil(text[..j][k..], j == |text|);
    }
  }

  lemma HereOne(re: string, text: string)
    requires re != "" && !(|re| > 1 && re[1] == '*') && re != "$"
    ensures Here(re, text) <==> text != "" && Ok(re[0], text[0]) && Here(re[1..], text[1..])
  {
    var c, rest := re[0], re[1..];
    assert Items(re) == [One(c)] + Items(rest);
    if Here(re, text) {
      var j: nat :| AcceptsTo(Items(re), text, j);
      var k := AcceptsHead(One(c), Items(rest), text[..j], j == |text|);
      assert text[1..][..j - 1] == text[..j][1..];
      assert AcceptsTo(Items(rest), text[1..], j - 1);
    }
    if text != "" && Ok(c, text[0]) && Here(rest, text[1..]) {
      var j: nat :| AcceptsTo(Items(rest), text[1..], j);
      assert text[1..][..j] == text[..j + 1][1..];
      AcceptsCons(One(c), Items(rest), text[..j + 1], j + 1 == |text|, 1);
      assert AcceptsTo(Items(re), text, j + 1);
    }
  }

  ghost predicate StarHere(c: char, rest: string, text: string, k: nat) {
    k <= |text| && AllOk(c, text[..k]) && Here(rest, text[k..])
  }

  lemma HereStar(re: string, text: string)
    requires |re| > 1 && re[1] == '*'
    ensures Here(re, text) <==> exists k: nat :: StarHere(re[0], re[2..], text, k)
  {
    var c, rest := re[0], re[2..];
    assert Items(re) == [Star(c)] + Items(rest);
    if Here(re, text) {
      var j: nat :| AcceptsTo(Items(re), text, j);
      var k := AcceptsHead(Star(c), Items(rest), text[..j], j == |text|);
      assert text[..j][..k] == text[..k] && text[k..][..j - k] == text[..j][k..];
      assert AcceptsTo(Items(rest), text[k..], j - k);
      assert StarHere(c, rest, text, k);
    }
    if k: nat :| StarHere(c, rest, text, k) {
      var j: nat :| AcceptsTo(Items(rest), text[k..], j);
      assert text[..k + j][..k] == text[..k] && text[k..][..j] == text[..k + j][k..];
      AcceptsCons(Star(c), Items(rest), text[..k + j], k + j == |text|, k);
      assert AcceptsTo(Items(re), text, k + j);
    }
  }

  // ---- What simple patterns mean ----

  /** No character of the pattern is special. */
  predicate Plain(re: string) {
    forall i :: 0 <= i < |re| ==> re[i] != '.' && re[i] != '*' && re[i] != '$' && re[i] != '^'
  }

  lemma {:induction false} PlainHere(re: string, text: string)
    requires Plain(re)
    ensures Here(re, text) <==> re <= text
    ensures Here(re + "$", text) <==> re == text
    decreases |re|
  {
    hide Here;
    if re == "" {
      HereEmpty(text);
      HereEnd(text);
      assert re + "$" == "$";
    } else {
      HereOne(re, text);
      HereOne(re + "$", text);
      assert (re + "$")[1..] == re[1..] + "$";
      if text != "" {
        PlainHere(re[1..], text[1..]);
        assert re == [re[0]] + re[1..] && text == [text[0]] + text[1..];
      }
    }
  }

  predicate OccursAt(re: string, text: string, i: nat) { i + |re| <= |text| && text[i..i + |re|] == re }

  /** A plain pattern matches the texts it occurs in. */
  lemma PlainIsSubstring(re: string, text: string)
    requires Plain(re)
    ensures Matches(re, text) <==> exists i: nat :: OccursAt(re, text, i)
  {
    hide Here;
    forall i: nat | i <= |text| ensures Here(re, text[i..]) <==> OccursAt(re, text, i) {
      PlainHere(re, text[i..]);
      if i + |re| <= |text| { assert text[i..][..|re|] == text[i..i + |re|]; }
    }
    if i: nat :| OccursAt(re, text, i) { assert Here(re, text[i..]); }
  }

  /** With '^' in front it matches what begins with it, and with '$' behind as well only itself. */
  lemma PlainAnchored(re: string, text: string)
    requires Plain(re)
    ensures Matches("^" + re, text) <==> re <= text
    ensures Matches("^" + re + "$", text) <==> text == re
  {
    hide Here;
    PlainHere(re, text);
    assert ("^" + re)[1..] == re && ("^" + re + "$")[1..] == re + "$";
  }

  /** A dot stands for any one character. */
  lemma DotIsAny(re: string, text: string)
    requires re == "" || re[0] != '*'
    ensures Here("." + re, text) <==> text != "" && Here(re, text[1..])
  {
    assert ("." + re)[0] == '.' && ("." + re)[1..] == re;
    HereOne("." + re, text);
  }

  // ---- The code ----

  method Match(re: string, text: string) returns (r: bool)
    ensures r <==> Matches(re, text)
  {
    hide Here;
    if re != "" && re[0] == '^' {
      r := MatchHere(re[1..], text);
      return;
    }
    var i := 0;
    r := MatchHere(re, text[i..]);
    while !r && i < |text|
      invariant i <= |text| && (r <==> Here(re, text[i..]))
      invariant forall k: nat :: k < i ==> !Here(re, text[k..])
    {
      i := i + 1;
      r := MatchHere(re, text[i..]);
    }
  }

  method MatchHere(re: string, text: string) returns (r: bool)
    ensures r <==> Here(re, text)
    decreases |re|, |text|, 1
  {
    hide Here, StarHere;
    if re == "" {
      HereEmpty(text);
      return true;
    }
    if |re| > 1 && re[1] == '*' {
      HereStar(re, text);
      r := MatchStar(re[0], re[2..], text);
      return;
    }
    if re == "$" {
      HereEnd(text);
      return text == "";
    }
    HereOne(re, text);
    if text != "" && (re[0] == '.' || re[0] == text[0]) {
      r := MatchHere(re[1..], text[1..]);
      return;
    }
    return false;
  }

  /** Shortest first, and complete. */
  method MatchStar(c: char, re: string, text: string) returns (r: bool)
    ensures r <==> exists k: nat :: StarHere(c, re, text, k)
    decreases |re|, |text|, 2
  {
    hide Here;
    var i := 0;
    while true
      invariant i <= |text| && AllOk(c, text[..i])
      invariant forall k: nat :: k < i ==> !StarHere(c, re, text, k)
      decreases |text| - i
    {
      r := MatchHere(re, text[i..]);
      if r {
        assert StarHere(c, re, text, i);
        return;
      }
      if !(i < |text| && (text[i] == c || c == '.')) {
        StuckStar(c, re, text, i);
        return false;
      }
      assert text[..i + 1] == text[..i] + [text[i]];
      i := i + 1;
    }
  }

  lemma StuckStar(c: char, re: string, text: string, i: nat)
    requires i <= |text| && (i < |text| ==> !Ok(c, text[i])) && !Here(re, text[i..])
    requires forall k: nat :: k < i ==> !StarHere(c, re, text, k)
    ensures !exists k: nat :: StarHere(c, re, text, k)
  {
    hide Here;
    forall k: nat ensures !StarHere(c, re, text, k) {
      assert i < k <= |text| ==> text[..k][i] == text[i];
    }
  }
}
