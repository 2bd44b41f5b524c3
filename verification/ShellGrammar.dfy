/** The shell's language as a grammar over tokens: which lines parse, and into which commands.

      line   ::=  pipe '&'* [ ';' line ]
      pipe   ::=  exec [ '|' pipe ]
      exec   ::=  '(' line ')' redir*  |  (word | redir)*
      redir  ::=  ('<' | '>' | '>>') word */
module ShellGrammar {
  import opened Shell

  // ---- Tokens laid out in a line ----

  datatype Lexeme = Lexeme(tok: Token, at: Span)

  ghost predicate TokenAt(buf: string, l: Lexeme) {
    && l.at.q < l.at.eq <= |buf|
    && match l.tok
       case EndToken => false
       case Word => IsWord(buf, l.at)
       case Append => l.at.eq == l.at.q + 2 && buf[l.at.q] == buf[l.at.q + 1] == '>'
       case Sym(c) =>
         && Symbol(c) && l.at.eq == l.at.q + 1 && buf[l.at.q] == c
         && (c == '>' && l.at.eq < |buf| ==> buf[l.at.eq] != '>')
  }

  /** From `p` on the line consists of these tokens, in order, with blanks between them. */
  ghost predicate Laid(buf: string, p: nat, ls: seq<Lexeme>)
    requires p <= |buf|
    decreases |ls|
  {
    if ls == [] then forall i :: p <= i < |buf| ==> Blank(buf[i])
    else
      && p <= ls[0].at.q && TokenAt(buf, ls[0]) && (forall i :: p <= i < ls[0].at.q ==> Blank(buf[i]))
      && Laid(buf, ls[0].at.eq, ls[1..])
  }

  /** What the grammar sees of a token: a symbol, or the place of a word. */
  datatype Term = Mark(tok: Token) | Name(at: Span)

  function TermOf(tok: Token, at: Span): Term { if tok == Word then Name(at) else Mark(tok) }

  function TermsOf(ls: seq<Lexeme>): (r: seq<Term>)
    ensures |r| == |ls| && forall i :: 0 <= i < |ls| ==> r[i] == TermOf(ls[i].tok, ls[i].at)
  {
    seq(|ls|, i requires 0 <= i < |ls| => TermOf(ls[i].tok, ls[i].at))
  }

  // ---- The grammar ----

  datatype Item = Arg(at: Span) | Red(op: Token, file: Span)

  datatype SExec = Simple(items: seq<Item>) | Block(line: SLine, reds: seq<Item>)

  datatype SPipe = Only(e: SExec) | Bar(e: SExec, p: SPipe)

  datatype SLine = SLine(p: SPipe, backs: nat, next: Rest)

  datatype Rest = Last | Semi(line: SLine)

  predicate RedOp(tok: Token) { tok == Sym('<') || tok == Sym('>') || tok == Append }

  function ItemTerms(x: Item): seq<Term> {
    match x
    case Arg(at) => [Name(at)]
    case Red(op, file) => [Mark(op), Name(file)]
  }

  function ItemsTerms(xs: seq<Item>): seq<Term> { if xs == [] then [] else ItemTerms(xs[0]) + ItemsTerms(xs[1..]) }

  function Marks(tok: Token, n: nat): seq<Term> { if n == 0 then [] else [Mark(tok)] + Marks(tok, n - 1) }

  function ExecTerms(e: SExec): seq<Term> {
    match e
    case Simple(items) => ItemsTerms(items)
    case Block(line, reds) => [Mark(Sym('('))] + LineTerms(line) + [Mark(Sym(')'))] + ItemsTerms(reds)
  }

  function PipeTerms(p: SPipe): seq<Term> {
    match p
    case Only(e) => ExecTerms(e)
    case Bar(e, q) => ExecTerms(e) + [Mark(Sym('|'))] + PipeTerms(q)
  }

  function LineTerms(l: SLine): seq<Term> {
    PipeTerms(l.p) + Marks(Sym('&'), l.backs)
      + match l.next
        case Last => []
        case Semi(line) => [Mark(Sym(';'))] + LineTerms(line)
  }

  function ArgsOf(xs: seq<Item>): seq<Span> {
    if xs == [] then [] else (if xs[0].Arg? then [xs[0].at] else []) + ArgsOf(xs[1..])
  }

  function ModeOf(op: Token): Mode { if op == Sym('<') then Input else Output }

  function RedsOf(xs: seq<Item>): seq<Redirection> {
    if xs == [] then [] else (if xs[0].Red? then [Redirection(xs[0].file, ModeOf(xs[0].op))] else []) + RedsOf(xs[1..])
  }

  predicate ItemsOk(xs: seq<Item>) { forall i :: 0 <= i < |xs| && xs[i].Red? ==> RedOp(xs[i].op) }

  predicate AllReds(xs: seq<Item>) { forall i :: 0 <= i < |xs| ==> xs[i].Red? }

  /** Operators are redirection operators, a block is followed by redirections only, and a command has
      fewer than MAXARGS words. */
  ghost predicate ExecOk(e: SExec) {
    match e
    case Simple(items) => ItemsOk(items) && |ArgsOf(items)| < MAXARGS
    case Block(line, reds) => LineOk(line) && AllReds(reds) && ItemsOk(reds)
  }

  ghost predicate PipeOk(p: SPipe) {
    match p
    case Only(e) => ExecOk(e)
    case Bar(e, q) => ExecOk(e) && PipeOk(q)
  }

  ghost predicate LineOk(l: SLine) { PipeOk(l.p) && (l.next.Semi? ==> LineOk(l.next.line)) }

  // ---- The command a tree stands for ----

  /** The first redirection is the innermost. */
  function Redirected(c: Cmd, rs: seq<Redirection>): Cmd
    decreases |rs|
  {
    if rs == [] then c else Redirected(Redir(c, rs[0]), rs[1..])
  }

  function ExecCmd(e: SExec): Cmd {
    match e
    case Simple(items) => Redirected(Exec(ArgsOf(items)), RedsOf(items))
    case Block(line, reds) => Redirected(LineCmd(line), RedsOf(reds))
  }

  function PipeCmd(p: SPipe): Cmd {
    match p
    case Only(e) => ExecCmd(e)
    case Bar(e, q) => Pipe(ExecCmd(e), PipeCmd(q))
  }

  function Backs(c: Cmd, n: nat): Cmd { if n == 0 then c else Back(Backs(c, n - 1)) }

  function LineCmd(l: SLine): Cmd {
    var c := Backs(PipeCmd(l.p), l.backs);
    match l.next
    case Last => c
    case Semi(line) => List(c, LineCmd(line))
  }

  // ---- The tokens gettoken finds ----

  /** The terms from `p` to the end of the line. */
  function Terms(buf: string, p: nat): seq<Term>
    requires p <= |buf|
    decreases |buf| - p
  {
    var t := GetToken(buf, p);
    if t.tok == EndToken then [] else [TermOf(t.tok, t.at)] + Terms(buf, t.next)
  }

  lemma SkipIs(buf: string, p: nat, s: nat)
    requires p <= s <= |buf| && (s < |buf| ==> !Blank(buf[s])) && forall i :: p <= i < s ==> Blank(buf[i])
    ensures Skip(buf, p) == s
  {}

  lemma WordEndsAt(buf: string, p: nat, e: nat)
    requires p <= e <= |buf| && (e < |buf| ==> !WordChar(buf[e])) && forall i :: p <= i < e ==> WordChar(buf[i])
    ensures WordEnd(buf, p) == e
  {}

  lemma TokenNotBlank(buf: string, l: Lexeme)
    requires TokenAt(buf, l)
    ensures !Blank(buf[l.at.q])
  {
    if l.tok == Word { assert WordChar(buf[l.at.q]); }
  }

  /** gettoken finds the first token of the layout. */
  lemma FirstToken(buf: string, p: nat, ls: seq<Lexeme>)
    requires p <= |buf| && Laid(buf, p, ls)
    ensures ls == [] ==> GetToken(buf, p).tok == EndToken
    ensures ls != [] ==> ls[0].at.eq <= |buf| && GetToken(buf, p) == Scan(ls[0].tok, ls[0].at, Skip(buf, ls[0].at.eq))
  {
    if ls == [] {
      SkipIs(buf, p, |buf|);
    } else {
      var Lexeme(tok, at) := ls[0];
      TokenNotBlank(buf, ls[0]);
      SkipIs(buf, p, at.q);
      if tok == Word {
        assert WordChar(buf[at.q]);
        WordEndsAt(buf, at.q, at.eq);
      }
    }
  }

  /** Blanks in front make no difference. */
  lemma LaidSkip(buf: string, p: nat, ls: seq<Lexeme>)
    requires p <= |buf| && Laid(buf, p, ls)
    ensures Laid(buf, Skip(buf, p), ls)
  {
    if ls != [] { TokenNotBlank(buf, ls[0]); }
  }

  /** A line laid out as `ls` has exactly the terms of `ls`. */
  lemma {:induction false} LaidTerms(buf: string, p: nat, ls: seq<Lexeme>)
    requires p <= |buf| && Laid(buf, p, ls)
    ensures Terms(buf, p) == TermsOf(ls)
    decreases |ls|
  {
    FirstToken(buf, p, ls);
    if ls != [] {
      LaidSkip(buf, ls[0].at.eq, ls[1..]);
      LaidTerms(buf, Skip(buf, ls[0].at.eq), ls[1..]);
      assert TermsOf(ls) == [TermOf(ls[0].tok, ls[0].at)] + TermsOf(ls[1..]);
    }
  }

  lemma LaidBefore(buf: string, p: nat, s: nat, ls: seq<Lexeme>)
    requires p <= s <= |buf| && (forall i :: p <= i < s ==> Blank(buf[i])) && Laid(buf, s, ls)
    ensures Laid(buf, p, ls)
  {}

  /** Every line is laid out in some way, and by LaidTerms in one way only as far as terms go. */
  lemma {:induction false} Lays(buf: string, p: nat) returns (ls: seq<Lexeme>)
    requires p <= |buf|
    ensures Laid(buf, p, ls)
    decreases |buf| - p
  {
    var t := GetToken(buf, p);
    if t.tok == EndToken {
      ls := [];
    } else {
      var rest := Lays(buf, t.next);
      LaidBefore(buf, t.at.eq, t.next, rest);
      ls := [Lexeme(t.tok, t.at)] + rest;
      assert ls[1..] == rest;
      assert TokenAt(buf, ls[0]);
    }
  }

  // ---- The parser sees terms ----

  /** The character peek looks at. */
  predicate Starts(t: Term, toks: string) {
    t.Mark? && ((t.tok.Sym? && t.tok.c in toks) || (t.tok == Append && '>' in toks))
  }

  lemma SkipTwice(buf: string, p: nat)
    requires p <= |buf|
    ensures p <= Skip(buf, p) <= |buf| && Skip(buf, Skip(buf, p)) == Skip(buf, p)
  {}

  lemma TermsSkip(buf: string, p: nat)
    requires p <= |buf|
    ensures Terms(buf, Skip(buf, p)) == Terms(buf, p) && Skip(buf, p) <= |buf|
  {
    SkipTwice(buf, p);
    assert GetToken(buf, Skip(buf, p)) == GetToken(buf, p);
  }

  lemma PeekIs(buf: string, p: nat, toks: string)
    requires p <= |buf| && forall i :: 0 <= i < |toks| ==> Symbol(toks[i])
    ensures Peek(buf, p, toks) <==> Terms(buf, p) != [] && Starts(Terms(buf, p)[0], toks)
  {
    var s := Skip(buf, p);
    var t := GetToken(buf, p);
    if t.tok == Word { assert WordChar(buf[s]); }
  }

  /** One token is one term. */
  lemma TokenIs(buf: string, p: nat)
    requires p <= |buf|
    ensures var t := GetToken(buf, p);
            && p <= t.next <= |buf| && (t.tok == EndToken <==> Terms(buf, p) == [])
            && (t.tok != EndToken ==> p < t.next && Terms(buf, p) == [TermOf(t.tok, t.at)] + Terms(buf, t.next))
  {}

  lemma TakeTerm(buf: string, p: nat, t: Term, rest: seq<Term>)
    requires p <= |buf| && Terms(buf, p) == [t] + rest
    ensures var k := GetToken(buf, p);
            p < k.next <= |buf| && k.tok != EndToken && TermOf(k.tok, k.at) == t && Terms(buf, k.next) == rest
  {
    hide GetToken, Terms;
    TokenIs(buf, p);
    var k := GetToken(buf, p);
    var ts := [TermOf(k.tok, k.at)] + Terms(buf, k.next);
    assert ts[0] == t && ts[1..] == Terms(buf, k.next) && ([t] + rest)[1..] == rest;
  }

  // ---- Redirections ----

  predicate StartsRed(ts: seq<Term>) { ts != [] && ts[0].Mark? && RedOp(ts[0].tok) }

  lemma PeekRed(buf: string, p: nat)
    requires p <= |buf|
    ensures Peek(buf, p, "<>") <==> StartsRed(Terms(buf, p))
  {
    PeekIs(buf, p, "<>");
  }

  lemma {:induction false} RedirsComplete(buf: string, p: nat, rs: seq<Redirection>, reds: seq<Item>, rest: seq<Term>)
      returns (pos: nat)
    requires p <= |buf| && AllReds(reds) && ItemsOk(reds) && Terms(buf, p) == ItemsTerms(reds) + rest
    requires !StartsRed(rest)
    ensures ParseRedirs(buf, p, rs) == Redirs(rs + RedsOf(reds), pos) && p <= pos <= |buf| && Terms(buf, pos) == rest
    decreases |reds|
  {
    hide Skip, GetToken, Peek, Terms;
    PeekRed(buf, p);
    TermsSkip(buf, p);
    pos := Skip(buf, p);
    if reds == [] {
      assert rs + [] == rs;
    } else {
      var Red(op, file) := reds[0];
      var more := reds[1..];
      assert ItemsTerms(reds) + rest == [Mark(op)] + ([Name(file)] + (ItemsTerms(more) + rest));
      TakeTerm(buf, pos, Mark(op), [Name(file)] + (ItemsTerms(more) + rest));
      var t := GetToken(buf, pos);
      TakeTerm(buf, t.next, Name(file), ItemsTerms(more) + rest);
      var f := GetToken(buf, t.next);
      var r := Redirection(file, ModeOf(op));
      pos := RedirsComplete(buf, f.next, rs + [r], more, rest);
      assert rs + [r] + RedsOf(more) == rs + RedsOf(reds);
    }
  }

  lemma {:induction false} RedirsSound(buf: string, p: nat, rs: seq<Redirection>) returns (reds: seq<Item>)
    requires p <= |buf| && ParseRedirs(buf, p, rs).Redirs?
    ensures var r := ParseRedirs(buf, p, rs);
            && AllReds(reds) && ItemsOk(reds) && r.rs == rs + RedsOf(reds) && r.pos <= |buf|
            && Terms(buf, p) == ItemsTerms(reds) + Terms(buf, r.pos) && !StartsRed(Terms(buf, r.pos))
    decreases |buf| - p
  {
    hide Skip, GetToken, Terms, ItemsTerms, RedsOf;
    NoItems();
    PeekRed(buf, p);
    hide Peek;
    TermsSkip(buf, p);
    var s := Skip(buf, p);
    if !Peek(buf, p, "<>") {
      reds := [];
      assert rs + [] == rs;
    } else {
      SkipTwice(buf, p);
      TokenIs(buf, s);
      var t := GetToken(buf, s);
      TokenIs(buf, t.next);
      var f := GetToken(buf, t.next);
      var r := Redirection(f.at, if t.tok == Sym('<') then Input else Output);
      var more := RedirsSound(buf, f.next, rs + [r]);
      reds := [Red(t.tok, f.at)] + more;
      OneRed(t.tok, f.at, more);
      assert rs + [r] + RedsOf(more) == rs + RedsOf(reds);
      assert [Mark(t.tok)] + ([Name(f.at)] + (ItemsTerms(more) + Terms(buf, ParseRedirs(buf, p, rs).pos)))
          == ItemsTerms(reds) + Terms(buf, ParseRedirs(buf, p, rs).pos);
    }
  }

  lemma OneRed(op: Token, file: Span, more: seq<Item>)
    ensures ItemsTerms([Red(op, file)] + more) == [Mark(op), Name(file)] + ItemsTerms(more)
    ensures RedsOf([Red(op, file)] + more) == [Redirection(file, ModeOf(op))] + RedsOf(more)
  {
    assert ([Red(op, file)] + more)[1..] == more;
  }

  // ---- Words and redirections ----

  lemma {:induction false} TermsTogether(xs: seq<Item>, ys: seq<Item>)
    ensures ItemsTerms(xs + ys) == ItemsTerms(xs) + ItemsTerms(ys)
    decreases |xs|
  {
    if xs == [] {
      assert xs + ys == ys;
    } else {
      assert (xs + ys)[1..] == xs[1..] + ys;
      TermsTogether(xs[1..], ys);
      var a := ItemTerms(xs[0]);
      assert ItemsTerms(xs + ys) == a + ItemsTerms(xs[1..] + ys) && ItemsTerms(xs) == a + ItemsTerms(xs[1..]);
      assert a + (ItemsTerms(xs[1..]) + ItemsTerms(ys)) == a + ItemsTerms(xs[1..]) + ItemsTerms(ys);
    }
  }

  lemma {:induction false} ArgsTogether(xs: seq<Item>, ys: seq<Item>)
    ensures ArgsOf(xs + ys) == ArgsOf(xs) + ArgsOf(ys)
    decreases |xs|
  {
    if xs == [] {
      assert xs + ys == ys;
    } else {
      assert (xs + ys)[1..] == xs[1..] + ys;
      ArgsTogether(xs[1..], ys);
      var a := if xs[0].Arg? then [xs[0].at] else [];
      assert ArgsOf(xs + ys) == a + ArgsOf(xs[1..] + ys) && ArgsOf(xs) == a + ArgsOf(xs[1..]);
      assert a + (ArgsOf(xs[1..]) + ArgsOf(ys)) == a + ArgsOf(xs[1..]) + ArgsOf(ys);
    }
  }

  lemma {:induction false} RedsTogether(xs: seq<Item>, ys: seq<Item>)
    ensures RedsOf(xs + ys) == RedsOf(xs) + RedsOf(ys)
    decreases |xs|
  {
    if xs == [] {
      assert xs + ys == ys;
    } else {
      assert (xs + ys)[1..] == xs[1..] + ys;
      RedsTogether(xs[1..], ys);
      var a := if xs[0].Red? then [Redirection(xs[0].file, ModeOf(xs[0].op))] else [];
      assert RedsOf(xs + ys) == a + RedsOf(xs[1..] + ys) && RedsOf(xs) == a + RedsOf(xs[1..]);
      assert a + (RedsOf(xs[1..]) + RedsOf(ys)) == a + RedsOf(xs[1..]) + RedsOf(ys);
    }
  }

  lemma Together(xs: seq<Item>, ys: seq<Item>)
    ensures ItemsTerms(xs + ys) == ItemsTerms(xs) + ItemsTerms(ys)
    ensures ArgsOf(xs + ys) == ArgsOf(xs) + ArgsOf(ys) && RedsOf(xs + ys) == RedsOf(xs) + RedsOf(ys)
  {
    hide ItemsTerms, ArgsOf, RedsOf;
    TermsTogether(xs, ys);
    ArgsTogether(xs, ys);
    RedsTogether(xs, ys);
  }

  lemma {:induction false} NoArgs(xs: seq<Item>)
    requires AllReds(xs)
    ensures ArgsOf(xs) == []
    decreases |xs|
  {
    if xs != [] { NoArgs(xs[1..]); }
  }

  /** How many redirections stand in front. */
  function Lead(xs: seq<Item>): (n: nat)
    ensures n <= |xs| && AllReds(xs[..n]) && (n < |xs| ==> xs[n].Arg?)
  {
    if xs == [] || xs[0].Arg? then 0
    else
      var n := 1 + Lead(xs[1..]);
      assert xs[..n] == [xs[0]] + xs[1..][..n - 1];
      n
  }

  /** The tokens parseexec's loop stops at, or the end of the line. */
  predicate Stops(ts: seq<Term>) { ts == [] || Starts(ts[0], "|)&;") }

  /** One round of the loop. */
  lemma ArgsRound(buf: string, p: nat, args: seq<Span>, rs: seq<Redirection>)
    requires p <= |buf| && !Peek(buf, p, "|)&;") && Skip(buf, p) <= |buf| && |args| + 1 < MAXARGS
    ensures var t := GetToken(buf, Skip(buf, p));
            t.tok == Word && t.next <= |buf| && ParseRedirs(buf, t.next, rs).Redirs? ==>
              var r := ParseRedirs(buf, t.next, rs);
              r.pos <= |buf| && ParseArgs(buf, p, args, rs) == ParseArgs(buf, r.pos, args + [t.at], r.rs)
  {
    hide Skip, GetToken, Peek, ParseRedirs;
  }

  lemma ArgsStop(buf: string, p: nat, args: seq<Span>, rs: seq<Redirection>) returns (pos: nat)
    requires p <= |buf| && Stops(Terms(buf, p))
    ensures ParseArgs(buf, p, args, rs) == Args(args, rs, pos) && p <= pos <= |buf| && Terms(buf, pos) == Terms(buf, p)
  {
    hide Skip, GetToken, Peek, Terms, ParseRedirs;
    PeekIs(buf, p, "|)&;");
    TermsSkip(buf, p);
    var s := Skip(buf, p);
    SkipTwice(buf, p);
    pos := if Terms(buf, p) == [] then GetToken(buf, s).next else s;
    if Terms(buf, p) == [] { EndStays(buf, s); }
  }

  lemma {:induction false} ArgsComplete(buf: string, p: nat, args: seq<Span>, rs: seq<Redirection>, items: seq<Item>,
      rest: seq<Term>)
    returns (pos: nat)
    requires p <= |buf| && ItemsOk(items) && (items != [] ==> items[0].Arg?) && Stops(rest)
    requires Terms(buf, p) == ItemsTerms(items) + rest && |args| + |ArgsOf(items)| < MAXARGS
    ensures ParseArgs(buf, p, args, rs) == Args(args + ArgsOf(items), rs + RedsOf(items), pos)
    ensures p <= pos <= |buf| && Terms(buf, pos) == rest
    decreases |items|
  {
    hide Skip, GetToken, Peek, Terms, ParseRedirs, ParseArgs, ItemsTerms, ArgsOf, RedsOf, Lead, Stops, ItemsOk, AllReds;
    if items == [] {
      NoItems();
      assert args + [] == args && rs + [] == rs && [] + rest == rest;
      pos := ArgsStop(buf, p, args, rs);
    } else {
      var at, n := items[0].at, Lead(items[1..]);
      var reds, more := items[1..][..n], items[1..][n..];
      assert items == [Arg(at)] + (reds + more);
      OneArg(items, at, reds, more);
      OkParts(items, at, reds, more);
      var tail := ItemsTerms(more) + rest;
      assert ItemsTerms(items) + rest == [Name(at)] + (ItemsTerms(reds) + tail);
      PeekIs(buf, p, "|)&;");
      TermsSkip(buf, p);
      var s := Skip(buf, p);
      TakeTerm(buf, s, Name(at), ItemsTerms(reds) + tail);
      var t := GetToken(buf, s);
      TailNotRed(more, rest);
      var next := RedirsComplete(buf, t.next, rs, reds, tail);
      ArgsRound(buf, p, args, rs);
      pos := ArgsComplete(buf, next, args + [at], rs + RedsOf(reds), more, rest);
      assert args + [at] + ArgsOf(more) == args + ArgsOf(items);
      assert rs + RedsOf(reds) + RedsOf(more) == rs + RedsOf(items);
    }
  }

  lemma NoItems()
    ensures ItemsTerms([]) == [] && ArgsOf([]) == [] && RedsOf([]) == []
  {}

  lemma {:induction false} ArgsSound(buf: string, p: nat, args: seq<Span>, rs: seq<Redirection>)
      returns (items: seq<Item>)
    requires p <= |buf| && ParseArgs(buf, p, args, rs).Args? && |args| < MAXARGS
    ensures var r := ParseArgs(buf, p, args, rs);
            && ItemsOk(items) && (items != [] ==> items[0].Arg?) && r.args == args + ArgsOf(items)
            && r.rs == rs + RedsOf(items) && |r.args| < MAXARGS && r.pos <= |buf|
            && Terms(buf, p) == ItemsTerms(items) + Terms(buf, r.pos) && Stops(Terms(buf, r.pos))
    decreases |buf| - p
  {
    hide Skip, GetToken, Peek, Terms, ParseRedirs, ItemsTerms, ArgsOf, RedsOf;
    PeekIs(buf, p, "|)&;");
    if Stops(Terms(buf, p)) {
      NoItems();
      items := [];
      var pos := ArgsStop(buf, p, args, rs);
      assert args + [] == args && rs + [] == rs;
    } else {
      TermsSkip(buf, p);
      SkipTwice(buf, p);
      var s := Skip(buf, p);
      TokenIs(buf, s);
      var t := GetToken(buf, s);
      var reds := RedirsSound(buf, t.next, rs);
      var r := ParseRedirs(buf, t.next, rs);
      ArgsRound(buf, p, args, rs);
      hide ParseArgs;
      var more := ArgsSound(buf, r.pos, args + [t.at], r.rs);
      items := [Arg(t.at)] + (reds + more);
      OneArg(items, t.at, reds, more);
      assert args + [t.at] + ArgsOf(more) == args + ArgsOf(items);
      assert rs + RedsOf(reds) + RedsOf(more) == rs + RedsOf(items);
      var rest := Terms(buf, ParseArgs(buf, p, args, rs).pos);
      assert [Name(t.at)] + (ItemsTerms(reds) + (ItemsTerms(more) + rest)) == ItemsTerms(items) + rest;
    }
  }

  lemma EndStays(buf: string, p: nat)
    requires p <= |buf| && Terms(buf, p) == []
    ensures var t := GetToken(buf, p); t.tok == EndToken && t.next <= |buf| && Terms(buf, t.next) == []
  {}

  /** A word, the redirections behind it, and the rest. */
  lemma OneArg(items: seq<Item>, at: Span, reds: seq<Item>, more: seq<Item>)
    requires items == [Arg(at)] + (reds + more) && AllReds(reds)
    ensures ItemsTerms(items) == [Name(at)] + (ItemsTerms(reds) + ItemsTerms(more))
    ensures ArgsOf(items) == [at] + ArgsOf(more) && RedsOf(items) == RedsOf(reds) + RedsOf(more)
  {
    hide ItemsTerms, ArgsOf, RedsOf;
    assert items[1..] == reds + more;
    Together(reds, more);
    NoArgs(reds);
    FirstItem(items);
  }

  lemma FirstItem(items: seq<Item>)
    requires items != [] && items[0].Arg?
    ensures ItemsTerms(items) == [Name(items[0].at)] + ItemsTerms(items[1..])
    ensures ArgsOf(items) == [items[0].at] + ArgsOf(items[1..]) && RedsOf(items) == RedsOf(items[1..])
  {}

  lemma OkParts(items: seq<Item>, at: Span, reds: seq<Item>, more: seq<Item>)
    requires items == [Arg(at)] + (reds + more) && ItemsOk(items)
    ensures ItemsOk(reds) && ItemsOk(more)
  {
    forall i | 0 <= i < |reds| ensures reds[i].Red? ==> RedOp(reds[i].op) { assert items[1 + i] == reds[i]; }
    forall i | 0 <= i < |more| ensures more[i].Red? ==> RedOp(more[i].op) { assert items[1 + |reds| + i] == more[i]; }
  }

  lemma TailNotRed(more: seq<Item>, rest: seq<Term>)
    requires (more != [] ==> more[0].Arg?) && Stops(rest)
    ensures !StartsRed(ItemsTerms(more) + rest)
  {
    if more != [] { assert (ItemsTerms(more) + rest)[0] == Name(more[0].at); }
  }

  // ---- Commands ----

  lemma {:induction false} RedirectedLast(c: Cmd, rs: seq<Redirection>, r: Redirection)
    ensures Redirected(c, rs + [r]) == Redir(Redirected(c, rs), r)
    decreases |rs|
  {
    if rs == [] {
      assert [] + [r] == [r];
      assert Redirected(c, [r]) == Redirected(Redir(c, r), [r][1..]);
    } else {
      assert (rs + [r])[1..] == rs[1..] + [r];
      RedirectedLast(Redir(c, rs[0]), rs[1..], r);
    }
  }

  /** The parser's nesting is the grammar's. */
  lemma {:induction false} WrapIs(c: Cmd, rs: seq<Redirection>)
    ensures Wrap(c, rs) == Redirected(c, rs)
    decreases |rs|
  {
    if rs != [] {
      var n := |rs| - 1;
      WrapIs(c, rs[..n]);
      RedirectedLast(c, rs[..n], rs[n]);
      assert rs[..n] + [rs[n]] == rs;
    }
  }

  lemma PeekOne(buf: string, p: nat, c: char)
    requires p <= |buf| && Symbol(c) && c != '>'
    ensures Peek(buf, p, [c]) <==> Terms(buf, p) != [] && Terms(buf, p)[0] == Mark(Sym(c))
  {
    PeekIs(buf, p, [c]);
  }

  /** parseexec on a command without parentheses. */
  lemma SimpleComplete(buf: string, p: nat, items: seq<Item>, rest: seq<Term>) returns (pos: nat)
    requires p <= |buf| && ExecOk(Simple(items)) && Terms(buf, p) == ItemsTerms(items) + rest && Stops(rest)
    ensures ParseExec(buf, p) == Parsed(ExecCmd(Simple(items)), pos) && p <= pos <= |buf| && Terms(buf, pos) == rest
  {
    hide Skip, GetToken, Peek, Terms, ParseRedirs, ParseArgs, ItemsTerms, ArgsOf, RedsOf, Wrap, Redirected, Lead;
    var n := Lead(items);
    var reds, more := items[..n], items[n..];
    assert items == reds + more;
    Together(reds, more);
    NoArgs(reds);
    assert [] + ArgsOf(more) == ArgsOf(more) && [] + RedsOf(reds) == RedsOf(reds);
    assert ItemsTerms(items) + rest == ItemsTerms(reds) + (ItemsTerms(more) + rest);
    TailNotRed(more, rest);
    PeekOne(buf, p, '(');
    NoParen(items, rest);
    var mid := RedirsComplete(buf, p, [], reds, ItemsTerms(more) + rest);
    pos := ArgsComplete(buf, mid, [], RedsOf(reds), more, rest);
    WrapIs(Exec(ArgsOf(items)), RedsOf(items));
  }

  lemma NoParen(items: seq<Item>, rest: seq<Term>)
    requires ItemsOk(items) && Stops(rest)
    ensures var ts := ItemsTerms(items) + rest; ts == [] || ts[0] != Mark(Sym('('))
  {
    if items != [] {
      assert ItemsTerms(items)[0] == ItemTerms(items[0])[0];
      assert (ItemsTerms(items) + rest)[0] == ItemTerms(items[0])[0];
    } else {
      assert ItemsTerms(items) + rest == rest;
    }
  }

  /** What may follow a line, and a pipe. */
  predicate LineEnds(ts: seq<Term>) { ts == [] || ts[0] == Mark(Sym(')')) }

  predicate PipeEnds(ts: seq<Term>) { ts == [] || Starts(ts[0], ")&;") }

  lemma {:induction false} BacksMore(c: Cmd, n: nat)
    ensures Backs(Back(c), n) == Back(Backs(c, n))
  {
    if n > 0 { BacksMore(c, n - 1); }
  }

  lemma {:induction false} BacksComplete(buf: string, p: nat, c: Cmd, n: nat, rest: seq<Term>) returns (pos: nat)
    requires p <= |buf| && Terms(buf, p) == Marks(Sym('&'), n) + rest && (rest == [] || rest[0] != Mark(Sym('&')))
    ensures ParseBacks(buf, p, c) == Parsed(Backs(c, n), pos) && p <= pos <= |buf| && Terms(buf, pos) == rest
    decreases n
  {
    hide Skip, GetToken, Peek, Terms;
    PeekOne(buf, p, '&');
    TermsSkip(buf, p);
    SkipTwice(buf, p);
    if n == 0 {
      assert [] + rest == rest;
      pos := Skip(buf, p);
    } else {
      assert Marks(Sym('&'), n) + rest == [Mark(Sym('&'))] + (Marks(Sym('&'), n - 1) + rest);
      TakeTerm(buf, p, Mark(Sym('&')), Marks(Sym('&'), n - 1) + rest);
      pos := BacksComplete(buf, GetToken(buf, p).next, Back(c), n - 1, rest);
      BacksMore(c, n - 1);
    }
  }

  lemma {:induction false} LineComplete(buf: string, p: nat, l: SLine, rest: seq<Term>) returns (pos: nat)
    requires p <= |buf| && LineOk(l) && Terms(buf, p) == LineTerms(l) + rest && LineEnds(rest)
    ensures ParseLine(buf, p) == Parsed(LineCmd(l), pos) && p <= pos <= |buf| && Terms(buf, pos) == rest
    decreases l, 0
  {
    hide Skip, GetToken, Peek, Terms, ParsePipe, ParseBacks, PipeTerms, Marks, PipeCmd, Backs, PipeOk;
    var after := if l.next.Last? then rest else [Mark(Sym(';'))] + (LineTerms(l.next.line) + rest);
    assert LineTerms(l) + rest == PipeTerms(l.p) + (Marks(Sym('&'), l.backs) + after);
    AfterBacks(l.backs, after);
    var mid := PipeComplete(buf, p, l.p, Marks(Sym('&'), l.backs) + after);
    pos := BacksComplete(buf, mid, PipeCmd(l.p), l.backs, after);
    PeekOne(buf, pos, ';');
    TermsSkip(buf, pos);
    SkipTwice(buf, pos);
    match l.next {
      case Last => pos := Skip(buf, pos);
      case Semi(line) =>
        TakeTerm(buf, pos, Mark(Sym(';')), LineTerms(line) + rest);
        pos := LineComplete(buf, GetToken(buf, pos).next, line, rest);
    }
  }

  lemma AfterBacks(n: nat, after: seq<Term>)
    requires after == [] || Starts(after[0], ");")
    ensures PipeEnds(Marks(Sym('&'), n) + after)
  {
    if n > 0 { assert (Marks(Sym('&'), n) + after)[0] == Mark(Sym('&')); } else { assert [] + after == after; }
  }

  lemma {:induction false} PipeComplete(buf: string, p: nat, q: SPipe, rest: seq<Term>) returns (pos: nat)
    requires p <= |buf| && PipeOk(q) && Terms(buf, p) == PipeTerms(q) + rest && PipeEnds(rest)
    ensures ParsePipe(buf, p) == Parsed(PipeCmd(q), pos) && p <= pos <= |buf| && Terms(buf, pos) == rest
    decreases q, 0
  {
    hide Skip, GetToken, Peek, Terms, ParseExec, ExecTerms, ExecCmd, ExecOk;
    var after := if q.Only? then rest else [Mark(Sym('|'))] + (PipeTerms(q.p) + rest);
    assert PipeTerms(q) + rest == ExecTerms(q.e) + after;
    pos := ExecComplete(buf, p, q.e, after);
    PeekOne(buf, pos, '|');
    TermsSkip(buf, pos);
    SkipTwice(buf, pos);
    match q {
      case Only(_) => pos := Skip(buf, pos);
      case Bar(_, r) =>
        TakeTerm(buf, pos, Mark(Sym('|')), PipeTerms(r) + rest);
        pos := PipeComplete(buf, GetToken(buf, pos).next, r, rest);
    }
  }

  lemma {:induction false} ExecComplete(buf: string, p: nat, e: SExec, rest: seq<Term>) returns (pos: nat)
    requires p <= |buf| && ExecOk(e) && Terms(buf, p) == ExecTerms(e) + rest && Stops(rest)
    ensures ParseExec(buf, p) == Parsed(ExecCmd(e), pos) && p <= pos <= |buf| && Terms(buf, pos) == rest
    decreases e, 0
  {
    hide Skip, GetToken, Peek, Terms, ParseLine, ParseRedirs, ParseArgs, ItemsTerms, RedsOf, Wrap, Redirected;
    hide LineTerms;
    match e {
      case Simple(items) => pos := SimpleComplete(buf, p, items, rest);
      case Block(line, reds) =>
        var tail := ItemsTerms(reds) + rest;
        var inner := LineTerms(line) + ([Mark(Sym(')'))] + tail);
        assert ExecTerms(e) + rest == [Mark(Sym('('))] + inner;
        PeekOne(buf, p, '(');
        TermsSkip(buf, p);
        SkipTwice(buf, p);
        var s := Skip(buf, p);
        PeekOne(buf, s, '(');
        TakeTerm(buf, s, Mark(Sym('(')), inner);
        var close := LineComplete(buf, GetToken(buf, s).next, line, [Mark(Sym(')'))] + tail);
        PeekOne(buf, close, ')');
        TakeTerm(buf, close, Mark(Sym(')')), tail);
        pos := RedirsComplete(buf, GetToken(buf, close).next, [], reds, rest);
        assert [] + RedsOf(reds) == RedsOf(reds);
        WrapIs(LineCmd(line), RedsOf(reds));
    }
  }

  // ---- Whatever parses comes from the grammar ----

  lemma {:induction false} BacksSound(buf: string, p: nat, c: Cmd) returns (n: nat)
    requires p <= |buf|
    ensures var r := ParseBacks(buf, p, c);
            && r.cmd == Backs(c, n) && r.pos <= |buf| && Terms(buf, p) == Marks(Sym('&'), n) + Terms(buf, r.pos)
    decreases |buf| - p
  {
    hide Skip, GetToken, Peek, Terms;
    PeekOne(buf, p, '&');
    TermsSkip(buf, p);
    if Peek(buf, p, "&") {
      TokenIs(buf, p);
      var t := GetToken(buf, p);
      var m := BacksSound(buf, t.next, Back(c));
      n := m + 1;
      BacksMore(c, m);
      var rest := Terms(buf, ParseBacks(buf, p, c).pos);
      assert [Mark(Sym('&'))] + (Marks(Sym('&'), m) + rest) == Marks(Sym('&'), n) + rest;
    } else {
      n := 0;
      assert [] + Terms(buf, p) == Terms(buf, p);
    }
  }

  lemma {:induction false} LineSound(buf: string, p: nat) returns (l: SLine)
    requires p <= |buf| && ParseLine(buf, p).Parsed?
    ensures var r := ParseLine(buf, p);
            LineOk(l) && r.cmd == LineCmd(l) && r.pos <= |buf| && Terms(buf, p) == LineTerms(l) + Terms(buf, r.pos)
    decreases |buf| - p, 3
  {
    hide Skip, GetToken, Peek, Terms, ParsePipe, ParseBacks, PipeTerms, Marks, PipeCmd, Backs, PipeOk;
    var q := PipeSound(buf, p);
    var r := ParsePipe(buf, p);
    var n := BacksSound(buf, r.pos, r.cmd);
    var b := ParseBacks(buf, r.pos, r.cmd);
    PeekOne(buf, b.pos, ';');
    TermsSkip(buf, b.pos);
    var marks := Marks(Sym('&'), n);
    if Peek(buf, b.pos, ";") {
      TokenIs(buf, b.pos);
      var t := GetToken(buf, b.pos);
      var line := LineSound(buf, t.next);
      l := SLine(q, n, Semi(line));
      var rest := Terms(buf, ParseLine(buf, p).pos);
      assert PipeTerms(q) + (marks + ([Mark(Sym(';'))] + (LineTerms(line) + rest))) == LineTerms(l) + rest;
    } else {
      l := SLine(q, n, Last);
      var rest := Terms(buf, ParseLine(buf, p).pos);
      assert PipeTerms(q) + (marks + rest) == LineTerms(l) + rest;
    }
  }

  lemma {:induction false} PipeSound(buf: string, p: nat) returns (q: SPipe)
    requires p <= |buf| && ParsePipe(buf, p).Parsed?
    ensures var r := ParsePipe(buf, p);
            PipeOk(q) && r.cmd == PipeCmd(q) && r.pos <= |buf| && Terms(buf, p) == PipeTerms(q) + Terms(buf, r.pos)
    decreases |buf| - p, 2
  {
    hide Skip, GetToken, Peek, Terms, ParseExec, ExecTerms, ExecCmd, ExecOk;
    var e := ExecSound(buf, p);
    var r := ParseExec(buf, p);
    PeekOne(buf, r.pos, '|');
    TermsSkip(buf, r.pos);
    if Peek(buf, r.pos, "|") {
      TokenIs(buf, r.pos);
      var t := GetToken(buf, r.pos);
      var more := PipeSound(buf, t.next);
      q := Bar(e, more);
      var rest := Terms(buf, ParsePipe(buf, p).pos);
      assert ExecTerms(e) + ([Mark(Sym('|'))] + (PipeTerms(more) + rest)) == PipeTerms(q) + rest;
    } else {
      q := Only(e);
    }
  }

  lemma {:induction false} ExecSound(buf: string, p: nat) returns (e: SExec)
    requires p <= |buf| && ParseExec(buf, p).Parsed?
    ensures var r := ParseExec(buf, p);
            ExecOk(e) && r.cmd == ExecCmd(e) && r.pos <= |buf| && Terms(buf, p) == ExecTerms(e) + Terms(buf, r.pos)
    decreases |buf| - p, 1
  {
    hide Skip, GetToken, Peek, Terms, ParseRedirs, ParseArgs, ParseBlock, ItemsTerms, RedsOf, ArgsOf, Wrap, Redirected;
    TermsSkip(buf, p);
    if Peek(buf, p, "(") {
      PeekOne(buf, p, '(');
      PeekOne(buf, Skip(buf, p), '(');
      SkipTwice(buf, p);
      e := BlockSound(buf, Skip(buf, p));
    } else {
      var reds := RedirsSound(buf, p, []);
      var r := ParseRedirs(buf, p, []);
      var more := ArgsSound(buf, r.pos, [], r.rs);
      var a := ParseArgs(buf, r.pos, [], r.rs);
      var items := reds + more;
      Together(reds, more);
      NoArgs(reds);
      assert ItemsOk(items);
      assert [] + ArgsOf(more) == ArgsOf(items) && [] + RedsOf(reds) + RedsOf(more) == RedsOf(items);
      e := Simple(items);
      WrapIs(Exec(a.args), a.rs);
      assert ItemsTerms(reds) + (ItemsTerms(more) + Terms(buf, a.pos)) == ItemsTerms(items) + Terms(buf, a.pos);
    }
  }

  lemma {:induction false} BlockSound(buf: string, p: nat) returns (e: SExec)
    requires p <= |buf| && Peek(buf, p, "(") && ParseBlock(buf, p).Parsed?
    ensures var r := ParseBlock(buf, p);
            ExecOk(e) && r.cmd == ExecCmd(e) && r.pos <= |buf| && Terms(buf, p) == ExecTerms(e) + Terms(buf, r.pos)
    decreases |buf| - p, 0
  {
    hide Skip, GetToken, Peek, Terms, ParseRedirs, ParseLine, ItemsTerms, RedsOf, Wrap, Redirected, LineTerms;
    PeekOne(buf, p, '(');
    TokenIs(buf, p);
    var open := GetToken(buf, p);
    var line := LineSound(buf, open.next);
    var r := ParseLine(buf, open.next);
    PeekOne(buf, r.pos, ')');
    TokenIs(buf, r.pos);
    var close := GetToken(buf, r.pos);
    var reds := RedirsSound(buf, close.next, []);
    var d := ParseRedirs(buf, close.next, []);
    assert [] + RedsOf(reds) == RedsOf(reds);
    e := Block(line, reds);
    WrapIs(r.cmd, d.rs);
    var rest := Terms(buf, d.pos);
    assert [Mark(Sym('('))] + (LineTerms(line) + ([Mark(Sym(')'))] + (ItemsTerms(reds) + rest))) == ExecTerms(e) + rest;
  }

  // ---- The whole line ----

  /** Nothing but blanks is left exactly when no term is. */
  lemma AtEnd(buf: string, p: nat)
    requires p <= |buf|
    ensures Skip(buf, p) == |buf| <==> Terms(buf, p) == []
  {}

  /** Every sentence of the grammar, laid out in a line in any way, parses into its command. */
  lemma ParsesSentence(buf: string, ls: seq<Lexeme>, l: SLine)
    requires Laid(buf, 0, ls) && LineOk(l) && TermsOf(ls) == LineTerms(l)
    ensures ParseCmd(buf) == Parsed(LineCmd(l), |buf|)
  {
    LaidTerms(buf, 0, ls);
    assert LineTerms(l) + [] == LineTerms(l);
    hide Skip, Terms, ParseLine, LineTerms;
    var pos := LineComplete(buf, 0, l, []);
    AtEnd(buf, pos);
  }

  /** And a line parses only if it is one, which then is the command's. */
  lemma SentenceParsed(buf: string, ls: seq<Lexeme>) returns (l: SLine)
    requires Laid(buf, 0, ls) && ParseCmd(buf).Parsed?
    ensures LineOk(l) && TermsOf(ls) == LineTerms(l) && ParseCmd(buf) == Parsed(LineCmd(l), |buf|)
  {
    LaidTerms(buf, 0, ls);
    hide Skip, Terms, ParseLine, LineTerms;
    l := LineSound(buf, 0);
    AtEnd(buf, ParseLine(buf, 0).pos);
    assert LineTerms(l) + [] == LineTerms(l);
  }

  /** parsecmd accepts exactly the sentences of the grammar: any line, however it is laid out. */
  lemma ParsesExactly(buf: string, ls: seq<Lexeme>)
    requires Laid(buf, 0, ls)
    ensures ParseCmd(buf).Parsed? <==> exists l :: LineOk(l) && TermsOf(ls) == LineTerms(l)
    ensures forall l :: LineOk(l) && TermsOf(ls) == LineTerms(l) ==> ParseCmd(buf) == Parsed(LineCmd(l), |buf|)
  {
    hide ParseCmd, Laid, LineOk, LineTerms, LineCmd;
    forall l | LineOk(l) && TermsOf(ls) == LineTerms(l) ensures ParseCmd(buf) == Parsed(LineCmd(l), |buf|) {
      ParsesSentence(buf, ls, l);
    }
    if ParseCmd(buf).Parsed? { var l := SentenceParsed(buf, ls); }
  }

  /** A command of words and redirections in any order: the words in order, wrapped in the
      redirections in order. */
  lemma SimpleLine(buf: string, ls: seq<Lexeme>, items: seq<Item>)
    requires Laid(buf, 0, ls) && TermsOf(ls) == ItemsTerms(items) && ItemsOk(items) && |ArgsOf(items)| < MAXARGS
    ensures ParseCmd(buf) == Parsed(Redirected(Exec(ArgsOf(items)), RedsOf(items)), |buf|)
  {
    JustItems(items);
    hide ParseCmd, ItemsTerms, ArgsOf, RedsOf, Redirected, Laid;
    ParsesSentence(buf, ls, SLine(Only(Simple(items)), 0, Last));
  }

  lemma JustItems(items: seq<Item>)
    requires ItemsOk(items) && |ArgsOf(items)| < MAXARGS
    ensures var l := SLine(Only(Simple(items)), 0, Last);
            && LineOk(l) && LineTerms(l) == ItemsTerms(items)
            && LineCmd(l) == Redirected(Exec(ArgsOf(items)), RedsOf(items))
  {
    var l := SLine(Only(Simple(items)), 0, Last);
    assert PipeTerms(l.p) == ExecTerms(Simple(items)) == ItemsTerms(items);
    assert LineTerms(l) == ItemsTerms(items) + Marks(Sym('&'), 0) + [];
    assert LineCmd(l) == Backs(PipeCmd(l.p), 0) == ExecCmd(Simple(items));
  }

  // ---- Why a line does not parse ----

  /** What goes wrong in a command: an operator without a file, a parenthesis after words or
      redirections, one word too many, something wrong inside a block, a block that is not closed, or
      an operator without a file behind it. */
  datatype BadExec =
    | NoFile(items: seq<Item>, op: Token, tail: seq<Term>)
    | LateParen(items: seq<Item>, tail: seq<Term>)
    | TooMany(items: seq<Item>, at: Span, tail: seq<Term>)
    | InBlock(bad: BadLine)
    | Unclosed(line: SLine, tail: seq<Term>)
    | BlockNoFile(line: SLine, items: seq<Item>, op: Token, tail: seq<Term>)

  datatype BadPipe = BadFirst(bad: BadExec) | BadRest(e: SExec, rest: BadPipe)

  datatype BadLine = BadPipe(bad: BadPipe) | BadNext(p: SPipe, backs: nat, next: BadLine)

  predicate NoName(ts: seq<Term>) { ts == [] || !ts[0].Name? }

  ghost predicate BadExecOk(b: BadExec) {
    match b
    case NoFile(items, op, tail) => ItemsOk(items) && |ArgsOf(items)| < MAXARGS && RedOp(op) && NoName(tail)
    case LateParen(items, _) => ItemsOk(items) && |ArgsOf(items)| < MAXARGS && items != []
    case TooMany(items, _, _) => ItemsOk(items) && |ArgsOf(items)| == MAXARGS - 1
    case InBlock(bad) => BadLineOk(bad)
    case Unclosed(line, tail) => LineOk(line) && (tail == [] || tail[0] != Mark(Sym(')')))
    case BlockNoFile(line, items, op, tail) =>
      LineOk(line) && AllReds(items) && ItemsOk(items) && RedOp(op) && NoName(tail)
  }

  ghost predicate BadPipeOk(b: BadPipe) {
    match b
    case BadFirst(bad) => BadExecOk(bad)
    case BadRest(e, rest) => ExecOk(e) && BadPipeOk(rest)
  }

  ghost predicate BadLineOk(b: BadLine) {
    match b
    case BadPipe(bad) => BadPipeOk(bad)
    case BadNext(p, _, next) => PipeOk(p) && BadLineOk(next)
  }

  function BadExecTerms(b: BadExec): seq<Term> {
    match b
    case NoFile(items, op, tail) => ItemsTerms(items) + ([Mark(op)] + tail)
    case LateParen(items, tail) => ItemsTerms(items) + ([Mark(Sym('('))] + tail)
    case TooMany(items, at, tail) => ItemsTerms(items) + ([Name(at)] + tail)
    case InBlock(bad) => [Mark(Sym('('))] + BadLineTerms(bad)
    case Unclosed(line, tail) => [Mark(Sym('('))] + (LineTerms(line) + tail)
    case BlockNoFile(line, items, op, tail) =>
      [Mark(Sym('('))] + (LineTerms(line) + ([Mark(Sym(')'))] + (ItemsTerms(items) + ([Mark(op)] + tail))))
  }

  function BadPipeTerms(b: BadPipe): seq<Term> {
    match b
    case BadFirst(bad) => BadExecTerms(bad)
    case BadRest(e, rest) => ExecTerms(e) + ([Mark(Sym('|'))] + BadPipeTerms(rest))
  }

  function BadLineTerms(b: BadLine): seq<Term> {
    match b
    case BadPipe(bad) => BadPipeTerms(bad)
    case BadNext(p, n, next) => PipeTerms(p) + (Marks(Sym('&'), n) + ([Mark(Sym(';'))] + BadLineTerms(next)))
  }

  function ExecPanic(b: BadExec): Panic {
    match b
    case NoFile(_, _, _) => MissingFile
    case LateParen(_, _) => SyntaxError
    case TooMany(_, _, _) => TooManyArgs
    case InBlock(bad) => LinePanic(bad)
    case Unclosed(_, _) => MissingParen
    case BlockNoFile(_, _, _, _) => MissingFile
  }

  function PipePanic(b: BadPipe): Panic {
    match b
    case BadFirst(bad) => ExecPanic(bad)
    case BadRest(_, rest) => PipePanic(rest)
  }

  function LinePanic(b: BadLine): Panic {
    match b
    case BadPipe(bad) => PipePanic(bad)
    case BadNext(_, _, next) => LinePanic(next)
  }

  lemma {:induction false} RedirsBad(buf: string, p: nat, rs: seq<Redirection>)
      returns (reds: seq<Item>, op: Token, tail: seq<Term>)
    requires p <= |buf| && ParseRedirs(buf, p, rs).RedirsFail?
    ensures AllReds(reds) && ItemsOk(reds) && RedOp(op) && NoName(tail) && ParseRedirs(buf, p, rs).why == MissingFile
    ensures Terms(buf, p) == ItemsTerms(reds) + ([Mark(op)] + tail)
    decreases |buf| - p
  {
    hide Skip, GetToken, Terms, ItemsTerms, RedsOf;
    NoItems();
    PeekRed(buf, p);
    hide Peek;
    TermsSkip(buf, p);
    SkipTwice(buf, p);
    var s := Skip(buf, p);
    TokenIs(buf, s);
    var t := GetToken(buf, s);
    TokenIs(buf, t.next);
    var f := GetToken(buf, t.next);
    if f.tok != Word {
      reds, op, tail := [], t.tok, Terms(buf, t.next);
      assert [] + ([Mark(op)] + tail) == [Mark(op)] + tail;
    } else {
      var r := Redirection(f.at, if t.tok == Sym('<') then Input else Output);
      var more;
      more, op, tail := RedirsBad(buf, f.next, rs + [r]);
      reds := [Red(t.tok, f.at)] + more;
      OneRed(t.tok, f.at, more);
      assert [Mark(t.tok)] + ([Name(f.at)] + (ItemsTerms(more) + ([Mark(op)] + tail)))
          == ItemsTerms(reds) + ([Mark(op)] + tail);
    }
  }

  /** The same with items in front. */
  function After(items: seq<Item>, b: BadExec): BadExec {
    match b
    case NoFile(xs, op, tail) => NoFile(items + xs, op, tail)
    case LateParen(xs, tail) => LateParen(items + xs, tail)
    case TooMany(xs, at, tail) => TooMany(items + xs, at, tail)
    case _ => b
  }

  lemma AfterIs(items: seq<Item>, b: BadExec)
    requires b.NoFile? || b.LateParen? || b.TooMany?
    ensures BadExecTerms(After(items, b)) == ItemsTerms(items) + BadExecTerms(b)
    ensures ExecPanic(After(items, b)) == ExecPanic(b)
    ensures ArgsOf(items + b.items) == ArgsOf(items) + ArgsOf(b.items)
    ensures ItemsOk(items) && ItemsOk(b.items) ==> ItemsOk(items + b.items)
  {
    hide ItemsTerms, ArgsOf, RedsOf;
    Together(items, b.items);
    match b {
      case NoFile(xs, op, tail) =>
        assert ItemsTerms(items) + ItemsTerms(xs) + ([Mark(op)] + tail)
            == ItemsTerms(items) + (ItemsTerms(xs) + ([Mark(op)] + tail));
      case LateParen(xs, tail) =>
        assert ItemsTerms(items) + ItemsTerms(xs) + ([Mark(Sym('('))] + tail)
            == ItemsTerms(items) + (ItemsTerms(xs) + ([Mark(Sym('('))] + tail));
      case TooMany(xs, at, tail) =>
        assert ItemsTerms(items) + ItemsTerms(xs) + ([Name(at)] + tail)
            == ItemsTerms(items) + (ItemsTerms(xs) + ([Name(at)] + tail));
    }
  }

  /** The words counted so far and those of the items. */
  ghost predicate BadArgsOk(b: BadExec, n: nat) {
    match b
    case NoFile(items, op, tail) => ItemsOk(items) && n + |ArgsOf(items)| < MAXARGS && RedOp(op) && NoName(tail)
    case LateParen(items, _) => ItemsOk(items) && n + |ArgsOf(items)| < MAXARGS
    case TooMany(items, _, _) => ItemsOk(items) && n + |ArgsOf(items)| == MAXARGS - 1
    case _ => false
  }

  lemma {:induction false} ArgsBad(buf: string, p: nat, args: seq<Span>, rs: seq<Redirection>) returns (b: BadExec)
    requires p <= |buf| && |args| < MAXARGS && !StartsRed(Terms(buf, p)) && ParseArgs(buf, p, args, rs).ArgsFail?
    ensures BadArgsOk(b, |args|) && BadExecTerms(b) == Terms(buf, p)
    ensures ParseArgs(buf, p, args, rs).why == ExecPanic(b)
    decreases |buf| - p
  {
    hide Skip, GetToken, Peek, Terms, ParseRedirs, ItemsTerms, ArgsOf, RedsOf;
    NoItems();
    PeekIs(buf, p, "|)&;");
    TermsSkip(buf, p);
    SkipTwice(buf, p);
    var s := Skip(buf, p);
    TokenIs(buf, s);
    var t := GetToken(buf, s);
    var tail := Terms(buf, t.next);
    if t.tok != Word {
      SymbolIs(buf, s);
      b := LateParen([], tail);
      assert [] + ([Mark(Sym('('))] + tail) == [Mark(Sym('('))] + tail;
    } else if |args| + 1 >= MAXARGS {
      b := TooMany([], t.at, tail);
      assert [] + ([Name(t.at)] + tail) == [Name(t.at)] + tail;
    } else if ParseRedirs(buf, t.next, rs).RedirsFail? {
      var reds, op, end := RedirsBad(buf, t.next, rs);
      var items := [Arg(t.at)] + (reds + []);
      OneArg(items, t.at, reds, []);
      NoArgs(reds);
      b := NoFile(items, op, end);
      assert [Name(t.at)] + (ItemsTerms(reds) + ([Mark(op)] + end)) == ItemsTerms(items) + ([Mark(op)] + end);
    } else {
      var reds := RedirsSound(buf, t.next, rs);
      var r := ParseRedirs(buf, t.next, rs);
      ArgsRound(buf, p, args, rs);
      hide ParseArgs;
      var rest := ArgsBad(buf, r.pos, args + [t.at], r.rs);
      var items := [Arg(t.at)] + (reds + []);
      OneArg(items, t.at, reds, []);
      NoArgs(reds);
      AfterIs(items, rest);
      b := After(items, rest);
      assert [Name(t.at)] + (ItemsTerms(reds) + Terms(buf, r.pos)) == ItemsTerms(items) + Terms(buf, r.pos);
    }
  }

  /** gettoken knows no other tokens. */
  lemma SymbolIs(buf: string, p: nat)
    requires p <= |buf|
    ensures var t := GetToken(buf, p).tok; t.Sym? ==> Symbol(t.c)
  {}

  lemma {:induction false} SimpleBad(buf: string, p: nat) returns (b: BadExec)
    requires p <= |buf| && !Peek(buf, p, "(") && ParseExec(buf, p).ParseFail?
    ensures BadExecOk(b) && BadExecTerms(b) == Terms(buf, p) && ParseExec(buf, p).why == ExecPanic(b)
  {
    hide Skip, GetToken, Peek, Terms, ParseRedirs, ParseArgs, ItemsTerms, RedsOf, ArgsOf, Wrap;
    NoItems();
    PeekOne(buf, p, '(');
    if ParseRedirs(buf, p, []).RedirsFail? {
      var reds, op, tail := RedirsBad(buf, p, []);
      NoArgs(reds);
      b := NoFile(reds, op, tail);
    } else {
      var reds := RedirsSound(buf, p, []);
      var r := ParseRedirs(buf, p, []);
      var rest := ArgsBad(buf, r.pos, [], r.rs);
      NoArgs(reds);
      AfterIs(reds, rest);
      b := After(reds, rest);
      if b.LateParen? { NotFirst(b, Terms(buf, p)); }
    }
  }

  lemma NotFirst(b: BadExec, ts: seq<Term>)
    requires b.LateParen? && BadExecTerms(b) == ts && (ts == [] || ts[0] != Mark(Sym('(')))
    ensures b.items != []
  {
    var rest := [Mark(Sym('('))] + b.tail;
    assert [] + rest == rest;
  }

  lemma {:induction false} ExecBad(buf: string, p: nat) returns (b: BadExec)
    requires p <= |buf| && ParseExec(buf, p).ParseFail?
    ensures BadExecOk(b) && BadExecTerms(b) == Terms(buf, p) && ParseExec(buf, p).why == ExecPanic(b)
    decreases |buf| - p, 1
  {
    hide Skip, GetToken, Peek, Terms, ParseRedirs, ParseArgs, ParseBlock, Wrap;
    if Peek(buf, p, "(") {
      TermsSkip(buf, p);
      PeekOne(buf, p, '(');
      PeekOne(buf, Skip(buf, p), '(');
      SkipTwice(buf, p);
      b := BlockBad(buf, Skip(buf, p));
    } else {
      b := SimpleBad(buf, p);
    }
  }

  lemma {:induction false} BlockBad(buf: string, p: nat) returns (b: BadExec)
    requires p <= |buf| && Peek(buf, p, "(") && ParseBlock(buf, p).ParseFail?
    ensures BadExecOk(b) && BadExecTerms(b) == Terms(buf, p) && ParseBlock(buf, p).why == ExecPanic(b)
    decreases |buf| - p, 0
  {
    hide Skip, GetToken, Peek, Terms, ParseRedirs, ParseLine, ItemsTerms, Wrap, LineTerms;
    PeekOne(buf, p, '(');
    TokenIs(buf, p);
    var open := GetToken(buf, p);
    if ParseLine(buf, open.next).ParseFail? {
      var bad := LineBad(buf, open.next);
      b := InBlock(bad);
    } else {
      var line := LineSound(buf, open.next);
      var r := ParseLine(buf, open.next);
      PeekOne(buf, r.pos, ')');
      if !Peek(buf, r.pos, ")") {
        b := Unclosed(line, Terms(buf, r.pos));
      } else {
        TokenIs(buf, r.pos);
        var close := GetToken(buf, r.pos);
        var reds, op, tail := RedirsBad(buf, close.next, []);
        b := BlockNoFile(line, reds, op, tail);
      }
    }
  }

  lemma {:induction false} PipeBad(buf: string, p: nat) returns (b: BadPipe)
    requires p <= |buf| && ParsePipe(buf, p).ParseFail?
    ensures BadPipeOk(b) && BadPipeTerms(b) == Terms(buf, p) && ParsePipe(buf, p).why == PipePanic(b)
    decreases |buf| - p, 2
  {
    hide Skip, GetToken, Peek, Terms, ParseExec, ExecTerms, ExecCmd, ExecOk;
    if ParseExec(buf, p).ParseFail? {
      var bad := ExecBad(buf, p);
      b := BadFirst(bad);
    } else {
      var e := ExecSound(buf, p);
      var r := ParseExec(buf, p);
      PeekOne(buf, r.pos, '|');
      TokenIs(buf, r.pos);
      var t := GetToken(buf, r.pos);
      var rest := PipeBad(buf, t.next);
      b := BadRest(e, rest);
    }
  }

  lemma {:induction false} LineBad(buf: string, p: nat) returns (b: BadLine)
    requires p <= |buf| && ParseLine(buf, p).ParseFail?
    ensures BadLineOk(b) && BadLineTerms(b) == Terms(buf, p) && ParseLine(buf, p).why == LinePanic(b)
    decreases |buf| - p, 3
  {
    hide Skip, GetToken, Peek, Terms, ParsePipe, ParseBacks, PipeTerms, Marks, PipeCmd, Backs, PipeOk;
    if ParsePipe(buf, p).ParseFail? {
      var bad := PipeBad(buf, p);
      b := BadPipe(bad);
    } else {
      var q := PipeSound(buf, p);
      var r := ParsePipe(buf, p);
      var n := BacksSound(buf, r.pos, r.cmd);
      var k := ParseBacks(buf, r.pos, r.cmd);
      PeekOne(buf, k.pos, ';');
      TokenIs(buf, k.pos);
      var t := GetToken(buf, k.pos);
      var next := LineBad(buf, t.next);
      b := BadNext(q, n, next);
    }
  }

  /** Every panic of parsecmd has its reason in the line: something wrong on the way, with the panic
      that goes with it, or a whole line with more behind it. */
  lemma PanicReason(buf: string, ls: seq<Lexeme>)
    requires Laid(buf, 0, ls) && ParseCmd(buf).ParseFail?
    ensures || (exists b :: BadLineOk(b) && BadLineTerms(b) == TermsOf(ls) && ParseCmd(buf).why == LinePanic(b))
            || (ParseCmd(buf).why == SyntaxError && exists l, tail :: Overlong(l, tail, TermsOf(ls)))
  {
    LaidTerms(buf, 0, ls);
    hide Skip, Terms, ParseLine, LineTerms, BadLineTerms;
    if ParseLine(buf, 0).ParseFail? {
      var b := LineBad(buf, 0);
    } else {
      var l := LineSound(buf, 0);
      AtEnd(buf, ParseLine(buf, 0).pos);
      var tail := Terms(buf, ParseLine(buf, 0).pos);
      assert Overlong(l, tail, TermsOf(ls));
    }
  }

  ghost predicate Overlong(l: SLine, tail: seq<Term>, ts: seq<Term>) {
    LineOk(l) && tail != [] && LineTerms(l) + tail == ts
  }
}
