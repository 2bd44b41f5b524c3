/** Printing a command tree, fully parenthesised, and parsing it back. */
module ShellPrint {
  import opened Shell

  /** A command with its words as strings. */
  datatype Tree = TExec(args: seq<string>) | TRedir(cmd: Tree, file: string, mode: Mode) | TPipe(left: Tree,
      right: Tree) | TList(left: Tree, right: Tree) | TBack(cmd: Tree)

  function Text(buf: string, at: Span): string { if at.q <= at.eq <= |buf| then buf[at.q..at.eq] else "" }

  function Texts(buf: string, args: seq<Span>): (r: seq<string>)
    ensures |r| == |args| && forall i :: 0 <= i < |r| ==> r[i] == Text(buf, args[i])
  {
    seq(|args|, i requires 0 <= i < |args| => Text(buf, args[i]))
  }

  function TreeOf(buf: string, cmd: Cmd): Tree {
    match cmd
    case Exec(args) => TExec(Texts(buf, args))
    case Redir(c, r) => TRedir(TreeOf(buf, c), Text(buf, r.file), r.mode)
    case Pipe(l, r) => TPipe(TreeOf(buf, l), TreeOf(buf, r))
    case List(l, r) => TList(TreeOf(buf, l), TreeOf(buf, r))
    case Back(c) => TBack(TreeOf(buf, c))
  }

  predicate GoodWord(w: string) { w != "" && forall i :: 0 <= i < |w| ==> WordChar(w[i]) }

  /** Words without blanks and symbols, fewer than MAXARGS to a command. */
  predicate Good(t: Tree) {
    match t
    case TExec(args) => |args| < MAXARGS && forall i :: 0 <= i < |args| ==> GoodWord(args[i])
    case TRedir(c, f, _) => Good(c) && GoodWord(f)
    case TPipe(l, r) => Good(l) && Good(r)
    case TList(l, r) => Good(l) && Good(r)
    case TBack(c) => Good(c)
  }

  function Words(args: seq<string>): string {
    if args == [] then "" else if |args| == 1 then args[0] else args[0] + " " + Words(args[1..])
  }

  function Print(t: Tree): string
    decreases t, 0
  {
    match t
    case TExec(args) => Words(args)
    case TRedir(c, f, m) => Paren(c) + (if m == Input then "<" else ">") + f
    case TPipe(l, r) => Paren(l) + "|" + Paren(r)
    case TList(l, r) => Paren(l) + ";" + Paren(r)
    case TBack(c) => Paren(c) + "&"
  }

  function Paren(t: Tree): string
    decreases t, 1
  {
    "(" + Print(t) + ")"
  }

  // ---- Text in the line ----

  predicate At(buf: string, p: nat, w: string) { p + |w| <= |buf| && buf[p..p + |w|] == w }

  lemma AtSplit(buf: string, p: nat, a: string, b: string)
    ensures At(buf, p, a + b) <==> At(buf, p, a) && At(buf, p + |a|, b)
  {
    if At(buf, p, a + b) {
      assert buf[p..p + |a|] == (a + b)[..|a|] == a;
      assert buf[p + |a|..p + |a| + |b|] == (a + b)[|a|..] == b;
    }
    if At(buf, p, a) && At(buf, p + |a|, b) {
      assert buf[p..p + |a| + |b|] == buf[p..p + |a|] + buf[p + |a|..p + |a| + |b|];
    }
  }

  lemma AtIndex(buf: string, p: nat, w: string)
    requires At(buf, p, w)
    ensures forall i :: p <= i < p + |w| ==> buf[i] == w[i - p]
  {
    forall i | p <= i < p + |w| ensures buf[i] == w[i - p] { assert buf[p..p + |w|][i - p] == w[i - p]; }
  }

  /** The printed command is followed by the end of the line or a closing parenthesis. */
  predicate Closed(buf: string, p: nat) { p == |buf| || (p < |buf| && buf[p] == ')') }

  lemma WordEndIs(buf: string, p: nat, e: nat)
    requires p <= e <= |buf| && (e < |buf| ==> !WordChar(buf[e])) && forall i :: p <= i < e ==> WordChar(buf[i])
    ensures WordEnd(buf, p) == e
  {}

  // ---- A list of words ----

  lemma ArgsStep(buf: string, p: nat, before: seq<Span>, at: Span, next: nat)
    requires p <= |buf| && !Peek(buf, p, "|)&;") && Skip(buf, p) == p && GetToken(buf, p) == Scan(Word, at, next)
    requires next <= |buf| && ParseRedirs(buf, next, []) == Redirs([], next) && |before| + 1 < MAXARGS
    ensures ParseArgs(buf, p, before, []) == ParseArgs(buf, next, before + [at], [])
  {
    hide Skip, Peek, GetToken, ParseRedirs;
  }

  lemma ArgsEnd(buf: string, p: nat, before: seq<Span>)
    requires Closed(buf, p)
    ensures ParseArgs(buf, p, before, []) == Args(before, [], p)
  {}

  lemma {:induction false} WordsParse(buf: string, p: nat, args: seq<string>, before: seq<Span>)
      returns (spans: seq<Span>)
    requires At(buf, p, Words(args)) && Closed(buf, p + |Words(args)|) && |before| + |args| < MAXARGS
    requires forall i :: 0 <= i < |args| ==> GoodWord(args[i])
    ensures ParseArgs(buf, p, before, []) == Args(before + spans, [], p + |Words(args)|) && Texts(buf, spans) == args
    decreases |args|
  {
    hide ParseArgs, Skip, Peek, GetToken, ParseRedirs, GoodWord, At, Words, Closed, Text, Texts;
    if args == [] {
      spans := [];
      assert before + spans == before;
      NoWords(buf, p, before);
      return;
    }
    var w, rest := args[0], args[1..];
    var sep := if |args| == 1 then "" else " ";
    WordsCons(buf, p, args, sep);
    OneWord(buf, p, w, sep, rest);
    var span, next := Span(p, p + |w|), p + |w| + |sep|;
    AtBound(buf, next, Words(rest));
    ArgsStep(buf, p, before, span, next);
    var more := WordsParse(buf, next, rest, before + [span]);
    spans := [span] + more;
    assert before + [span] + more == before + spans;
    TextsCons(buf, span, more, args);
  }

  lemma NoWords(buf: string, p: nat, before: seq<Span>)
    ensures Words([]) == "" && Texts(buf, []) == []
    ensures Closed(buf, p) ==> ParseArgs(buf, p, before, []) == Args(before, [], p)
  {
    if Closed(buf, p) { ArgsEnd(buf, p, before); }
  }

  lemma AtBound(buf: string, p: nat, w: string)
    requires At(buf, p, w)
    ensures p + |w| <= |buf|
  {}

  lemma WordsCons(buf: string, p: nat, args: seq<string>, sep: string)
    requires args != [] && At(buf, p, Words(args)) && sep == (if |args| == 1 then "" else " ")
    ensures |Words(args)| == |args[0]| + |sep| + |Words(args[1..])| && Text(buf, Span(p, p + |args[0]|)) == args[0]
    ensures At(buf, p, args[0]) && At(buf, p + |args[0]|, sep) && At(buf, p + |args[0]| + |sep|, Words(args[1..]))
    ensures |args| == 1 ==> args[1..] == [] && Closed(buf, p + |Words(args)|) == Closed(buf, p + |args[0]|)
  {
    var w, rest := args[0], Words(args[1..]);
    assert Words(args) == w + (sep + rest);
    hide Words;
    AtSplit(buf, p, w, sep + rest);
    AtSplit(buf, p + |w|, sep, rest);
  }

  lemma TextsCons(buf: string, span: Span, more: seq<Span>, args: seq<string>)
    requires args != [] && Texts(buf, more) == args[1..] && Text(buf, span) == args[0]
    ensures Texts(buf, [span] + more) == args
  {
    forall i | 0 <= i < |args| ensures Texts(buf, [span] + more)[i] == args[i] {
      if i > 0 { assert Texts(buf, more)[i - 1] == args[1..][i - 1]; }
    }
  }

  lemma OneWord(buf: string, p: nat, w: string, sep: string, rest: seq<string>)
    requires At(buf, p, w) && GoodWord(w) && At(buf, p + |w|, sep) && At(buf, p + |w| + |sep|, Words(rest))
    requires (sep == "" && rest == [] && Closed(buf, p + |w|)) || (sep == " " && rest != [])
    requires forall i :: 0 <= i < |rest| ==> GoodWord(rest[i])
    ensures !Peek(buf, p, "|)&;") && Skip(buf, p) == p
            && GetToken(buf, p) == Scan(Word, Span(p, p + |w|), p + |w| + |sep|)
    ensures ParseRedirs(buf, p + |w| + |sep|, []) == Redirs([], p + |w| + |sep|)
  {
    hide Skip, Peek, GetToken, ParseRedirs, WordEnd, Words;
    AtIndex(buf, p, w);
    AtIndex(buf, p + |w|, sep);
    AtIndex(buf, p + |w| + |sep|, Words(rest));
    NoWords(buf, p, []);
    var e, next := p + |w|, p + |w| + |sep|;
    FirstOfWords(rest);
    assert WordChar(buf[p]) && (e < |buf| ==> !WordChar(buf[e]));
    assert next == |buf| || (!Blank(buf[next]) && buf[next] != '<' && buf[next] != '>');
    WordToken(buf, p, e, next);
    NoRedirs(buf, next);
  }

  lemma WordToken(buf: string, p: nat, e: nat, next: nat)
    requires p < e <= next <= |buf| && (e < |buf| ==> !WordChar(buf[e])) && forall i :: p <= i < e ==> WordChar(buf[i])
    requires (next == e || (next == e + 1 && buf[e] == ' ')) && (next < |buf| ==> !Blank(buf[next]))
    ensures !Peek(buf, p, "|)&;") && Skip(buf, p) == p && GetToken(buf, p) == Scan(Word, Span(p, e), next)
  {
    WordEndIs(buf, p, e);
    assert WordChar(buf[p]);
    if next > e { assert Skip(buf, e) == Skip(buf, next); }
  }

  lemma NoRedirs(buf: string, p: nat)
    requires p == |buf| || (p < |buf| && !Blank(buf[p]) && buf[p] != '<' && buf[p] != '>')
    ensures ParseRedirs(buf, p, []) == Redirs([], p)
  {}

  lemma FirstOfWords(args: seq<string>)
    requires forall i :: 0 <= i < |args| ==> GoodWord(args[i])
    ensures args != [] ==> Words(args) != "" && WordChar(Words(args)[0])
  {
    if args != [] { assert GoodWord(args[0]); }
  }

  // ---- Symbols ----

  predicate NonBlank(buf: string, p: nat) { p == |buf| || (p < |buf| && !Blank(buf[p])) }

  predicate NextIs(buf: string, p: nat, c: char) { p < |buf| && buf[p] == c }

  lemma PeekAt(buf: string, p: nat, toks: string)
    requires NonBlank(buf, p)
    ensures Skip(buf, p) == p && (Peek(buf, p, toks) <==> p < |buf| && buf[p] in toks)
  {}

  lemma SymToken(buf: string, p: nat)
    requires p < |buf| && Symbol(buf[p]) && NonBlank(buf, p + 1) && (buf[p] == '>' ==> !NextIs(buf, p + 1, '>'))
    ensures GetToken(buf, p) == Scan(Sym(buf[p]), Span(p, p + 1), p + 1)
  {}

  /** A printed command starts with a word or a parenthesis. */
  lemma FirstOf(t: Tree)
    requires Good(t)
    ensures Print(t) != "" ==> Print(t)[0] == '(' || WordChar(Print(t)[0])
  {
    if t.TExec? { FirstOfWords(t.args); }
  }

  // ---- Parenthesised commands ----

  lemma Inside(buf: string, p: nat, t: Tree)
    requires At(buf, p, Paren(t)) && Good(t)
    ensures p + |Paren(t)| <= |buf| && |Paren(t)| == |Print(t)| + 2
    ensures NextIs(buf, p, '(') && At(buf, p + 1, Print(t)) && NextIs(buf, p + 1 + |Print(t)|, ')')
            && NonBlank(buf, p + 1)
  {
    var s := Print(t);
    FirstOf(t);
    hide Print;
    assert Paren(t) == "(" + (s + ")");
    AtSplit(buf, p, "(", s + ")");
    AtSplit(buf, p + 1, s, ")");
    AtIndex(buf, p, "(");
    AtIndex(buf, p + 1, s);
    AtIndex(buf, p + 1 + |s|, ")");
  }

  /** parseexec on a parenthesised command, given what parseline makes of the inside. */
  lemma Blocked(buf: string, p: nat, e: nat, c: Cmd)
    requires NextIs(buf, p, '(') && NonBlank(buf, p + 1) && p + 2 <= e <= |buf|
    requires ParseLine(buf, p + 1) == Parsed(c, e - 1) && NextIs(buf, e - 1, ')') && NonBlank(buf, e)
    ensures ParseExec(buf, p) == match ParseRedirs(buf, e, [])
                                 case RedirsFail(why) => ParseFail(why)
                                 case Redirs(rs, end) => Parsed(Wrap(c, rs), end)
  {
    hide Skip, Peek, GetToken, ParseRedirs, ParseLine, Wrap;
    PeekAt(buf, p, "(");
    SymToken(buf, p);
    PeekAt(buf, e - 1, ")");
    SymToken(buf, e - 1);
  }

  lemma BlockAlone(buf: string, p: nat, e: nat, c: Cmd)
    requires NextIs(buf, p, '(') && NonBlank(buf, p + 1) && p + 2 <= e <= |buf|
    requires ParseLine(buf, p + 1) == Parsed(c, e - 1) && NextIs(buf, e - 1, ')')
    requires NonBlank(buf, e) && !NextIs(buf, e, '<') && !NextIs(buf, e, '>')
    ensures ParseExec(buf, p) == Parsed(c, e)
  {
    hide ParseLine, ParseExec, Skip, Peek, GetToken;
    Blocked(buf, p, e, c);
    NoRedirs(buf, e);
  }

  lemma PipeAlone(buf: string, p: nat, e: nat, c: Cmd)
    requires p <= e <= |buf| && ParseExec(buf, p) == Parsed(c, e) && NonBlank(buf, e) && !NextIs(buf, e, '|')
    ensures ParsePipe(buf, p) == Parsed(c, e)
  {
    PeekAt(buf, e, "|");
    hide ParseExec, Skip, Peek, GetToken;
  }

  lemma NoBacks(buf: string, e: nat, c: Cmd)
    requires e <= |buf| && NonBlank(buf, e) && !NextIs(buf, e, '&')
    ensures ParseBacks(buf, e, c) == Parsed(c, e)
  {
    PeekAt(buf, e, "&");
    hide Skip, Peek, GetToken;
  }

  lemma LineAlone(buf: string, p: nat, e: nat, c: Cmd)
    requires p <= e <= |buf| && ParsePipe(buf, p) == Parsed(c, e) && Closed(buf, e)
    ensures ParseLine(buf, p) == Parsed(c, e)
  {
    NoBacks(buf, e, c);
    PeekAt(buf, e, ";");
    hide ParsePipe, ParseBacks, Skip, Peek, GetToken;
  }

  // ---- The round trip ----

  lemma ExecParse(buf: string, p: nat, args: seq<string>) returns (c: Cmd)
    requires Good(TExec(args)) && At(buf, p, Words(args)) && Closed(buf, p + |Words(args)|)
    ensures ParseLine(buf, p) == Parsed(c, p + |Words(args)|) && TreeOf(buf, c) == TExec(args)
  {
    hide ParseArgs, ParseRedirs, ParseLine, ParsePipe, Skip, Peek, GetToken, Words, Texts;
    var e := p + |Words(args)|;
    var spans := WordsParse(buf, p, args, []);
    assert [] + spans == spans;
    FirstOfWords(args);
    AtIndex(buf, p, Words(args));
    NoWords(buf, p, []);
    PeekAt(buf, p, "(");
    NoRedirs(buf, p);
    c := Exec(spans);
    assert Wrap(c, []) == c;
    PipeAlone(buf, p, e, c);
    LineAlone(buf, p, e, c);
  }

  /** From `p` to `e` stands a parenthesised command, which parses to `c`. */
  ghost predicate ParenAt(buf: string, p: nat, e: nat, c: Cmd) {
    && NextIs(buf, p, '(') && NonBlank(buf, p + 1) && p + 2 <= e <= |buf|
    && ParseLine(buf, p + 1) == Parsed(c, e - 1) && NextIs(buf, e - 1, ')')
  }

  lemma PipeParse(buf: string, p: nat, e1: nat, e2: nat, cl: Cmd, cr: Cmd)
    requires ParenAt(buf, p, e1, cl) && NextIs(buf, e1, '|') && ParenAt(buf, e1 + 1, e2, cr) && Closed(buf, e2)
    ensures ParseLine(buf, p) == Parsed(Pipe(cl, cr), e2)
  {
    hide ParseLine, ParseExec, Skip, Peek, GetToken;
    BlockAlone(buf, p, e1, cl);
    BlockAlone(buf, e1 + 1, e2, cr);
    PipeAlone(buf, e1 + 1, e2, cr);
    PeekAt(buf, e1, "|");
    SymToken(buf, e1);
    LineAlone(buf, p, e2, Pipe(cl, cr));
  }

  lemma ListParse(buf: string, p: nat, e1: nat, e2: nat, cl: Cmd, cr: Cmd)
    requires ParenAt(buf, p, e1, cl) && NextIs(buf, e1, ';') && ParenAt(buf, e1 + 1, e2, cr) && Closed(buf, e2)
    ensures ParseLine(buf, p) == Parsed(List(cl, cr), e2)
  {
    hide ParsePipe, ParseExec, ParseBacks, Skip, Peek, GetToken;
    BlockAlone(buf, p, e1, cl);
    PipeAlone(buf, p, e1, cl);
    NoBacks(buf, e1, cl);
    PeekAt(buf, e1, ";");
    SymToken(buf, e1);
    BlockAlone(buf, e1 + 1, e2, cr);
    PipeAlone(buf, e1 + 1, e2, cr);
    LineAlone(buf, e1 + 1, e2, cr);
  }

  lemma BackParse(buf: string, p: nat, e1: nat, c: Cmd)
    requires ParenAt(buf, p, e1, c) && NextIs(buf, e1, '&') && Closed(buf, e1 + 1)
    ensures ParseLine(buf, p) == Parsed(Back(c), e1 + 1)
  {
    hide ParsePipe, ParseExec, Skip, Peek, GetToken;
    BlockAlone(buf, p, e1, c);
    PipeAlone(buf, p, e1, c);
    OneBack(buf, e1, c);
    PeekAt(buf, e1 + 1, ";");
  }

  lemma OneBack(buf: string, e: nat, c: Cmd)
    requires NextIs(buf, e, '&') && Closed(buf, e + 1)
    ensures ParseBacks(buf, e, c) == Parsed(Back(c), e + 1)
  {
    hide Skip, Peek, GetToken;
    PeekAt(buf, e, "&");
    SymToken(buf, e);
    NoBacks(buf, e + 1, Back(c));
  }

  lemma RedirParse(buf: string, p: nat, e1: nat, e2: nat, m: Mode, c: Cmd)
    requires ParenAt(buf, p, e1, c) && NextIs(buf, e1, if m == Input then '<' else '>') && e1 + 1 < e2 <= |buf|
             && Closed(buf, e2)
    requires forall i :: e1 + 1 <= i < e2 ==> WordChar(buf[i])
    ensures ParseLine(buf, p) == Parsed(Redir(c, Redirection(Span(e1 + 1, e2), m)), e2)
  {
    hide ParseLine, ParseExec, ParseRedirs, Skip, Peek, GetToken, Wrap;
    var r := Redirection(Span(e1 + 1, e2), m);
    OneRedir(buf, e1, e2, m);
    Blocked(buf, p, e1, c);
    WrapOne(c, r);
    PipeAlone(buf, p, e2, Redir(c, r));
    LineAlone(buf, p, e2, Redir(c, r));
  }

  lemma WrapOne(c: Cmd, r: Redirection)
    ensures Wrap(c, [r]) == Redir(c, r)
  {
    assert [r][..0] == [];
    assert Wrap(c, []) == c;
  }

  lemma OneRedir(buf: string, e1: nat, e2: nat, m: Mode)
    requires NextIs(buf, e1, if m == Input then '<' else '>') && e1 + 1 < e2 <= |buf| && Closed(buf, e2)
    requires forall i :: e1 + 1 <= i < e2 ==> WordChar(buf[i])
    ensures ParseRedirs(buf, e1, []) == Redirs([Redirection(Span(e1 + 1, e2), m)], e2)
  {
    hide Skip, Peek, GetToken;
    assert WordChar(buf[e1 + 1]);
    PeekAt(buf, e1, "<>");
    SymToken(buf, e1);
    WordToken(buf, e1 + 1, e2, e2);
    var rs := [Redirection(Span(e1 + 1, e2), m)];
    PeekAt(buf, e2, "<>");
    assert [] + rs == rs;
    assert ParseRedirs(buf, e2, rs) == Redirs(rs, e2);
  }

  // ---- Placing a printed command in the line ----

  /** What parseline makes of a printed command. */
  ghost predicate InnerOk(buf: string, p: nat, t: Tree, c: Cmd) {
    p <= |buf| && ParseLine(buf, p) == Parsed(c, p + |Print(t)|) && TreeOf(buf, c) == t
  }

  lemma ParenIs(buf: string, p: nat, t: Tree, c: Cmd)
    requires At(buf, p, Paren(t)) && Good(t) && InnerOk(buf, p + 1, t, c)
    ensures ParenAt(buf, p, p + |Paren(t)|, c)
  {
    hide ParseLine, Print, Paren;
    Inside(buf, p, t);
  }

  lemma SymbolAt(buf: string, p: nat, s: string, op: string, rest: string)
    requires |op| == 1 && At(buf, p, s + op + rest)
    ensures At(buf, p, s) && NextIs(buf, p + |s|, op[0]) && At(buf, p + |s| + 1, rest)
  {
    AtSplit(buf, p, s + op, rest);
    AtSplit(buf, p, s, op);
    AtIndex(buf, p + |s|, op);
  }

  lemma Layout(t: Tree)
    ensures t.TRedir? ==> Print(t) == Paren(t.cmd) + (if t.mode == Input then "<" else ">") + t.file
    ensures t.TPipe? ==> Print(t) == Paren(t.left) + "|" + Paren(t.right)
    ensures t.TList? ==> Print(t) == Paren(t.left) + ";" + Paren(t.right)
    ensures t.TBack? ==> Print(t) == Paren(t.cmd) + "&" + ""
    ensures t.TExec? ==> Print(t) == Words(t.args)
  {
    hide Paren, Words;
  }

  lemma Facts(t: Tree)
    requires Good(t)
    ensures t.TRedir? ==> Good(t.cmd) && GoodWord(t.file)
    ensures t.TPipe? ==> Good(t.left) && Good(t.right)
    ensures t.TList? ==> Good(t.left) && Good(t.right)
    ensures t.TBack? ==> Good(t.cmd)
  {}

  function Size(t: Tree): nat {
    match t
    case TExec(_) => 0
    case TRedir(c, _, _) => 1 + Size(c)
    case TPipe(l, r) => 1 + Size(l) + Size(r)
    case TList(l, r) => 1 + Size(l) + Size(r)
    case TBack(c) => 1 + Size(c)
  }

  /** Parsing a printed command gives the command, wherever it stands. */
  lemma {:induction false} PrintParse(buf: string, p: nat, t: Tree) returns (c: Cmd)
    requires Good(t) && At(buf, p, Print(t)) && Closed(buf, p + |Print(t)|)
    ensures InnerOk(buf, p, t, c)
    decreases Size(t), 1
  {
    hide Print, Paren, ParseLine, ParenAt, Good, GoodWord, At, Words;
    Layout(t);
    Facts(t);
    AtBound(buf, p, Print(t));
    match t {
      case TExec(args) => c := ExecParse(buf, p, args);
      case TRedir(s, f, m) => c := RedirTree(buf, p, s, f, m);
      case TPipe(l, r) =>
        var cl, cr, e1 := TwoTrees(buf, p, l, r, "|");
        PipeParse(buf, p, e1, p + |Print(t)|, cl, cr);
        c := Pipe(cl, cr);
      case TList(l, r) =>
        var cl, cr, e1 := TwoTrees(buf, p, l, r, ";");
        ListParse(buf, p, e1, p + |Print(t)|, cl, cr);
        c := List(cl, cr);
      case TBack(s) =>
        SymbolAt(buf, p, Paren(s), "&", "");
        var inner := ParenTree(buf, p, s);
        BackParse(buf, p, p + |Paren(s)|, inner);
        c := Back(inner);
    }
  }

  /** A parenthesised command in the line. */
  lemma {:induction false} ParenTree(buf: string, p: nat, t: Tree) returns (c: Cmd)
    requires Good(t) && At(buf, p, Paren(t))
    ensures ParenAt(buf, p, p + |Paren(t)|, c) && TreeOf(buf, c) == t
    decreases Size(t), 2
  {
    hide Print, Paren, ParseLine, ParenAt, Good, At;
    Inside(buf, p, t);
    c := PrintParse(buf, p + 1, t);
    ParenIs(buf, p, t, c);
  }

  lemma {:induction false} TwoTrees(buf: string, p: nat, l: Tree, r: Tree, op: string)
      returns (cl: Cmd, cr: Cmd, e1: nat)
    requires Good(l) && Good(r) && |op| == 1 && At(buf, p, Paren(l) + op + Paren(r))
    ensures e1 == p + |Paren(l)| && NextIs(buf, e1, op[0]) && ParenAt(buf, p, e1, cl)
            && ParenAt(buf, e1 + 1, e1 + 1 + |Paren(r)|, cr)
    ensures TreeOf(buf, cl) == l && TreeOf(buf, cr) == r
    decreases 1 + Size(l) + Size(r), 0
  {
    hide Print, Paren, ParseLine, ParenAt, Good, At;
    e1 := p + |Paren(l)|;
    SymbolAt(buf, p, Paren(l), op, Paren(r));
    cl := ParenTree(buf, p, l);
    cr := ParenTree(buf, e1 + 1, r);
  }

  lemma {:induction false} RedirTree(buf: string, p: nat, t: Tree, f: string, m: Mode) returns (c: Cmd)
    requires Good(t) && GoodWord(f) && At(buf, p, Print(TRedir(t, f, m))) && Closed(buf, p + |Print(TRedir(t, f, m))|)
    ensures InnerOk(buf, p, TRedir(t, f, m), c)
    decreases 1 + Size(t), 0
  {
    hide Print, Paren, ParseLine, ParenAt, Good;
    Layout(TRedir(t, f, m));
    var op := if m == Input then "<" else ">";
    var e1 := p + |Paren(t)|;
    SymbolAt(buf, p, Paren(t), op, f);
    var inner := ParenTree(buf, p, t);
    AtIndex(buf, e1 + 1, f);
    RedirParse(buf, p, e1, e1 + 1 + |f|, m, inner);
    c := Redir(inner, Redirection(Span(e1 + 1, e1 + 1 + |f|), m));
  }

  /** parsecmd undoes printing, for every tree of good words. */
  lemma RoundTrip(t: Tree)
    requires Good(t)
    ensures ParseCmd(Print(t)).Parsed? && TreeOf(Print(t), ParseCmd(Print(t)).cmd) == t
  {
    hide Print, ParseLine, Good;
    var buf := Print(t);
    assert buf[0..0 + |buf|] == buf;
    var c := PrintParse(buf, 0, t);
    PeekAt(buf, |buf|, "");
  }
}
