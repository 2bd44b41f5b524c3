/** The shell's grammar as sh.c parses it: tokens as positions in the input line, and the parsing
    functions from one position to the next. */
module Shell {
  const MAXARGS: nat := 10

  predicate Blank(c: char) { c == ' ' || c == '\t' || c == '\r' || c == '\n' || c == '\U{B}' }

  predicate Symbol(c: char) { c == '<' || c == '|' || c == '>' || c == '&' || c == ';' || c == '(' || c == ')' }

  predicate WordChar(c: char) { !Blank(c) && !Symbol(c) }

  /** A piece of the line, as the pointers q and eq. */
  datatype Span = Span(q: nat, eq: nat)

  /** O_RDONLY on 0, or O_WRONLY|O_CREATE on 1; sh.c treats > and >> alike. */
  datatype Mode = Input | Output

  datatype Redirection = Redirection(file: Span, mode: Mode)

  datatype Cmd = Exec(args: seq<Span>) | Redir(cmd: Cmd, r: Redirection) | Pipe(left: Cmd,
      right: Cmd) | List(left: Cmd, right: Cmd) | Back(cmd: Cmd)

  datatype Panic = MissingFile | MissingParen | SyntaxError | TooManyArgs

  // ---- Tokens ----

  function Skip(buf: string, p: nat): (s: nat)
    requires p <= |buf|
    ensures p <= s <= |buf| && (s < |buf| ==> !Blank(buf[s])) && forall i :: p <= i < s ==> Blank(buf[i])
    decreases |buf| - p
  {
    if p < |buf| && Blank(buf[p]) then Skip(buf, p + 1) else p
  }

  function WordEnd(buf: string, p: nat): (s: nat)
    requires p <= |buf|
    ensures p <= s <= |buf| && (s < |buf| ==> !WordChar(buf[s])) && forall i :: p <= i < s ==> WordChar(buf[i])
    decreases |buf| - p
  {
    if p < |buf| && WordChar(buf[p]) then WordEnd(buf, p + 1) else p
  }

  datatype Token = EndToken | Sym(c: char) | Append | Word

  /** gettoken's result, the token's place, and the position after it and the blanks that follow. */
  datatype Scan = Scan(tok: Token, at: Span, next: nat)

  predicate IsWord(buf: string, at: Span) {
    && at.q < at.eq <= |buf| && (at.eq < |buf| ==> !WordChar(buf[at.eq]))
    && forall i :: at.q <= i < at.eq ==> WordChar(buf[i])
  }

  function GetToken(buf: string, p: nat): (r: Scan)
    requires p <= |buf|
    ensures p <= r.next <= |buf| && (r.tok != EndToken ==> p < r.next) && (r.tok == Word ==> IsWord(buf, r.at))
  {
    var s := Skip(buf, p);
    if s == |buf| then Scan(EndToken, Span(s, s), s)
    else if buf[s] == '>' && s + 1 < |buf| && buf[s + 1] == '>' then Scan(Append, Span(s, s + 2), Skip(buf, s + 2))
    else if Symbol(buf[s]) then Scan(Sym(buf[s]), Span(s, s + 1), Skip(buf, s + 1))
    else var e := WordEnd(buf, s); Scan(Word, Span(s, e), Skip(buf, e))
  }

  /** peek: the next character that is not blank is one of `toks`. */
  predicate Peek(buf: string, p: nat, toks: string)
    requires p <= |buf|
  {
    var s := Skip(buf, p);
    s < |buf| && buf[s] in toks
  }

  // ---- Redirections and words ----

  datatype Redirs = Redirs(rs: seq<Redirection>, pos: nat) | RedirsFail(why: Panic)

  /** parseredirs, collecting the redirections in order. */
  function ParseRedirs(buf: string, p: nat, rs: seq<Redirection>): (r: Redirs)
    requires p <= |buf|
    ensures r.Redirs? ==> p <= r.pos <= |buf|
    decreases |buf| - p
  {
    var s := Skip(buf, p);
    if !Peek(buf, p, "<>") then Redirs(rs, s)
    else
      var t := GetToken(buf, s);
      var f := GetToken(buf, t.next);
      if f.tok != Word then RedirsFail(MissingFile)
      else ParseRedirs(buf, f.next, rs + [Redirection(f.at, if t.tok == Sym('<') then Input else Output)])
  }

  /** Each redirection wraps the command and those before it. */
  function Wrap(cmd: Cmd, rs: seq<Redirection>): Cmd
    decreases |rs|
  {
    if rs == [] then cmd else Redir(Wrap(cmd, rs[..|rs| - 1]), rs[|rs| - 1])
  }

  datatype Args = Args(args: seq<Span>, rs: seq<Redirection>, pos: nat) | ArgsFail(why: Panic)

  /** parseexec's loop. */
  function ParseArgs(buf: string, p: nat, args: seq<Span>, rs: seq<Redirection>): (r: Args)
    requires p <= |buf|
    ensures r.Args? ==> p <= r.pos <= |buf|
    decreases |buf| - p
  {
    var s := Skip(buf, p);
    if Peek(buf, p, "|)&;") then Args(args, rs, s)
    else
      var t := GetToken(buf, s);
      if t.tok == EndToken then Args(args, rs, t.next)
      else if t.tok != Word then ArgsFail(SyntaxError)
      else if |args| + 1 >= MAXARGS then ArgsFail(TooManyArgs)
      else
        match ParseRedirs(buf, t.next, rs)
        case RedirsFail(why) => ArgsFail(why)
        case Redirs(rs', pos) => ParseArgs(buf, pos, args + [t.at], rs')
  }

  // ---- Commands ----

  datatype Parsed = Parsed(cmd: Cmd, pos: nat) | ParseFail(why: Panic)

  function ParseLine(buf: string, p: nat): (r: Parsed)
    requires p <= |buf|
    ensures r.Parsed? ==> p <= r.pos <= |buf|
    decreases |buf| - p, 3
  {
    match ParsePipe(buf, p)
    case ParseFail(why) => ParseFail(why)
    case Parsed(cmd, pos) =>
      var Parsed(cmd', pos') := ParseBacks(buf, pos, cmd);
      if Peek(buf, pos', ";") then
        match ParseLine(buf, GetToken(buf, pos').next)
        case ParseFail(why) => ParseFail(why)
        case Parsed(rest, end) => Parsed(List(cmd', rest), end)
      else Parsed(cmd', Skip(buf, pos'))
  }

  /** parseline's loop over '&'. */
  function ParseBacks(buf: string, p: nat, cmd: Cmd): (r: Parsed)
    requires p <= |buf|
    ensures r.Parsed? && p <= r.pos <= |buf|
    decreases |buf| - p
  {
    if Peek(buf, p, "&") then ParseBacks(buf, GetToken(buf, p).next, Back(cmd)) else Parsed(cmd, Skip(buf, p))
  }

  function ParsePipe(buf: string, p: nat): (r: Parsed)
    requires p <= |buf|
    ensures r.Parsed? ==> p <= r.pos <= |buf|
    decreases |buf| - p, 2
  {
    match ParseExec(buf, p)
    case ParseFail(why) => ParseFail(why)
    case Parsed(cmd, pos) =>
      if Peek(buf, pos, "|") then
        match ParsePipe(buf, GetToken(buf, pos).next)
        case ParseFail(why) => ParseFail(why)
        case Parsed(rest, end) => Parsed(Pipe(cmd, rest), end)
      else Parsed(cmd, Skip(buf, pos))
  }

  function ParseExec(buf: string, p: nat): (r: Parsed)
    requires p <= |buf|
    ensures r.Parsed? ==> p <= r.pos <= |buf|
    decreases |buf| - p, 1
  {
    if Peek(buf, p, "(") then ParseBlock(buf, Skip(buf, p))
    else
      match ParseRedirs(buf, p, [])
      case RedirsFail(why) => ParseFail(why)
      case Redirs(rs, pos) =>
        match ParseArgs(buf, pos, [], rs)
        case ArgsFail(why) => ParseFail(why)
        case Args(args, rs', end) => Parsed(Wrap(Exec(args), rs'), end)
  }

  function ParseBlock(buf: string, p: nat): (r: Parsed)
    requires p <= |buf| && Peek(buf, p, "(")
    ensures r.Parsed? ==> p <= r.pos <= |buf|
    decreases |buf| - p, 0
  {
    match ParseLine(buf, GetToken(buf, p).next)
    case ParseFail(why) => ParseFail(why)
    case Parsed(cmd, pos) =>
      if !Peek(buf, pos, ")") then ParseFail(MissingParen)
      else
        match ParseRedirs(buf, GetToken(buf, pos).next, [])
        case RedirsFail(why) => ParseFail(why)
        case Redirs(rs, end) => Parsed(Wrap(cmd, rs), end)
  }

  /** parsecmd: the whole line must be used up. */
  function ParseCmd(buf: string): (r: Parsed) {
    match ParseLine(buf, 0)
    case ParseFail(why) => ParseFail(why)
    case Parsed(cmd, pos) => if Skip(buf, pos) != |buf| then ParseFail(SyntaxError) else Parsed(cmd, |buf|)
  }
}
