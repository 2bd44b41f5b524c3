/** sh.c's parser as code: a cursor moving through the line, and nulterminate writing into it. */
module ShellCode {
  import opened Shell
  import opened ShellWords

  datatype Outcome = Command(cmd: Cmd) | Panicked(why: Panic)

  /** A method's outcome and final cursor against the parsing functions. */
  predicate Agrees(r: Outcome, pos: nat, p: Parsed) {
    match p
    case Parsed(cmd, end) => r == Command(cmd) && pos == end
    case ParseFail(why) => r == Panicked(why)
  }

  class Parser {
    const buf: string
    var ps: nat

    constructor (buf: string)
      ensures this.buf == buf && ps == 0
    {
      this.buf := buf;
      ps := 0;
    }

    method SkipBlanks()
      requires ps <= |buf|
      modifies this
      ensures ps == Skip(buf, old(ps))
    {
      while ps < |buf| && Blank(buf[ps])
        invariant old(ps) <= ps <= |buf| && Skip(buf, ps) == Skip(buf, old(ps))
      {
        ps := ps + 1;
      }
    }

    /** gettoken */
    method NextToken() returns (tok: Token, at: Span)
      requires ps <= |buf|
      modifies this
      ensures Scan(tok, at, ps) == GetToken(buf, old(ps))
    {
      SkipBlanks();
      var q := ps;
      if ps == |buf| {
        tok := EndToken;
      } else if buf[ps] == '>' && ps + 1 < |buf| && buf[ps + 1] == '>' {
        tok := Append;
        ps := ps + 2;
      } else if Symbol(buf[ps]) {
        tok := Sym(buf[ps]);
        ps := ps + 1;
      } else {
        tok := Word;
        while ps < |buf| && !Blank(buf[ps]) && !Symbol(buf[ps])
          invariant q <= ps <= |buf| && WordEnd(buf, ps) == WordEnd(buf, q)
        {
          ps := ps + 1;
        }
      }
      at := Span(q, ps);
      SkipBlanks();
    }

    /** peek */
    method LookAhead(toks: string) returns (b: bool)
      requires ps <= |buf|
      modifies this
      ensures b == Peek(buf, old(ps), toks) && ps == Skip(buf, old(ps))
    {
      SkipBlanks();
      b := ps < |buf| && buf[ps] in toks;
    }

    /** parseredirs */
    method RedirList(before: seq<Redirection>) returns (rs: seq<Redirection>, ok: bool)
      requires ps <= |buf|
      modifies this
      ensures ps <= |buf| && old(ps) <= ps
      ensures ParseRedirs(buf, old(ps), before) == if ok then Redirs(rs, ps) else RedirsFail(MissingFile)
    {
      hide Skip, Peek, GetToken;
      rs, ok := before, true;
      var more := LookAhead("<>");
      RedirsFrom(buf, old(ps), before);
      while more
        invariant old(ps) <= ps <= |buf| && ok
        invariant ParseRedirs(buf, old(ps), before) == ParseRedirs(buf, ps, rs)
        invariant Skip(buf, ps) == ps && more == Peek(buf, ps, "<>")
        decreases |buf| - ps, more
      {
        var start := ps;
        var tok, _ := NextToken();
        var f, at := NextToken();
        if f != Word { return rs, false; }
        rs := rs + [Redirection(at, if tok == Sym('<') then Input else Output)];
        RedirsStep(buf, start);
        var here := ps;
        more := LookAhead("<>");
        RedirsFrom(buf, here, rs);
      }
    }

    /** parseexec */
    method ExecCmd() returns (r: Outcome)
      requires ps <= |buf|
      modifies this
      ensures ps <= |buf| && Agrees(r, ps, ParseExec(buf, old(ps)))
      decreases |buf| - ps, 1
    {
      hide Skip, Peek, GetToken, ParseRedirs, ParseArgs, ParseLine, Wrap;
      var block := LookAhead("(");
      if block {
        PeekSame(buf, old(ps), "(");
        r := BlockCmd();
        return;
      }
      var rs, ok := RedirList([]);
      RedirsFrom(buf, old(ps), []);
      if !ok { return Panicked(MissingFile); }
      r := ArgList(rs);
    }

    /** parseexec's loop. */
    method ArgList(before: seq<Redirection>) returns (r: Outcome)
      requires ps <= |buf|
      modifies this
      ensures old(ps) <= ps <= |buf|
      ensures match ParseArgs(buf, old(ps), [], before)
              case ArgsFail(why) => r == Panicked(why)
              case Args(args, rs, end) => r == Command(Wrap(Exec(args), rs)) && ps == end
    {
      hide Skip, Peek, GetToken, ParseRedirs, Wrap;
      var args, rs := [], before;
      var stop := LookAhead("|)&;");
      ArgsFrom(buf, old(ps), args, rs);
      while !stop
        invariant old(ps) <= ps <= |buf| && ParseArgs(buf, old(ps), [], before) == ParseArgs(buf, ps, args, rs)
        invariant Skip(buf, ps) == ps && stop == Peek(buf, ps, "|)&;")
        decreases |buf| - ps, !stop
      {
        var start := ps;
        var tok, at := NextToken();
        TokenMoves(buf, start);
        if tok == EndToken { return Command(Wrap(Exec(args), rs)); }
        if tok != Word { return Panicked(SyntaxError); }
        args := args + [at];
        if |args| >= MAXARGS { return Panicked(TooManyArgs); }
        var more, ok := RedirList(rs);
        if !ok { return Panicked(MissingFile); }
        rs := more;
        var here := ps;
        stop := LookAhead("|)&;");
        ArgsFrom(buf, here, args, rs);
      }
      return Command(Wrap(Exec(args), rs));
    }

    /** parseblock */
    method BlockCmd() returns (r: Outcome)
      requires ps <= |buf| && Peek(buf, ps, "(")
      modifies this
      ensures ps <= |buf| && Agrees(r, ps, ParseBlock(buf, old(ps)))
      decreases |buf| - ps, 0
    {
      hide Skip, Peek, GetToken, ParseRedirs, ParseLine, Wrap;
      TokenMoves(buf, ps);
      PeekToken(buf, ps, "(");
      var _, _ := NextToken();
      r := LineCmd();
      if r.Panicked? { return; }
      var here := ps;
      var close := LookAhead(")");
      if !close { return Panicked(MissingParen); }
      TokenFrom(buf, here);
      var _, _ := NextToken();
      var rs, ok := RedirList([]);
      if !ok { return Panicked(MissingFile); }
      return Command(Wrap(r.cmd, rs));
    }

    /** parsepipe */
    method PipeCmd() returns (r: Outcome)
      requires ps <= |buf|
      modifies this
      ensures ps <= |buf| && Agrees(r, ps, ParsePipe(buf, old(ps)))
      decreases |buf| - ps, 2
    {
      hide Skip, Peek, GetToken, ParseExec;
      r := ExecCmd();
      if r.Panicked? { return; }
      var here := ps;
      var bar := LookAhead("|");
      if bar {
        TokenFrom(buf, here);
        PeekToken(buf, here, "|");
        TokenMoves(buf, here);
        var _, _ := NextToken();
        var rest := PipeCmd();
        if rest.Panicked? { return rest; }
        r := Command(Pipe(r.cmd, rest.cmd));
      }
    }

    /** parseline's loop over '&'. */
    method BackList(c: Cmd) returns (cmd: Cmd)
      requires ps <= |buf|
      modifies this
      ensures old(ps) <= ps <= |buf| && Parsed(cmd, ps) == ParseBacks(buf, old(ps), c)
    {
      hide Skip, Peek, GetToken;
      cmd := c;
      var here := ps;
      var more := LookAhead("&");
      while more
        invariant old(ps) <= here <= ps <= |buf| && ParseBacks(buf, old(ps), c) == ParseBacks(buf, here, cmd)
        invariant ps == Skip(buf, here) && more == Peek(buf, here, "&")
        decreases |buf| - here, more
      {
        TokenFrom(buf, here);
        PeekToken(buf, here, "&");
        TokenMoves(buf, here);
        var _, _ := NextToken();
        cmd := Back(cmd);
        here := ps;
        more := LookAhead("&");
      }
    }

    /** parseline */
    method LineCmd() returns (r: Outcome)
      requires ps <= |buf|
      modifies this
      ensures ps <= |buf| && Agrees(r, ps, ParseLine(buf, old(ps)))
      decreases |buf| - ps, 3
    {
      hide Skip, Peek, GetToken, ParsePipe, ParseBacks;
      r := PipeCmd();
      if r.Panicked? { return; }
      var cmd := BackList(r.cmd);
      var here := ps;
      var semi := LookAhead(";");
      r := Command(cmd);
      if semi {
        TokenFrom(buf, here);
        PeekToken(buf, here, ";");
        TokenMoves(buf, here);
        var _, _ := NextToken();
        var rest := LineCmd();
        if rest.Panicked? { return rest; }
        r := Command(List(cmd, rest.cmd));
      }
    }

    /** parsecmd, up to nulterminate. */
    method WholeCmd() returns (r: Outcome)
      requires ps == 0
      modifies this
      ensures Agrees(r, ps, ParseCmd(buf))
    {
      hide Skip, ParseLine;
      r := LineCmd();
      if r.Panicked? { return; }
      var _ := LookAhead("");
      if ps != |buf| { return Panicked(SyntaxError); }
    }
  }

  /** parsecmd on a C string: parse it, then terminate its words in place. */
  method Parsecmd(line: array<char>) returns (r: Outcome)
    requires line.Length > 0 && line[line.Length - 1] == NUL && forall i :: 0 <= i < line.Length - 1 ==> line[i] != NUL
    modifies line
    ensures var buf := old(line[..line.Length - 1]);
            && Agrees(r, |buf|, ParseCmd(buf)) && (r.Command? ==> TerminatedLine(buf, r.cmd, line[..]))
  {
    hide ParseCmd, Ends;
    var buf := line[..line.Length - 1];
    var parser := new Parser(buf);
    r := parser.WholeCmd();
    if r.Panicked? { return; }
    EndsInLine(buf, r.cmd);
    Nulterminate(line, r.cmd);
  }

  lemma EndsInLine(buf: string, cmd: Cmd)
    requires ParseCmd(buf).Parsed? && ParseCmd(buf).cmd == cmd
    ensures ParseCmd(buf).pos == |buf| && forall e: nat :: e in Ends(cmd) ==> e <= |buf|
  {
    LineWords(buf, 0);
    hide ParseLine;
    forall e: nat | e in Ends(cmd) ensures e <= |buf| { EndsNotInWords(buf, cmd, e); }
  }

  // ---- Skipping blanks first changes nothing ----

  lemma SkipTwice(buf: string, p: nat)
    requires p <= |buf|
    ensures Skip(buf, Skip(buf, p)) == Skip(buf, p)
  {}

  lemma PeekSame(buf: string, p: nat, toks: string)
    requires p <= |buf|
    ensures Peek(buf, Skip(buf, p), toks) == Peek(buf, p, toks) && Skip(buf, Skip(buf, p)) == Skip(buf, p)
  {
    SkipTwice(buf, p);
  }

  lemma TokenFrom(buf: string, p: nat)
    requires p <= |buf|
    ensures GetToken(buf, Skip(buf, p)) == GetToken(buf, p) && p <= Skip(buf, p) <= |buf|
  {
    SkipTwice(buf, p);
  }

  lemma PeekToken(buf: string, p: nat, toks: string)
    requires p <= |buf| && Peek(buf, p, toks)
    ensures GetToken(buf, p).tok != EndToken
  {}

  lemma TokenMoves(buf: string, p: nat)
    requires p <= |buf|
    ensures p <= GetToken(buf, p).next <= |buf| && (GetToken(buf, p).tok != EndToken ==> p < GetToken(buf, p).next)
  {}

  lemma RedirsFrom(buf: string, p: nat, rs: seq<Redirection>)
    requires p <= |buf|
    ensures p <= Skip(buf, p) <= |buf| && Skip(buf, Skip(buf, p)) == Skip(buf, p)
            && Peek(buf, Skip(buf, p), "<>") == Peek(buf, p, "<>")
    ensures ParseRedirs(buf, Skip(buf, p), rs) == ParseRedirs(buf, p, rs)
  {
    PeekSame(buf, p, "<>");
  }

  lemma RedirsStep(buf: string, p: nat)
    requires p <= |buf| && Peek(buf, p, "<>")
    ensures p < GetToken(buf, p).next <= |buf|
            && GetToken(buf, p).next <= GetToken(buf, GetToken(buf, p).next).next <= |buf|
  {}

  lemma ArgsFrom(buf: string, p: nat, args: seq<Span>, rs: seq<Redirection>)
    requires p <= |buf|
    ensures p <= Skip(buf, p) <= |buf| && Skip(buf, Skip(buf, p)) == Skip(buf, p)
            && Peek(buf, Skip(buf, p), "|)&;") == Peek(buf, p, "|)&;")
    ensures ParseArgs(buf, Skip(buf, p), args, rs) == ParseArgs(buf, p, args, rs)
  {
    PeekSame(buf, p, "|)&;");
  }
}
