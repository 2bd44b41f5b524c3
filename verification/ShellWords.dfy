/** nulterminate: every word of a parsed command becomes a string of its own. */
module ShellWords {
  import opened Shell

  const NUL: char := '\0'

  // ---- The words of a command ----

  ghost predicate WordSpans(buf: string, args: seq<Span>) { forall i :: 0 <= i < |args| ==> IsWord(buf, args[i]) }

  ghost predicate WordFiles(buf: string, rs: seq<Redirection>) { forall i :: 0 <= i < |rs| ==> IsWord(buf, rs[i].file) }

  /** Every span in the command is a whole word of the line. */
  ghost predicate AllWords(buf: string, cmd: Cmd) {
    match cmd
    case Exec(args) => WordSpans(buf, args)
    case Redir(c, r) => AllWords(buf, c) && IsWord(buf, r.file)
    case Pipe(l, r) => AllWords(buf, l) && AllWords(buf, r)
    case List(l, r) => AllWords(buf, l) && AllWords(buf, r)
    case Back(c) => AllWords(buf, c)
  }

  lemma {:induction false} RedirsWords(buf: string, p: nat, rs: seq<Redirection>)
    requires p <= |buf| && WordFiles(buf, rs)
    ensures ParseRedirs(buf, p, rs).Redirs? ==> WordFiles(buf, ParseRedirs(buf, p, rs).rs)
    decreases |buf| - p
  {
    hide Skip, IsWord;
    if Peek(buf, p, "<>") {
      var t := GetToken(buf, Skip(buf, p));
      var f := GetToken(buf, t.next);
      if f.tok == Word {
        var more := rs + [Redirection(f.at, if t.tok == Sym('<') then Input else Output)];
        hide GetToken;
        RedirsWords(buf, f.next, more);
      }
    }
  }

  lemma {:induction false} WrapWords(buf: string, cmd: Cmd, rs: seq<Redirection>)
    requires AllWords(buf, cmd) && WordFiles(buf, rs)
    ensures AllWords(buf, Wrap(cmd, rs))
    decreases |rs|
  {
    hide IsWord;
    if rs != [] { WrapWords(buf, cmd, rs[..|rs| - 1]); }
  }

  lemma {:induction false} ArgsWords(buf: string, p: nat, args: seq<Span>, rs: seq<Redirection>)
    requires p <= |buf| && WordSpans(buf, args) && WordFiles(buf, rs)
    ensures var r := ParseArgs(buf, p, args, rs); r.Args? ==> WordSpans(buf, r.args) && WordFiles(buf, r.rs)
    decreases |buf| - p
  {
    hide Skip, IsWord, ParseRedirs;
    if !Peek(buf, p, "|)&;") {
      var t := GetToken(buf, Skip(buf, p));
      if t.tok == Word && |args| + 1 < MAXARGS {
        hide GetToken, Peek;
        RedirsWords(buf, t.next, rs);
        var r := ParseRedirs(buf, t.next, rs);
        if r.Redirs? { ArgsWords(buf, r.pos, args + [t.at], r.rs); }
      }
    }
  }

  /** Whatever the line, every span parseline stores is a whole word. */
  lemma {:induction false} LineWords(buf: string, p: nat)
    requires p <= |buf|
    ensures ParseLine(buf, p).Parsed? ==> AllWords(buf, ParseLine(buf, p).cmd)
    decreases |buf| - p, 3
  {
    PipeWords(buf, p);
    var r := ParsePipe(buf, p);
    if r.Parsed? {
      hide Skip, Peek, GetToken, ParsePipe, IsWord;
      BacksWords(buf, r.pos, r.cmd);
      var b := ParseBacks(buf, r.pos, r.cmd);
      if Peek(buf, b.pos, ";") {
        SymbolNext(buf, b.pos, ";");
        LineWords(buf, GetToken(buf, b.pos).next);
      }
    }
  }

  lemma SymbolNext(buf: string, p: nat, toks: string)
    requires p <= |buf| && Peek(buf, p, toks)
    ensures p < GetToken(buf, p).next <= |buf|
  {}

  lemma {:induction false} BacksWords(buf: string, p: nat, cmd: Cmd)
    requires p <= |buf| && AllWords(buf, cmd)
    ensures AllWords(buf, ParseBacks(buf, p, cmd).cmd)
    decreases |buf| - p
  {
    hide Skip, Peek, GetToken, IsWord;
    if Peek(buf, p, "&") {
      SymbolNext(buf, p, "&");
      BacksWords(buf, GetToken(buf, p).next, Back(cmd));
    }
  }

  lemma {:induction false} PipeWords(buf: string, p: nat)
    requires p <= |buf|
    ensures ParsePipe(buf, p).Parsed? ==> AllWords(buf, ParsePipe(buf, p).cmd)
    decreases |buf| - p, 2
  {
    hide Skip, Peek, GetToken, IsWord, ParseExec;
    ExecWords(buf, p);
    var r := ParseExec(buf, p);
    if r.Parsed? && Peek(buf, r.pos, "|") {
      SymbolNext(buf, r.pos, "|");
      PipeWords(buf, GetToken(buf, r.pos).next);
    }
  }

  lemma {:induction false} ExecWords(buf: string, p: nat)
    requires p <= |buf|
    ensures ParseExec(buf, p).Parsed? ==> AllWords(buf, ParseExec(buf, p).cmd)
    decreases |buf| - p, 1
  {
    hide Skip, Peek, GetToken, IsWord, ParseRedirs, ParseArgs, ParseBlock, Wrap;
    if Peek(buf, p, "(") {
      BlockStart(buf, p);
      BlockWords(buf, Skip(buf, p));
    } else {
      RedirsWords(buf, p, []);
      var r := ParseRedirs(buf, p, []);
      if r.Redirs? {
        ArgsWords(buf, r.pos, [], r.rs);
        var a := ParseArgs(buf, r.pos, [], r.rs);
        if a.Args? { WrapWords(buf, Exec(a.args), a.rs); }
      }
    }
  }

  lemma BlockStart(buf: string, p: nat)
    requires p <= |buf| && Peek(buf, p, "(")
    ensures p <= Skip(buf, p) <= |buf| && Peek(buf, Skip(buf, p), "(")
  {
    assert Skip(buf, Skip(buf, p)) == Skip(buf, p);
  }

  lemma {:induction false} BlockWords(buf: string, p: nat)
    requires p <= |buf| && Peek(buf, p, "(")
    ensures ParseBlock(buf, p).Parsed? ==> AllWords(buf, ParseBlock(buf, p).cmd)
    decreases |buf| - p, 0
  {
    hide Skip, Peek, GetToken, IsWord, ParseRedirs, ParseLine, Wrap;
    SymbolNext(buf, p, "(");
    LineWords(buf, GetToken(buf, p).next);
    var r := ParseLine(buf, GetToken(buf, p).next);
    if r.Parsed? && Peek(buf, r.pos, ")") {
      SymbolNext(buf, r.pos, ")");
      RedirsWords(buf, GetToken(buf, r.pos).next, []);
      var d := ParseRedirs(buf, GetToken(buf, r.pos).next, []);
      if d.Redirs? { WrapWords(buf, r.cmd, d.rs); }
    }
  }

  // ---- Writing the terminators ----

  /** The places nulterminate writes to. */
  ghost function Ends(cmd: Cmd): set<nat> {
    match cmd
    case Exec(args) => set i | 0 <= i < |args| :: args[i].eq
    case Redir(c, r) => Ends(c) + {r.file.eq}
    case Pipe(l, r) => Ends(l) + Ends(r)
    case List(l, r) => Ends(l) + Ends(r)
    case Back(c) => Ends(c)
  }

  method Nulterminate(line: array<char>, cmd: Cmd)
    requires forall e: nat :: e in Ends(cmd) ==> e < line.Length
    modifies line
    ensures forall i: nat :: i < line.Length ==> line[i] == if i in Ends(cmd) then NUL else old(line[i])
    decreases cmd
  {
    match cmd {
      case Exec(args) =>
        var k := 0;
        while k < |args|
          invariant k <= |args|
          invariant forall i: nat :: i < line.Length ==> line[i] == if exists j ::
                    0 <= j < k && args[j].eq == i then NUL else old(line[i])
        {
          assert args[k].eq in Ends(cmd);
          line[args[k].eq] := NUL;
          k := k + 1;
        }
      case Redir(c, r) =>
        assert Ends(cmd) == Ends(c) + {r.file.eq};
        Nulterminate(line, c);
        line[r.file.eq] := NUL;
      case Pipe(l, r) =>
        assert Ends(cmd) == Ends(l) + Ends(r);
        Nulterminate(line, l);
        Nulterminate(line, r);
      case List(l, r) =>
        assert Ends(cmd) == Ends(l) + Ends(r);
        Nulterminate(line, l);
        Nulterminate(line, r);
      case Back(c) =>
        assert Ends(cmd) == Ends(c);
        Nulterminate(line, c);
    }
  }

  /** The C string at `p`. */
  function CString(s: string, p: nat): string
    decreases |s| - p
  {
    if p < |s| && s[p] != NUL then [s[p]] + CString(s, p + 1) else ""
  }

  lemma {:induction false} EndsNotInWords(buf: string, cmd: Cmd, e: nat)
    requires AllWords(buf, cmd) && e in Ends(cmd)
    ensures e <= |buf| && (e < |buf| ==> !WordChar(buf[e]))
  {
    match cmd {
      case Exec(args) =>
        var i :| 0 <= i < |args| && args[i].eq == e;
        assert IsWord(buf, args[i]);
      case Redir(c, r) => if e in Ends(c) { EndsNotInWords(buf, c, e); }
      case Pipe(l, r) => if e in Ends(l) { EndsNotInWords(buf, l, e); } else { EndsNotInWords(buf, r, e); }
      case List(l, r) => if e in Ends(l) { EndsNotInWords(buf, l, e); } else { EndsNotInWords(buf, r, e); }
      case Back(c) => EndsNotInWords(buf, c, e);
    }
  }

  /** `line` is the input with its terminator, after nulterminate. */
  ghost predicate TerminatedLine(buf: string, cmd: Cmd, line: string) {
    && |line| == |buf| + 1 && (forall i :: 0 <= i < |buf| ==> buf[i] != NUL)
    && forall i: nat :: i < |line| ==> line[i] == if i in Ends(cmd) || i == |buf| then NUL else buf[i]
  }

  lemma {:induction false} WordString(buf: string, cmd: Cmd, line: string, q: nat, e: nat)
    requires AllWords(buf, cmd) && TerminatedLine(buf, cmd, line) && e in Ends(cmd)
    requires q <= e <= |buf| && forall i :: q <= i < e ==> WordChar(buf[i])
    ensures CString(line, q) == buf[q..e]
    decreases e - q
  {
    if q < e {
      if q in Ends(cmd) { EndsNotInWords(buf, cmd, q); }
      WordString(buf, cmd, line, q + 1, e);
      assert buf[q..e] == [buf[q]] + buf[q + 1..e];
    }
  }

  /** A word of the command: an argument, or the file of a redirection. */
  ghost predicate HasWord(cmd: Cmd, at: Span) {
    match cmd
    case Exec(args) => at in args
    case Redir(c, r) => HasWord(c, at) || at == r.file
    case Pipe(l, r) => HasWord(l, at) || HasWord(r, at)
    case List(l, r) => HasWord(l, at) || HasWord(r, at)
    case Back(c) => HasWord(c, at)
  }

  lemma {:induction false} WordIn(buf: string, cmd: Cmd, at: Span)
    requires AllWords(buf, cmd) && HasWord(cmd, at)
    ensures IsWord(buf, at) && at.eq in Ends(cmd)
  {
    match cmd {
      case Exec(args) =>
        var i :| 0 <= i < |args| && args[i] == at;
        assert args[i].eq in Ends(cmd);
      case Redir(c, r) => if HasWord(c, at) { WordIn(buf, c, at); }
      case Pipe(l, r) => if HasWord(l, at) { WordIn(buf, l, at); } else { WordIn(buf, r, at); }
      case List(l, r) => if HasWord(l, at) { WordIn(buf, l, at); } else { WordIn(buf, r, at); }
      case Back(c) => WordIn(buf, c, at);
    }
  }

  /** After parsecmd, the C string at each argument and file name is exactly its word, whatever the
      line was. */
  lemma WordsAreStrings(buf: string, line: string, at: Span)
    requires ParseCmd(buf).Parsed? && TerminatedLine(buf, ParseCmd(buf).cmd, line) && HasWord(ParseCmd(buf).cmd, at)
    ensures at.q < at.eq <= |buf| && CString(line, at.q) == buf[at.q..at.eq]
  {
    var cmd := ParseCmd(buf).cmd;
    LineWords(buf, 0);
    hide ParseCmd, ParseLine;
    WordIn(buf, cmd, at);
    WordString(buf, cmd, line, at.q, at.eq);
  }
}
