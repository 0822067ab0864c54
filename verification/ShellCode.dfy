/** gettoken(), peek() and the parse functions of user/sh.c with their loops, against the
    functions of module Shell.  None stands for a panic. */
module ShellCode {
  import opened Options
  import opened Shell
  import opened ShellTokens
  import opened ShellGrammar

  /** The loops over white space. */
  method SkipSpace(t: string, pos: nat) returns (s: nat)
    requires pos <= |t|
    ensures s == Skip(t, pos)
  {
    s := pos;
    while s < |t| && IsSpace(t[s])
      invariant s <= |t| && Skip(t, pos) == Skip(t, s)
    {
      s := s + 1;
    }
  }

  method Gettoken(t: string, pos: nat) returns (r: Lex)
    requires pos <= |t| && IsText(t)
    ensures r == GetToken(t, pos) && Lexed(t, pos, r)
  {
    hide Lexed;
    var s := SkipSpace(t, pos);
    var q, tok := s, Eof;
    match At(t, s) {
    case '\0' =>
    case '|' => s, tok := s + 1, Sym('|');
    case '(' => s, tok := s + 1, Sym('(');
    case ')' => s, tok := s + 1, Sym(')');
    case ';' => s, tok := s + 1, Sym(';');
    case '&' => s, tok := s + 1, Sym('&');
    case '<' => s, tok := s + 1, Sym('<');
    case '>' =>
      s, tok := s + 1, Sym('>');
      if At(t, s) == '>' {
        s, tok := s + 1, More;
      }
    case _ =>
      tok := Word;
      while s < |t| && !IsSpace(t[s]) && !IsSymbol(t[s])
        invariant s <= |t| && WordEnd(t, q) == WordEnd(t, s)
      {
        s := s + 1;
      }
    }
    var e := s;
    s := SkipSpace(t, s);
    r := Lex(tok, Span(q, e), s);
    GetTokenLexed(t, pos);
  }

  method PeekAt(t: string, pos: nat, toks: set<char>) returns (found: bool, s: nat)
    requires pos <= |t|
    ensures s == Skip(t, pos) && found == Peek(t, pos, toks)
  {
    s := SkipSpace(t, pos);
    found := At(t, s) != NUL && At(t, s) in toks;
  }

  /** The command with the redirections at pos applied to it. */
  ghost function RedirsOn(t: string, pos: nat, c: Cmd<Span>): Option<Parsed>
    requires pos <= |t| && IsText(t)
  {
    match ParseRedirs(t, pos)
    case None => None
    case Some(r) => Some(Parsed(Apply(c, r.rs), r.pos))
  }

  /** Spaces in front do not matter to the parser. */
  lemma SkipTwice(t: string, pos: nat)
    requires pos <= |t| && IsText(t)
    ensures Skip(t, Skip(t, pos)) == Skip(t, pos) && GetToken(t, Skip(t, pos)) == GetToken(t, pos)
    ensures ParseRedirs(t, Skip(t, pos)) == ParseRedirs(t, pos)
    ensures forall toks :: Peek(t, Skip(t, pos), toks) == Peek(t, pos, toks)
  {
  }

  lemma RedirsStep(t: string, pos: nat, c: Cmd<Span>)
    requires pos <= |t| && IsText(t) && Peek(t, pos, {'<', '>'})
    ensures pos < GetToken(t, pos).pos
    ensures var tok := GetToken(t, pos);
            var file := GetToken(t, tok.pos);
            var mode := if tok.tok == Sym('<') then In else if tok.tok == More then Append else Out;
            && (file.tok != Word ==> RedirsOn(t, pos, c) == None)
            && (file.tok == Word ==> RedirsOn(t, pos, c) == RedirsOn(t, file.pos, Redir(c, file.span, mode)))
  {
    var tok := GetToken(t, pos);
    assert tok.tok != Eof;
    var file := GetToken(t, tok.pos);
    var mode := if tok.tok == Sym('<') then In else if tok.tok == More then Append else Out;
    var rest := ParseRedirs(t, file.pos);
    hide GetToken;
    hide Peek;
    if file.tok == Word && rest.Some? {
      var r := Redirection(file.span, mode);
      assert ([r] + rest.value.rs)[1..] == rest.value.rs;
    }
  }

  method Parseredirs(t: string, pos: nat, cmd: Cmd<Span>) returns (r: Option<Parsed>)
    requires pos <= |t| && IsText(t)
    ensures r == RedirsOn(t, pos, cmd)
  {
    hide GetToken;
    hide Peek;
    hide Skip;
    hide ParseRedirs;
    var c, s := cmd, pos;
    var more;
    more, s := PeekAt(t, s, {'<', '>'});
    SkipTwice(t, pos);
    while more
      invariant s <= |t| && more == Peek(t, s, {'<', '>'}) && Skip(t, s) == s
      invariant RedirsOn(t, s, c) == RedirsOn(t, pos, cmd)
      decreases |t| - s
    {
      RedirsStep(t, s, c);
      var tok := Gettoken(t, s);
      var file := Gettoken(t, tok.pos);
      if file.tok != Word {
        return None;
      }
      match tok.tok {
        case Sym(x) => c := Redir(c, file.span, if x == '<' then In else Out);
        case More => c := Redir(c, file.span, Append);
        case _ => c := Redir(c, file.span, Out);
      }
      SkipTwice(t, file.pos);
      more, s := PeekAt(t, file.pos, {'<', '>'});
    }
    NoMoreRedirs(t, s, c);
    r := Some(Parsed(c, s));
  }

  lemma NoMoreRedirs(t: string, s: nat, c: Cmd<Span>)
    requires s <= |t| && IsText(t) && !Peek(t, s, {'<', '>'}) && Skip(t, s) == s
    ensures RedirsOn(t, s, c) == Some(Parsed(c, s))
  {
  }

  /** The redirections at pos, to be applied to a command that is not complete yet. */
  method CollectRedirs(t: string, pos: nat) returns (r: Option<Redirs>)
    requires pos <= |t| && IsText(t)
    ensures r == ParseRedirs(t, pos)
  {
    var rs: seq<Redirection>, s := [], pos;
    var more;
    more, s := PeekAt(t, s, {'<', '>'});
    SkipTwice(t, pos);
    PrependNone(ParseRedirs(t, pos));
    while more
      invariant s <= |t| && more == Peek(t, s, {'<', '>'}) && Skip(t, s) == s
      invariant ParseRedirs(t, pos) == Prepend(rs, ParseRedirs(t, s))
      decreases |t| - s
    {
      var tok := Gettoken(t, s);
      var file := Gettoken(t, tok.pos);
      if file.tok != Word {
        return None;
      }
      var mode := if tok.tok == Sym('<') then In else if tok.tok == More then Append else Out;
      PrependMore(rs, Redirection(file.span, mode), ParseRedirs(t, file.pos));
      rs := rs + [Redirection(file.span, mode)];
      SkipTwice(t, file.pos);
      more, s := PeekAt(t, file.pos, {'<', '>'});
    }
    r := Some(Redirs(rs, s));
    assert rs + [] == rs;
  }

  ghost function Prepend(rs: seq<Redirection>, r: Option<Redirs>): Option<Redirs> {
    match r
    case None => None
    case Some(x) => Some(Redirs(rs + x.rs, x.pos))
  }

  lemma PrependNone(r: Option<Redirs>)
    ensures Prepend([], r) == r
  {
    if r.Some? {
      assert [] + r.value.rs == r.value.rs;
    }
  }

  lemma PrependMore(rs: seq<Redirection>, x: Redirection, r: Option<Redirs>)
    ensures Prepend(rs + [x], r) == Prepend(rs, Prepend([x], r))
  {
    if r.Some? {
      assert rs + [x] + r.value.rs == rs + ([x] + r.value.rs);
    }
  }

  method Parseexec(t: string, pos: nat) returns (r: Option<Parsed>)
    requires pos <= |t| && IsText(t)
    ensures r == ParseExec(t, pos)
    decreases |t| - pos, 2
  {
    var block, s := PeekAt(t, pos, {'('});
    if block {
      r := Parseblock(t, pos);
      return;
    }
    var first := CollectRedirs(t, pos);
    if first.None? {
      return None;
    }
    var argv: seq<Span>, rs := [], first.value.rs;
    var stop;
    stop, s := PeekAt(t, first.value.pos, {'|', ')', '&', ';'});
    ArgsSkip(t, first.value.pos, argv, rs);
    while !stop
      invariant s <= |t| && stop == Peek(t, s, {'|', ')', '&', ';'}) && Skip(t, s) == s
      invariant ParseArgs(t, first.value.pos, [], first.value.rs) == ParseArgs(t, s, argv, rs)
      decreases |t| - s
    {
      var tk := Gettoken(t, s);
      if tk.tok == Eof {
        return Some(Parsed(Apply(Exec(argv), rs), tk.pos));
      }
      if tk.tok != Word {
        return None;
      }
      if |argv| + 1 >= MAXARGS {
        return None;
      }
      argv := argv + [tk.span];
      var more := CollectRedirs(t, tk.pos);
      if more.None? {
        return None;
      }
      rs := rs + more.value.rs;
      ArgsSkip(t, more.value.pos, argv, rs);
      stop, s := PeekAt(t, more.value.pos, {'|', ')', '&', ';'});
    }
    r := Some(Parsed(Apply(Exec(argv), rs), s));
  }

  lemma ArgsSkip(t: string, pos: nat, argv: seq<Span>, rs: seq<Redirection>)
    requires pos <= |t| && IsText(t)
    ensures ParseArgs(t, Skip(t, pos), argv, rs) == ParseArgs(t, pos, argv, rs)
    ensures Skip(t, Skip(t, pos)) == Skip(t, pos)
  {
    SkipTwice(t, pos);
  }

  method Parseblock(t: string, pos: nat) returns (r: Option<Parsed>)
    requires pos <= |t| && IsText(t) && Peek(t, pos, {'('})
    ensures r == ParseBlock(t, pos)
    decreases |t| - pos, 1
  {
    var open := Gettoken(t, pos);
    var p := Parseline(t, open.pos);
    if p.None? {
      return None;
    }
    var closed, s := PeekAt(t, p.value.pos, {')'});
    if !closed {
      return None;
    }
    var close := Gettoken(t, p.value.pos);
    r := Parseredirs(t, close.pos, p.value.cmd);
  }

  method Parsepipe(t: string, pos: nat) returns (r: Option<Parsed>)
    requires pos <= |t| && IsText(t)
    ensures r == ParsePipe(t, pos)
    decreases |t| - pos, 3
  {
    r := Parseexec(t, pos);
    if r.None? {
      return;
    }
    var more, s := PeekAt(t, r.value.pos, {'|'});
    if more {
      var tok := Gettoken(t, r.value.pos);
      var right := Parsepipe(t, tok.pos);
      if right.None? {
        return None;
      }
      r := Some(Parsed(Pipe(r.value.cmd, right.value.cmd), right.value.pos));
    }
  }

  method Parseline(t: string, pos: nat) returns (r: Option<Parsed>)
    requires pos <= |t| && IsText(t)
    ensures r == ParseLine(t, pos)
    decreases |t| - pos, 4
  {
    var p := Parsepipe(t, pos);
    if p.None? {
      return None;
    }
    var c, s := p.value.cmd, p.value.pos;
    var amp, next := PeekAt(t, s, {'&'});
    while amp
      invariant p.value.pos <= s <= |t| && amp == Peek(t, s, {'&'})
      invariant ParseBacks(t, p.value.pos, p.value.cmd) == ParseBacks(t, s, c)
      decreases |t| - s
    {
      var tok := Gettoken(t, s);
      c, s := Back(c), tok.pos;
      amp, next := PeekAt(t, s, {'&'});
    }
    var semi;
    semi, next := PeekAt(t, s, {';'});
    if semi {
      var tok := Gettoken(t, s);
      var right := Parseline(t, tok.pos);
      if right.None? {
        return None;
      }
      return Some(Parsed(List(c, right.value.cmd), right.value.pos));
    }
    r := Some(Parsed(c, s));
  }

  /** parsecmd(): the one tree that the grammar gives the whole text, with its strings terminated
      in place, or an error if there is none. */
  method Parsecmd(a: array<char>, t: string) returns (r: Option<Cmd<Span>>)
    requires IsText(t) && a[..] == t + [NUL]
    modifies a
    ensures r == ParseCmd(t)
    ensures forall c :: r == Some(c) <==> Derives(t, c)
    ensures r.Some? ==> forall s :: s in StringsOf(r.value) ==> Terminated(a[..], t, s)
  {
    forall c
      ensures ParseCmd(t) == Some(c) <==> Derives(t, c)
    {
      ParsesIffDerives(t, c);
    }
    hide Derives;
    var p := Parseline(t, 0);
    if p.None? {
      return None;
    }
    var s := SkipSpace(t, p.value.pos);
    if s != |t| {
      return None;
    }
    ParseAndTerminate(a, t, p.value.cmd);
    r := Some(p.value.cmd);
  }
}
