/** The grammar of user/sh.c by itself: parse trees, the tokens they spell and the commands they
    stand for, with no word about how a text is parsed.  The parser is proved to accept exactly
    the texts that have a tree, with the command of the tree. */
module ShellGrammar {
  import opened Options
  import opened Shell
  import opened ShellTokens

  // ---------------------------------------------------------------- the grammar

  datatype Item = W(span: Span) | S(c: char) | M // a word, a symbol, >>

  /** A word of a simple command, with the redirections behind it. */
  datatype ArgT = ArgT(word: Span, rs: seq<Redirection>)

  /** exec: redirs { word redirs }, or a line in parentheses and redirs. */
  datatype ExecT = Simple(rs: seq<Redirection>, args: seq<ArgT>) | Block(line: LineT, rs: seq<Redirection>)

  /** pipe: exec, or exec | pipe. */
  datatype PipeT = LastExec(exec: ExecT) | MorePipe(exec: ExecT, rest: PipeT)

  /** line: a pipe with any number of &, and perhaps ; and a line. */
  datatype LineT = LastPipe(pipe: PipeT, amps: nat) | MoreLine(pipe: PipeT, amps: nat, rest: LineT)

  function OpItem(m: Mode): Item {
    match m
    case In => S('<')
    case Out => S('>')
    case Append => M
  }

  function RedirItems(rs: seq<Redirection>): seq<Item>
    decreases |rs|
  {
    if rs == [] then [] else [OpItem(rs[0].mode), W(rs[0].file)] + RedirItems(rs[1..])
  }

  function ArgItems(args: seq<ArgT>): seq<Item>
    decreases |args|
  {
    if args == [] then [] else [W(args[0].word)] + (RedirItems(args[0].rs) + ArgItems(args[1..]))
  }

  function AmpItems(n: nat): seq<Item> { if n == 0 then [] else [S('&')] + AmpItems(n - 1) }

  function ExecItems(e: ExecT): seq<Item>
    decreases e, 0
  {
    match e
    case Simple(rs, args) => RedirItems(rs) + ArgItems(args)
    case Block(line, rs) => [S('(')] + (LineItems(line) + ([S(')')] + RedirItems(rs)))
  }

  function PipeItems(p: PipeT): seq<Item>
    decreases p, 1
  {
    match p
    case LastExec(e) => ExecItems(e)
    case MorePipe(e, rest) => ExecItems(e) + ([S('|')] + PipeItems(rest))
  }

  function LineItems(l: LineT): seq<Item>
    decreases l, 2
  {
    match l
    case LastPipe(p, n) => PipeItems(p) + AmpItems(n)
    case MoreLine(p, n, rest) => PipeItems(p) + (AmpItems(n) + ([S(';')] + LineItems(rest)))
  }

  /** The words of a simple command, and all its redirections in order. */
  function ArgWords(args: seq<ArgT>): seq<Span>
    decreases |args|
  {
    if args == [] then [] else [args[0].word] + ArgWords(args[1..])
  }

  function ArgRedirs(args: seq<ArgT>): seq<Redirection>
    decreases |args|
  {
    if args == [] then [] else args[0].rs + ArgRedirs(args[1..])
  }

  function Backs(c: Cmd<Span>, n: nat): Cmd<Span>
    decreases n
  {
    if n == 0 then c else Backs(Back(c), n - 1)
  }

  /** A command with redirections, the last one outermost. */
  function Wrap(c: Cmd<Span>, rs: seq<Redirection>): Cmd<Span> {
    if rs == [] then c
    else
      var last := rs[|rs| - 1];
      Redir(Wrap(c, rs[..|rs| - 1]), last.file, last.mode)
  }

  lemma {:induction false} ApplyWraps(c: Cmd<Span>, rs: seq<Redirection>)
    ensures Apply(c, rs) == Wrap(c, rs)
    decreases |rs|
  {
    if rs != [] {
      WrapFirst(c, rs);
      ApplyWraps(Redir(c, rs[0].file, rs[0].mode), rs[1..]);
    }
  }

  lemma {:induction false} WrapFirst(c: Cmd<Span>, rs: seq<Redirection>)
    requires rs != []
    ensures Wrap(c, rs) == Wrap(Redir(c, rs[0].file, rs[0].mode), rs[1..])
    decreases |rs|
  {
    var n := |rs| - 1;
    if n > 0 {
      WrapFirst(c, rs[..n]);
      assert rs[..n][1..] == rs[1..][..n - 1];
    } else {
      assert rs[..0] == [];
    }
  }

  function ExecCmd(e: ExecT): Cmd<Span>
    decreases e, 0
  {
    match e
    case Simple(rs, args) => Wrap(Exec(ArgWords(args)), rs + ArgRedirs(args))
    case Block(line, rs) => Wrap(LineCmd(line), rs)
  }

  function PipeCmd(p: PipeT): Cmd<Span>
    decreases p, 1
  {
    match p
    case LastExec(e) => ExecCmd(e)
    case MorePipe(e, rest) => Pipe(ExecCmd(e), PipeCmd(rest))
  }

  function LineCmd(l: LineT): Cmd<Span>
    decreases l, 2
  {
    match l
    case LastPipe(p, n) => Backs(PipeCmd(p), n)
    case MoreLine(p, n, rest) => List(Backs(PipeCmd(p), n), LineCmd(rest))
  }

  /** No simple command has MAXARGS words or more. */
  predicate ExecOk(e: ExecT)
    decreases e, 0
  {
    match e
    case Simple(rs, args) => |args| < MAXARGS
    case Block(line, rs) => LineOk(line)
  }

  predicate PipeOk(p: PipeT)
    decreases p, 1
  {
    ExecOk(p.exec) && (p.MorePipe? ==> PipeOk(p.rest))
  }

  predicate LineOk(l: LineT)
    decreases l, 2
  {
    PipeOk(l.pipe) && (l.MoreLine? ==> LineOk(l.rest))
  }

  // ---------------------------------------------------------------- the tokens of a text

  function ItemOf(tk: Lex): Item
    requires tk.tok != Eof
  {
    match tk.tok
    case Word => W(tk.span)
    case Sym(c) => S(c)
    case _ => M
  }

  /** A position behind the spaces. */
  predicate Normal(t: string, pos: nat) { pos <= |t| && IsText(t) && !IsSpace(At(t, pos)) }

  /** The tokens of the text from pos up to end are the given ones. */
  ghost predicate Spells(t: string, pos: nat, items: seq<Item>, end: nat)
    requires Normal(t, pos)
    decreases |items|
  {
    if items == [] then end == pos
    else
      var tk := GetToken(t, pos);
      tk.tok != Eof && ItemOf(tk) == items[0] && Spells(t, tk.pos, items[1..], end)
  }

  function PieceItem(p: Piece): Item {
    match p.tok
    case Word => W(p.span)
    case Sym(c) => S(c)
    case _ => M
  }

  function ItemsOf(ps: seq<Piece>): (items: seq<Item>)
    ensures |items| == |ps|
  {
    seq(|ps|, i requires 0 <= i < |ps| => PieceItem(ps[i]))
  }

  /** The text has a parse tree whose command is c. */
  ghost predicate Derives(t: string, c: Cmd<Span>) {
    exists l, ps :: Sentence(t, l, ps, c)
  }

  /** The characters of the text make the tokens of the parse tree, with any spaces. */
  ghost predicate Sentence(t: string, l: LineT, ps: seq<Piece>, c: Cmd<Span>) {
    LineOk(l) && CutFrom(t, 0, ps) && ItemsOf(ps) == LineItems(l) && LineCmd(l) == c
  }

  /** What the characters make is what gettoken() reads. */
  lemma {:induction false} CutSpells(t: string, pos: nat, ps: seq<Piece>)
    requires IsText(t) && pos <= |t| && CutFrom(t, pos, ps)
    ensures Normal(t, Skip(t, pos)) && Spells(t, Skip(t, pos), ItemsOf(ps), |t|)
    decreases |ps|
  {
    SkipGap(t, pos);
    var n := Skip(t, pos);
    if ps == [] {
      GapOnce(t, pos, n, |t|);
    } else {
      var p := ps[0];
      TokenFirst(t, p.span, p.tok);
      GapOnce(t, pos, n, p.span.q);
      CutSpells(t, p.span.eq, ps[1..]);
      SkipGap(t, p.span.eq);
      LexedOnce(t, n, Lex(p.tok, p.span, Skip(t, p.span.eq)));
      hide GetToken;
      assert ItemsOf(ps)[1..] == ItemsOf(ps[1..]);
    }
  }

  /** The next token starts at once, and the position behind it is behind the spaces. */
  lemma TokenBehind(t: string, n: nat)
    requires Normal(t, n)
    ensures var tk := GetToken(t, n);
            && tk.span.q == n && tk.span.eq <= |t| && TokenAt(t, tk.span, tk.tok) && tk.pos == Skip(t, tk.span.eq)
  {
    var tk := GetToken(t, n);
    GetTokenLexed(t, n);
    hide GetToken;
    TokenFirst(t, tk.span, tk.tok);
    SkipGap(t, n);
    GapOnce(t, n, n, tk.span.q);
    SkipGap(t, tk.span.eq);
    GapOnce(t, tk.span.eq, tk.pos, Skip(t, tk.span.eq));
  }

  lemma CutCons(t: string, pos: nat, p: Piece, rest: seq<Piece>)
    requires p.tok != Eof && Gap(t, pos, p.span.q) && TokenAt(t, p.span, p.tok) && CutFrom(t, p.span.eq, rest)
    ensures CutFrom(t, pos, [p] + rest) && ItemsOf([p] + rest) == [PieceItem(p)] + ItemsOf(rest)
  {
    assert ([p] + rest)[1..] == rest;
  }

  lemma {:induction false} SpellsCut(t: string, pos: nat, items: seq<Item>) returns (ps: seq<Piece>)
    requires IsText(t) && pos <= |t| && Normal(t, Skip(t, pos)) && Spells(t, Skip(t, pos), items, |t|)
    ensures CutFrom(t, pos, ps) && ItemsOf(ps) == items
    decreases |items|
  {
    hide GetToken;
    hide Skip;
    hide TokenAt;
    hide Gap;
    hide IsText;
    SkipGap(t, pos);
    var n := Skip(t, pos);
    if items == [] {
      return [];
    }
    var tk := GetToken(t, n);
    TokenBehind(t, n);
    var rest := SpellsCut(t, tk.span.eq, items[1..]);
    hide CutFrom;
    hide Spells;
    CutCons(t, pos, Piece(tk.tok, tk.span), rest);
    ps := [Piece(tk.tok, tk.span)] + rest;
  }

  // ---------------------------------------------------------------- reading tokens

  lemma {:induction false} SpellsSplit(t: string, pos: nat, a: seq<Item>, b: seq<Item>, end: nat) returns (mid: nat)
    requires Normal(t, pos) && Spells(t, pos, a + b, end)
    ensures pos <= mid && Normal(t, mid) && Spells(t, pos, a, mid) && Spells(t, mid, b, end)
    ensures a != [] ==> pos < mid
    decreases |a|
  {
    if a == [] {
      assert a + b == b;
      mid := pos;
    } else {
      assert (a + b)[1..] == a[1..] + b;
      mid := SpellsSplit(t, GetToken(t, pos).pos, a[1..], b, end);
    }
  }

  lemma {:induction false} SpellsJoin(t: string, pos: nat, a: seq<Item>, mid: nat, b: seq<Item>, end: nat)
    requires Normal(t, pos) && Spells(t, pos, a, mid) && Normal(t, mid) && Spells(t, mid, b, end)
    ensures Spells(t, pos, a + b, end)
    decreases |a|
  {
    if a == [] {
      assert a + b == b;
    } else {
      assert (a + b)[1..] == a[1..] + b;
      SpellsJoin(t, GetToken(t, pos).pos, a[1..], mid, b, end);
    }
  }

  lemma SpellsOne(t: string, pos: nat, x: Item)
    requires Normal(t, pos) && GetToken(t, pos).tok != Eof && ItemOf(GetToken(t, pos)) == x
    ensures Spells(t, pos, [x], GetToken(t, pos).pos) && Normal(t, GetToken(t, pos).pos)
  {
  }

  lemma SpelledOne(t: string, pos: nat, x: Item, end: nat)
    requires Normal(t, pos) && Spells(t, pos, [x], end)
    ensures var tk := GetToken(t, pos); tk.tok != Eof && ItemOf(tk) == x && end == tk.pos && Normal(t, end)
    ensures x.S? ==> pos < |t| && At(t, pos) == x.c && IsSymbol(x.c)
    ensures x.W? ==> IsWord(At(t, pos))
    ensures x.M? ==> At(t, pos) == '>'
  {
    assert Skip(t, pos) == pos;
  }

  /** A symbol at a position behind the spaces is the next token. */
  lemma SymbolAt(t: string, pos: nat, c: char)
    requires Normal(t, pos) && At(t, pos) == c && IsSymbol(c) && c != '<' && c != '>'
    ensures GetToken(t, pos).tok == Sym(c) && Spells(t, pos, [S(c)], GetToken(t, pos).pos)
    ensures Normal(t, GetToken(t, pos).pos) && pos < GetToken(t, pos).pos
  {
    assert Skip(t, pos) == pos;
    SpellsOne(t, pos, S(c));
  }

  lemma PeekNormal(t: string, pos: nat, toks: set<char>)
    requires Normal(t, pos)
    ensures Skip(t, pos) == pos && (Peek(t, pos, toks) <==> At(t, pos) != NUL && At(t, pos) in toks)
  {
  }

  // ---------------------------------------------------------------- what the grammar derives is parsed

  predicate NoRedir(c: char) { c != '<' && c != '>' }
  predicate EndsExec(c: char) { c == NUL || c == '|' || c == ')' || c == '&' || c == ';' }
  predicate EndsPipe(c: char) { c == NUL || c == ')' || c == '&' || c == ';' }
  predicate EndsLine(c: char) { c == NUL || c == ')' }

  lemma {:induction false} RedirsParsed(t: string, pos: nat, rs: seq<Redirection>, end: nat)
    requires Normal(t, pos) && Spells(t, pos, RedirItems(rs), end) && NoRedir(At(t, end))
    ensures ParseRedirs(t, pos) == Some(Redirs(rs, end))
    decreases |rs|
  {
    hide GetToken;
    hide Peek;
    hide OpItem;
    if rs == [] {
      NoRedirsParsed(t, pos, end);
    } else {
      hide ParseRedirs;
      hide Spells;
      var op, file := OpItem(rs[0].mode), W(rs[0].file);
      RedirCons(rs);
      hide RedirItems;
      var m := SpellsSplit(t, pos, [op], [file] + RedirItems(rs[1..]), end);
      SpelledOne(t, pos, op, m);
      var k := SpellsSplit(t, m, [file], RedirItems(rs[1..]), end);
      SpelledOne(t, m, file, k);
      RedirsParsed(t, k, rs[1..], end);
      RedirTokens(t, pos, rs[0], m, k);
      assert rs == [rs[0]] + rs[1..];
    }
  }

  lemma RedirCons(rs: seq<Redirection>)
    requires rs != []
    ensures RedirItems(rs) == [OpItem(rs[0].mode)] + ([W(rs[0].file)] + RedirItems(rs[1..]))
  {
  }

  lemma NoRedirsParsed(t: string, pos: nat, end: nat)
    requires Normal(t, pos) && Spells(t, pos, [], end) && NoRedir(At(t, end))
    ensures ParseRedirs(t, pos) == Some(Redirs([], end))
  {
    PeekNormal(t, pos, {'<', '>'});
  }

  /** The two tokens of a redirection. */
  lemma RedirTokens(t: string, pos: nat, r: Redirection, m: nat, k: nat)
    requires Normal(t, pos) && GetToken(t, pos).tok != Eof && ItemOf(GetToken(t, pos)) == OpItem(r.mode)
    requires m == GetToken(t, pos).pos && GetToken(t, m).tok != Eof && ItemOf(GetToken(t, m)) == W(r.file)
    requires k == GetToken(t, m).pos
    ensures Peek(t, pos, {'<', '>'})
    ensures ParseRedirs(t, pos) == match ParseRedirs(t, k)
                                   case None => None
                                   case Some(rest) => Some(Redirs([r] + rest.rs, rest.pos))
  {
    hide GetToken;
    hide Skip;
    hide Peek;
    OpPeek(t, pos, r.mode);
  }

  /** The operator of a redirection, seen by peek() and by gettoken(). */
  lemma OpPeek(t: string, pos: nat, mode: Mode)
    requires Normal(t, pos) && GetToken(t, pos).tok != Eof && ItemOf(GetToken(t, pos)) == OpItem(mode)
    ensures Peek(t, pos, {'<', '>'})
    ensures var tok := GetToken(t, pos).tok;
            mode == if tok == Sym('<') then In else if tok == More then Append else Out
  {
    assert Skip(t, pos) == pos;
  }

  lemma ArgCons(a: ArgT, rest: seq<ArgT>, argv: seq<Span>, rs: seq<Redirection>)
    ensures ArgItems([a] + rest) == [W(a.word)] + (RedirItems(a.rs) + ArgItems(rest))
    ensures argv + [a.word] + ArgWords(rest) == argv + ArgWords([a] + rest)
    ensures rs + a.rs + ArgRedirs(rest) == rs + ArgRedirs([a] + rest)
  {
    ItemsCons(a, rest);
    WordsCons(a, rest);
    RedirsCons(a, rest);
    hide ArgItems;
    hide ArgWords;
    hide ArgRedirs;
    assert argv + [a.word] + ArgWords(rest) == argv + ([a.word] + ArgWords(rest));
    assert rs + a.rs + ArgRedirs(rest) == rs + (a.rs + ArgRedirs(rest));
  }

  lemma ItemsCons(a: ArgT, rest: seq<ArgT>)
    ensures ArgItems([a] + rest) == [W(a.word)] + (RedirItems(a.rs) + ArgItems(rest))
  {
    assert ([a] + rest)[1..] == rest;
  }

  lemma WordsCons(a: ArgT, rest: seq<ArgT>)
    ensures ArgWords([a] + rest) == [a.word] + ArgWords(rest)
  {
    assert ([a] + rest)[1..] == rest;
  }

  lemma RedirsCons(a: ArgT, rest: seq<ArgT>)
    ensures ArgRedirs([a] + rest) == a.rs + ArgRedirs(rest)
  {
    assert ([a] + rest)[1..] == rest;
  }

  lemma {:induction false} ArgsParsed(t: string, pos: nat, args: seq<ArgT>, end: nat, argv: seq<Span>,
                                      rs: seq<Redirection>)
    requires Normal(t, pos) && Spells(t, pos, ArgItems(args), end) && EndsExec(At(t, end))
    requires |argv| + |args| < MAXARGS
    ensures ParseArgs(t, pos, argv, rs) == Some(Args(argv + ArgWords(args), rs + ArgRedirs(args), end))
    decreases |args|
  {
    hide GetToken;
    hide Peek;
    hide ParseRedirs;
    hide ParseArgs;
    if args == [] {
      assert argv + ArgWords(args) == argv && rs + ArgRedirs(args) == rs;
      ArgsStop(t, pos, argv, rs);
    } else {
      var a, more := args[0], ArgItems(args[1..]);
      assert args == [a] + args[1..];
      ArgCons(a, args[1..], argv, rs);
      hide ArgItems;
      hide ArgWords;
      hide ArgRedirs;
      hide Spells;
      var m := SpellsSplit(t, pos, [W(a.word)], RedirItems(a.rs) + more, end);
      SpelledOne(t, pos, W(a.word), m);
      var k := SpellsSplit(t, m, RedirItems(a.rs), more, end);
      ArgsStart(t, k, args[1..], end);
      RedirsParsed(t, m, a.rs, k);
      ArgsTurn(t, pos, argv, rs, a.rs, k);
      ArgsParsed(t, k, args[1..], end, argv + [a.word], rs + a.rs);
    }
  }

  /** The loop of parseexec() ends at a symbol that ends the command, or at the end of the text. */
  lemma ArgsStop(t: string, pos: nat, argv: seq<Span>, rs: seq<Redirection>)
    requires Normal(t, pos) && EndsExec(At(t, pos))
    ensures ParseArgs(t, pos, argv, rs) == Some(Args(argv, rs, pos))
  {
    PeekNormal(t, pos, {'|', ')', '&', ';'});
    if At(t, pos) == NUL {
      assert GetToken(t, pos).tok == Eof && GetToken(t, pos).pos == pos;
    }
  }

  /** One turn of the loop of parseexec(). */
  lemma ArgsTurn(t: string, pos: nat, argv: seq<Span>, rs: seq<Redirection>, more: seq<Redirection>, k: nat)
    requires Normal(t, pos) && IsWord(At(t, pos)) && |argv| + 1 < MAXARGS && GetToken(t, pos).tok == Word
    requires ParseRedirs(t, GetToken(t, pos).pos) == Some(Redirs(more, k))
    ensures k <= |t| && ParseArgs(t, pos, argv, rs) == ParseArgs(t, k, argv + [GetToken(t, pos).span], rs + more)
  {
    PeekNormal(t, pos, {'|', ')', '&', ';'});
    hide GetToken;
    hide ParseRedirs;
  }

  /** Words start with a word character, so no redirection is next. */
  lemma ArgsStart(t: string, pos: nat, args: seq<ArgT>, end: nat)
    requires Normal(t, pos) && Spells(t, pos, ArgItems(args), end) && EndsExec(At(t, end))
    ensures NoRedir(At(t, pos)) && At(t, pos) != '('
  {
    if args != [] {
      var m := SpellsSplit(t, pos, [W(args[0].word)], RedirItems(args[0].rs) + ArgItems(args[1..]), end);
      SpelledOne(t, pos, W(args[0].word), m);
    }
  }

  lemma RedirsStart(t: string, pos: nat, rs: seq<Redirection>, end: nat)
    requires Normal(t, pos) && Spells(t, pos, RedirItems(rs), end) && At(t, end) != '('
    ensures At(t, pos) != '('
  {
    if rs != [] {
      var op, rest := OpItem(rs[0].mode), [W(rs[0].file)] + RedirItems(rs[1..]);
      assert RedirItems(rs) == [op] + rest;
      var m := SpellsSplit(t, pos, [op], rest, end);
      SpelledOne(t, pos, op, m);
    }
  }

  lemma {:induction false} ExecParsed(t: string, pos: nat, e: ExecT, end: nat)
    requires Normal(t, pos) && ExecOk(e) && Spells(t, pos, ExecItems(e), end) && EndsExec(At(t, end))
    ensures ParseExec(t, pos) == Some(Parsed(ExecCmd(e), end))
    decreases e, 1
  {
    match e
    case Simple(rs, args) => SimpleParsed(t, pos, rs, args, end);
    case Block(line, rs) => BlockParsed(t, pos, e, line, rs, end);
  }

  lemma SimpleParsed(t: string, pos: nat, rs: seq<Redirection>, args: seq<ArgT>, end: nat)
    requires Normal(t, pos) && ExecOk(Simple(rs, args)) && Spells(t, pos, ExecItems(Simple(rs, args)), end)
    requires EndsExec(At(t, end))
    ensures ParseExec(t, pos) == Some(Parsed(ExecCmd(Simple(rs, args)), end))
  {
    PeekNormal(t, pos, {'('});
    var m := SpellsSplit(t, pos, RedirItems(rs), ArgItems(args), end);
    ArgsStart(t, m, args, end);
    RedirsStart(t, pos, rs, m);
    RedirsParsed(t, pos, rs, m);
    ArgsParsed(t, m, args, end, [], rs);
    assert [] + ArgWords(args) == ArgWords(args);
    ApplyWraps(Exec(ArgWords(args)), rs + ArgRedirs(args));
    hide Apply;
    hide Wrap;
  }

  lemma {:induction false} BlockParsed(t: string, pos: nat, e: ExecT, line: LineT, rs: seq<Redirection>, end: nat)
    requires Normal(t, pos) && e == Block(line, rs) && ExecOk(e) && Spells(t, pos, ExecItems(e), end)
    requires EndsExec(At(t, end))
    ensures ParseExec(t, pos) == Some(Parsed(ExecCmd(e), end))
    decreases e, 0
  {
    PeekNormal(t, pos, {'('});
    var rest := [S(')')] + RedirItems(rs);
    var m := SpellsSplit(t, pos, [S('(')], LineItems(line) + rest, end);
    SpelledOne(t, pos, S('('), m);
    var k := SpellsSplit(t, m, LineItems(line), rest, end);
    var j := SpellsSplit(t, k, [S(')')], RedirItems(rs), end);
    SpelledOne(t, k, S(')'), j);
    LineParsed(t, m, line, k);
    PeekNormal(t, k, {')'});
    RedirsParsed(t, j, rs, end);
    BlockUnfolds(t, pos);
    ApplyWraps(LineCmd(line), rs);
    hide Apply;
    hide Wrap;
  }

  /** parseblock(), step by step. */
  lemma BlockUnfolds(t: string, pos: nat)
    requires Normal(t, pos) && At(t, pos) == '('
    ensures ParseExec(t, pos) == match ParseLine(t, GetToken(t, pos).pos)
                                 case None => None
                                 case Some(p) =>
                                   if !Peek(t, p.pos, {')'}) then None
                                   else
                                     match ParseRedirs(t, GetToken(t, p.pos).pos)
                                     case None => None
                                     case Some(r) => Some(Parsed(Apply(p.cmd, r.rs), r.pos))
  {
    PeekNormal(t, pos, {'('});
    hide GetToken;
    hide ParseRedirs;
    hide ParseLine;
    assert ParseExec(t, pos) == ParseBlock(t, pos);
  }

  lemma {:induction false} PipeParsed(t: string, pos: nat, p: PipeT, end: nat)
    requires Normal(t, pos) && PipeOk(p) && Spells(t, pos, PipeItems(p), end) && EndsPipe(At(t, end))
    ensures ParsePipe(t, pos) == Some(Parsed(PipeCmd(p), end))
    decreases p, 1
  {
    match p
    case LastExec(e) =>
      ExecParsed(t, pos, e, end);
      assert end <= |t|;
      PeekEnd(t, pos, PipeItems(p), end, {'|'});
    case MorePipe(e, rest) =>
      var m := SpellsSplit(t, pos, ExecItems(e), [S('|')] + PipeItems(rest), end);
      var k := SpellsSplit(t, m, [S('|')], PipeItems(rest), end);
      SpelledOne(t, m, S('|'), k);
      ExecParsed(t, pos, e, m);
      PipeParsed(t, k, rest, end);
      PeekNormal(t, m, {'|'});
  }

  /** Where tokens end, no spaces are left to skip. */
  lemma PeekEnd(t: string, pos: nat, items: seq<Item>, end: nat, toks: set<char>)
    requires Normal(t, pos) && Spells(t, pos, items, end)
    ensures Normal(t, end) && (Peek(t, end, toks) <==> At(t, end) != NUL && At(t, end) in toks)
  {
    assert items + [] == items;
    var m := SpellsSplit(t, pos, items, [], end);
    PeekNormal(t, end, toks);
  }

  lemma {:induction false} AmpsParsed(t: string, pos: nat, n: nat, end: nat, c: Cmd<Span>)
    requires Normal(t, pos) && Spells(t, pos, AmpItems(n), end) && At(t, end) != '&'
    ensures ParseBacks(t, pos, c) == Parsed(Backs(c, n), end)
    decreases n
  {
    PeekNormal(t, pos, {'&'});
    if n > 0 {
      var m := SpellsSplit(t, pos, [S('&')], AmpItems(n - 1), end);
      SpelledOne(t, pos, S('&'), m);
      AmpsParsed(t, m, n - 1, end, Back(c));
    }
  }

  lemma AmpsStart(t: string, pos: nat, n: nat, end: nat)
    requires Normal(t, pos) && Spells(t, pos, AmpItems(n), end) && EndsPipe(At(t, end))
    ensures EndsPipe(At(t, pos))
  {
    if n > 0 {
      var m := SpellsSplit(t, pos, [S('&')], AmpItems(n - 1), end);
      SpelledOne(t, pos, S('&'), m);
    }
  }

  /** A line of the grammar, followed by ) or the end of the text, is parsed as its command. */
  lemma {:induction false} LineParsed(t: string, pos: nat, l: LineT, end: nat)
    requires Normal(t, pos) && LineOk(l) && Spells(t, pos, LineItems(l), end) && EndsLine(At(t, end))
    ensures ParseLine(t, pos) == Some(Parsed(LineCmd(l), end))
    decreases l, 2
  {
    match l
    case LastPipe(p, n) =>
      var m := SpellsSplit(t, pos, PipeItems(p), AmpItems(n), end);
      AmpsStart(t, m, n, end);
      PipeParsed(t, pos, p, m);
      AmpsParsed(t, m, n, end, PipeCmd(p));
      PeekEnd(t, pos, LineItems(l), end, {';'});
    case MoreLine(p, n, rest) =>
      var tail := [S(';')] + LineItems(rest);
      var m := SpellsSplit(t, pos, PipeItems(p), AmpItems(n) + tail, end);
      var k := SpellsSplit(t, m, AmpItems(n), tail, end);
      var j := SpellsSplit(t, k, [S(';')], LineItems(rest), end);
      SpelledOne(t, k, S(';'), j);
      AmpsStart(t, m, n, k);
      PipeParsed(t, pos, p, m);
      AmpsParsed(t, m, n, k, PipeCmd(p));
      PeekNormal(t, k, {';'});
      LineParsed(t, j, rest, end);
  }

  // ---------------------------------------------------------------- what is parsed the grammar derives

  lemma OpSpelled(t: string, pos: nat)
    requires Normal(t, pos) && Peek(t, pos, {'<', '>'})
    ensures var tok := GetToken(t, pos);
            && tok.tok != Eof && Normal(t, tok.pos)
            && ItemOf(tok) == OpItem(if tok.tok == Sym('<') then In else if tok.tok == More then Append else Out)
  {
    PeekNormal(t, pos, {'<', '>'});
  }

  lemma {:induction false} RedirsDerived(t: string, pos: nat)
    requires Normal(t, pos) && ParseRedirs(t, pos).Some?
    ensures var r := ParseRedirs(t, pos).value;
            Normal(t, r.pos) && Spells(t, pos, RedirItems(r.rs), r.pos) && NoRedir(At(t, r.pos))
    decreases |t| - pos
  {
    PeekNormal(t, pos, {'<', '>'});
    if Peek(t, pos, {'<', '>'}) {
      var tok := GetToken(t, pos);
      var file := GetToken(t, tok.pos);
      var r := ParseRedirs(t, pos).value;
      OpSpelled(t, pos);
      hide GetToken;
      RedirsDerived(t, file.pos);
      assert r.rs[1..] == ParseRedirs(t, file.pos).value.rs;
      hide ParseRedirs;
      hide Spells;
      hide Peek;
      SpellsOne(t, tok.pos, W(file.span));
      SpellsOne(t, pos, OpItem(r.rs[0].mode));
      hide OpItem;
      SpellsJoin(t, tok.pos, [W(file.span)], file.pos, RedirItems(r.rs[1..]), r.pos);
      SpellsJoin(t, pos, [OpItem(r.rs[0].mode)], tok.pos, [W(file.span)] + RedirItems(r.rs[1..]), r.pos);
      RedirCons(r.rs);
    }
  }

  lemma {:induction false} ArgsDerived(t: string, pos: nat, argv: seq<Span>, rs: seq<Redirection>)
    returns (args: seq<ArgT>)
    requires Normal(t, pos) && ParseArgs(t, pos, argv, rs).Some? && |argv| < MAXARGS
    ensures var a := ParseArgs(t, pos, argv, rs).value;
            && Normal(t, a.pos) && Spells(t, pos, ArgItems(args), a.pos) && EndsExec(At(t, a.pos))
            && a.argv == argv + ArgWords(args) && a.rs == rs + ArgRedirs(args) && |argv| + |args| < MAXARGS
    decreases |t| - pos
  {
    ArgsCases(t, pos, argv, rs);
    hide GetToken;
    hide Peek;
    hide ParseRedirs;
    hide ParseArgs;
    var tk := GetToken(t, pos);
    args := [];
    if EndsExec(At(t, pos)) {
      ArgsStop(t, pos, argv, rs);
    } else {
      var more := ParseRedirs(t, tk.pos).value;
      ArgsTurn(t, pos, argv, rs, more.rs, more.pos);
      RedirsDerived(t, tk.pos);
      var rest := ArgsDerived(t, more.pos, argv + [tk.span], rs + more.rs);
      args := [ArgT(tk.span, more.rs)] + rest;
      ArgCons(ArgT(tk.span, more.rs), rest, argv, rs);
      hide ArgItems;
      hide ArgWords;
      hide ArgRedirs;
      hide Spells;
      var end := ParseArgs(t, pos, argv, rs).value.pos;
      SpellsOne(t, pos, W(tk.span));
      SpellsJoin(t, tk.pos, RedirItems(more.rs), more.pos, ArgItems(rest), end);
      SpellsJoin(t, pos, [W(tk.span)], tk.pos, RedirItems(more.rs) + ArgItems(rest), end);
    }
  }

  lemma ArgsCases(t: string, pos: nat, argv: seq<Span>, rs: seq<Redirection>)
    requires Normal(t, pos) && ParseArgs(t, pos, argv, rs).Some?
    ensures EndsExec(At(t, pos)) ||
            (IsWord(At(t, pos)) && GetToken(t, pos).tok == Word && |argv| + 1 < MAXARGS
             && ParseRedirs(t, GetToken(t, pos).pos).Some?)
  {
    PeekNormal(t, pos, {'|', ')', '&', ';'});
  }

  lemma {:induction false} ExecDerived(t: string, pos: nat) returns (e: ExecT)
    requires Normal(t, pos) && ParseExec(t, pos).Some?
    ensures var p := ParseExec(t, pos).value;
            && ExecOk(e) && ExecCmd(e) == p.cmd && Normal(t, p.pos) && Spells(t, pos, ExecItems(e), p.pos)
    ensures EndsExec(At(t, ParseExec(t, pos).value.pos)) || e.Block?
    decreases |t| - pos, 0
  {
    hide Apply;
    hide Wrap;
    PeekNormal(t, pos, {'('});
    var end := ParseExec(t, pos).value.pos;
    if Peek(t, pos, {'('}) {
      BlockUnfolds(t, pos);
      SymbolAt(t, pos, '(');
      hide GetToken;
      hide ParseExec;
      hide ParseLine;
      hide ParseRedirs;
      var m := GetToken(t, pos).pos;
      var line := LineDerived(t, m);
      var p := ParseLine(t, m).value;
      PeekNormal(t, p.pos, {')'});
      SymbolAt(t, p.pos, ')');
      var j := GetToken(t, p.pos).pos;
      RedirsDerived(t, j);
      var rs := ParseRedirs(t, j).value.rs;
      e := Block(line, rs);
      SpellsJoin(t, p.pos, [S(')')], j, RedirItems(rs), end);
      SpellsJoin(t, m, LineItems(line), p.pos, [S(')')] + RedirItems(rs), end);
      SpellsJoin(t, pos, [S('(')], m, LineItems(line) + ([S(')')] + RedirItems(rs)), end);
      ApplyWraps(LineCmd(line), rs);
    } else {
      hide GetToken;
      hide ParseArgs;
      RedirsDerived(t, pos);
      var first := ParseRedirs(t, pos).value;
      var args := ArgsDerived(t, first.pos, [], first.rs);
      e := Simple(first.rs, args);
      assert [] + ArgWords(args) == ArgWords(args);
      SpellsJoin(t, pos, RedirItems(first.rs), first.pos, ArgItems(args), end);
      ApplyWraps(Exec(ArgWords(args)), first.rs + ArgRedirs(args));
    }
  }

  lemma {:induction false} PipeDerived(t: string, pos: nat) returns (p: PipeT)
    requires Normal(t, pos) && ParsePipe(t, pos).Some?
    ensures var r := ParsePipe(t, pos).value;
            && PipeOk(p) && PipeCmd(p) == r.cmd && Normal(t, r.pos) && Spells(t, pos, PipeItems(p), r.pos)
    decreases |t| - pos, 1
  {
    var e := ExecDerived(t, pos);
    var x := ParseExec(t, pos).value;
    PeekNormal(t, x.pos, {'|'});
    if Peek(t, x.pos, {'|'}) {
      SymbolAt(t, x.pos, '|');
      var m, end := GetToken(t, x.pos).pos, ParsePipe(t, pos).value.pos;
      var rest := PipeDerived(t, m);
      p := MorePipe(e, rest);
      SpellsJoin(t, x.pos, [S('|')], m, PipeItems(rest), end);
      SpellsJoin(t, pos, ExecItems(e), x.pos, [S('|')] + PipeItems(rest), end);
    } else {
      p := LastExec(e);
    }
  }

  lemma {:induction false} AmpsDerived(t: string, pos: nat, c: Cmd<Span>) returns (n: nat)
    requires Normal(t, pos)
    ensures var b := ParseBacks(t, pos, c);
            b.cmd == Backs(c, n) && Normal(t, b.pos) && Spells(t, pos, AmpItems(n), b.pos) && At(t, b.pos) != '&'
    decreases |t| - pos
  {
    PeekNormal(t, pos, {'&'});
    if Peek(t, pos, {'&'}) {
      SymbolAt(t, pos, '&');
      var m := GetToken(t, pos).pos;
      n := AmpsDerived(t, m, Back(c));
      SpellsJoin(t, pos, [S('&')], m, AmpItems(n), ParseBacks(t, pos, c).pos);
      n := n + 1;
    } else {
      n := 0;
    }
  }

  /** A line that the parser accepts has a parse tree with that command, up to the same place. */
  lemma {:induction false} LineDerived(t: string, pos: nat) returns (l: LineT)
    requires Normal(t, pos) && ParseLine(t, pos).Some?
    ensures var r := ParseLine(t, pos).value;
            && LineOk(l) && LineCmd(l) == r.cmd && Normal(t, r.pos) && Spells(t, pos, LineItems(l), r.pos)
    decreases |t| - pos, 2
  {
    var p := PipeDerived(t, pos);
    var x := ParsePipe(t, pos).value;
    var n := AmpsDerived(t, x.pos, x.cmd);
    var b, end := ParseBacks(t, x.pos, x.cmd), ParseLine(t, pos).value.pos;
    PeekNormal(t, b.pos, {';'});
    if Peek(t, b.pos, {';'}) {
      SymbolAt(t, b.pos, ';');
      var m := GetToken(t, b.pos).pos;
      var rest := LineDerived(t, m);
      l := MoreLine(p, n, rest);
      SpellsJoin(t, b.pos, [S(';')], m, LineItems(rest), end);
      SpellsJoin(t, x.pos, AmpItems(n), b.pos, [S(';')] + LineItems(rest), end);
      SpellsJoin(t, pos, PipeItems(p), x.pos, AmpItems(n) + ([S(';')] + LineItems(rest)), end);
    } else {
      l := LastPipe(p, n);
      SpellsJoin(t, pos, PipeItems(p), x.pos, AmpItems(n), end);
    }
  }

  // ---------------------------------------------------------------- the parser is the grammar

  /** Spaces at the start do not matter. */
  lemma SkipStart(t: string)
    requires IsText(t)
    ensures Normal(t, Skip(t, 0)) && ParseLine(t, Skip(t, 0)) == ParseLine(t, 0)
  {
    SkipExec(t);
    var s := Skip(t, 0);
    hide ParseExec;
    hide GetToken;
    assert ParsePipe(t, s) == ParsePipe(t, 0);
  }

  lemma SkipExec(t: string)
    requires IsText(t)
    ensures Normal(t, Skip(t, 0)) && ParseExec(t, Skip(t, 0)) == ParseExec(t, 0)
  {
    var s := Skip(t, 0);
    assert Skip(t, s) == s && GetToken(t, s) == GetToken(t, 0);
    hide GetToken;
    assert ParseRedirs(t, s) == ParseRedirs(t, 0);
    if Peek(t, 0, {'('}) {
      SkipBlock(t);
    }
    hide ParseRedirs;
    hide ParseBlock;
  }

  lemma SkipBlock(t: string)
    requires IsText(t) && Peek(t, 0, {'('})
    ensures ParseBlock(t, Skip(t, 0)) == ParseBlock(t, 0)
  {
    var s := Skip(t, 0);
    assert Skip(t, s) == s && GetToken(t, s) == GetToken(t, 0);
    hide GetToken;
    assert ParseParen(t, s) == ParseParen(t, 0);
  }

  /** parsecmd() accepts exactly the texts of the grammar, each with the command of its parse tree;
      every other text makes it panic. */
  lemma ParsesIffDerives(t: string, c: Cmd<Span>)
    requires IsText(t)
    ensures ParseCmd(t) == Some(c) <==> Derives(t, c)
  {
    hide ParseLine;
    hide LineItems;
    hide LineCmd;
    hide LineOk;
    hide Spells;
    hide CutFrom;
    var s := Skip(t, 0);
    SkipStart(t);
    if ParseCmd(t) == Some(c) {
      var l := LineDerived(t, s);
      PeekNormal(t, ParseLine(t, s).value.pos, {});
      var ps := SpellsCut(t, 0, LineItems(l));
      assert Sentence(t, l, ps, c);
    }
    if Derives(t, c) {
      var l, ps :| Sentence(t, l, ps, c);
      CutSpells(t, 0, ps);
      LineParsed(t, s, l, |t|);
    }
  }
}
