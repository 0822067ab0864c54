/** Printing and parsing with any spacing: a text whose tokens are those of a printed command, with
    any white space before, between and after them, parses to that command. */
module ShellSpacing {
  import opened Shell
  import opened ShellTokens
  import opened ShellGrammar

  /** A token by what it looks like: a word, a symbol, >>. */
  datatype Lexeme = Txt(w: string) | Chr(c: char) | Twice

  function LexemeOf(t: string, p: Piece): Lexeme {
    match p.tok
    case Word => Txt(Cut(t, p.span))
    case Sym(c) => Chr(c)
    case _ => Twice
  }

  function ModeLex(m: Mode): Lexeme {
    match m
    case In => Chr('<')
    case Out => Chr('>')
    case Append => Twice
  }

  /** The tokens of a command with every part in parentheses. */
  function PrintLex(c: Cmd<string>): (ls: seq<Lexeme>)
    ensures |ls| >= 2
    decreases c, 1
  {
    [Chr('(')] + (BodyLex(c) + [Chr(')')])
  }

  function BodyLex(c: Cmd<string>): seq<Lexeme>
    decreases c, 0
  {
    match c
    case Exec(argv) => seq(|argv|, i requires 0 <= i < |argv| => Txt(argv[i]))
    case Redir(cmd, file, mode) => PrintLex(cmd) + [ModeLex(mode), Txt(file)]
    case Pipe(left, right) => PrintLex(left) + ([Chr('|')] + PrintLex(right))
    case List(left, right) => PrintLex(left) + ([Chr(';')] + PrintLex(right))
    case Back(cmd) => PrintLex(cmd) + [Chr('&')]
  }

  /** No simple command in it has MAXARGS words or more. */
  predicate Fits(c: Cmd<string>) {
    match c
    case Exec(argv) => |argv| < MAXARGS
    case Redir(cmd, file, mode) => Fits(cmd)
    case Pipe(left, right) => Fits(left) && Fits(right)
    case List(left, right) => Fits(left) && Fits(right)
    case Back(cmd) => Fits(cmd)
  }

  /** The tokens from number k on look like ls. */
  ghost predicate Shown(t: string, ps: seq<Piece>, k: nat, ls: seq<Lexeme>) {
    k + |ls| <= |ps| && forall i :: 0 <= i < |ls| ==> LexemeOf(t, ps[k + i]) == ls[i]
  }

  lemma ShownBoth(t: string, ps: seq<Piece>, k: nat, a: seq<Lexeme>, b: seq<Lexeme>)
    requires Shown(t, ps, k, a + b)
    ensures Shown(t, ps, k, a) && Shown(t, ps, k + |a|, b)
  {
    forall i | 0 <= i < |a|
      ensures LexemeOf(t, ps[k + i]) == a[i]
    {
      assert (a + b)[i] == a[i];
    }
    forall i | 0 <= i < |b|
      ensures LexemeOf(t, ps[k + |a| + i]) == b[i]
    {
      assert (a + b)[|a| + i] == b[i] && k + (|a| + i) == k + |a| + i;
    }
  }

  lemma ShownOne(t: string, ps: seq<Piece>, k: nat, x: Lexeme)
    requires Shown(t, ps, k, [x])
    ensures k < |ps| && LexemeOf(t, ps[k]) == x && Part(ps, k, k + 1) == [PieceItem(ps[k])]
    ensures x.Chr? ==> PieceItem(ps[k]) == S(x.c)
    ensures x.Txt? ==> PieceItem(ps[k]) == W(ps[k].span) && Cut(t, ps[k].span) == x.w
    ensures x.Twice? ==> PieceItem(ps[k]) == M
  {
    assert LexemeOf(t, ps[k + 0]) == [x][0];
  }

  /** The tokens with numbers a up to b, as the grammar has them. */
  function Part(ps: seq<Piece>, a: nat, b: nat): seq<Item>
    requires a <= b <= |ps|
  {
    ItemsOf(ps)[a..b]
  }

  lemma ShownFits(t: string, ps: seq<Piece>, k: nat, ls: seq<Lexeme>)
    requires Shown(t, ps, k, ls)
    ensures k + |ls| <= |ps| && Part(ps, k, k) == []
  {
  }

  lemma PartJoin(ps: seq<Piece>, a: nat, b: nat, c: nat)
    requires a <= b <= c <= |ps|
    ensures Part(ps, a, b) + Part(ps, b, c) == Part(ps, a, c)
  {
  }

  // ---------------------------------------------------------------- the parse tree

  function SpanAt(ps: seq<Piece>, k: nat): Span { if k < |ps| then ps[k].span else Span(0, 0) }

  function ArgTs(ps: seq<Piece>, k: nat, n: nat): (args: seq<ArgT>)
    ensures |args| == n
    decreases n
  {
    if n == 0 then [] else [ArgT(SpanAt(ps, k), [])] + ArgTs(ps, k + 1, n - 1)
  }

  function InBlock(l: LineT): ExecT { Block(l, []) }

  /** The parse tree of the body of a printed command whose tokens start with number k. */
  function TreeOf(c: Cmd<string>, ps: seq<Piece>, k: nat): LineT {
    match c
    case Exec(argv) => LastPipe(LastExec(Simple([], ArgTs(ps, k, |argv|))), 0)
    case Redir(cmd, file, mode) =>
      var r := Redirection(SpanAt(ps, k + |PrintLex(cmd)| + 1), mode);
      LastPipe(LastExec(Block(TreeOf(cmd, ps, k + 1), [r])), 0)
    case Pipe(left, right) =>
      LastPipe(MorePipe(InBlock(TreeOf(left, ps, k + 1)),
                        LastExec(InBlock(TreeOf(right, ps, k + |PrintLex(left)| + 2)))), 0)
    case List(left, right) =>
      MoreLine(LastExec(InBlock(TreeOf(left, ps, k + 1))), 0,
               LastPipe(LastExec(InBlock(TreeOf(right, ps, k + |PrintLex(left)| + 2))), 0))
    case Back(cmd) => LastPipe(LastExec(InBlock(TreeOf(cmd, ps, k + 1))), 1)
  }

  /** What the tree of c must be. */
  ghost predicate TreeOk(t: string, ps: seq<Piece>, k: nat, n: nat, l: LineT, c: Cmd<string>) {
    k + n <= |ps| && LineOk(l) && LineItems(l) == Part(ps, k, k + n) && Words(t, LineCmd(l)) == c
  }

  ghost predicate BlockOk(t: string, ps: seq<Piece>, k: nat, n: nat, e: ExecT, c: Cmd<string>) {
    k + n <= |ps| && ExecOk(e) && ExecItems(e) == Part(ps, k, k + n) && Words(t, ExecCmd(e)) == c
  }

  lemma ExecLex(argv: seq<string>)
    requires argv != []
    ensures BodyLex(Exec(argv)) == [Txt(argv[0])] + BodyLex(Exec(argv[1..])) && |BodyLex(Exec(argv))| == |argv|
  {
  }

  lemma ArgTreeCons(ps: seq<Piece>, k: nat, n: nat, rest: seq<ArgT>)
    requires k + 1 + n <= |ps| && PieceItem(ps[k]) == W(ps[k].span)
    requires ArgItems(rest) == Part(ps, k + 1, k + 1 + n) && ArgRedirs(rest) == []
    ensures var args := [ArgT(ps[k].span, [])] + rest;
            && ArgItems(args) == Part(ps, k, k + 1 + n) && ArgRedirs(args) == []
            && ArgWords(args) == [ps[k].span] + ArgWords(rest)
  {
    hide ArgItems;
    hide ArgRedirs;
    hide ArgWords;
    ItemsCons(ArgT(ps[k].span, []), rest);
    RedirsCons(ArgT(ps[k].span, []), rest);
    WordsCons(ArgT(ps[k].span, []), rest);
    PartJoin(ps, k, k + 1, k + 1 + n);
    assert RedirItems([]) + ArgItems(rest) == ArgItems(rest);
    assert Part(ps, k, k + 1) == [PieceItem(ps[k])];
  }

  lemma {:induction false} ArgTrees(t: string, ps: seq<Piece>, k: nat, argv: seq<string>)
    requires Shown(t, ps, k, BodyLex(Exec(argv)))
    ensures k + |argv| <= |ps|
    ensures var args := ArgTs(ps, k, |argv|);
            && ArgItems(args) == Part(ps, k, k + |argv|) && ArgRedirs(args) == []
            && Words(t, Exec(ArgWords(args))) == Exec(argv)
    decreases |argv|
  {
    hide Words;
    hide Shown;
    hide Part;
    hide LexemeOf;
    hide PieceItem;
    ShownFits(t, ps, k, BodyLex(Exec(argv)));
    if argv == [] {
      CutsCons(t, [], argv);
    } else {
      var rest := ArgTs(ps, k + 1, |argv| - 1);
      ExecLex(argv);
      hide BodyLex;
      ShownBoth(t, ps, k, [Txt(argv[0])], BodyLex(Exec(argv[1..])));
      ShownOne(t, ps, k, Txt(argv[0]));
      ArgTrees(t, ps, k + 1, argv[1..]);
      ArgTreeCons(ps, k, |argv| - 1, rest);
      hide ArgItems;
      hide ArgRedirs;
      hide ArgWords;
      CutsCons(t, [ps[k].span] + ArgWords(rest), argv);
    }
  }

  lemma CutsCons(t: string, ss: seq<Span>, argv: seq<string>)
    ensures argv == [] ==> Words(t, Exec([])) == Exec(argv)
    ensures argv != [] && ss != [] && Cut(t, ss[0]) == argv[0] && Words(t, Exec(ss[1..])) == Exec(argv[1..]) ==>
              Words(t, Exec(ss)) == Exec(argv)
  {
    if argv != [] && ss != [] && Cut(t, ss[0]) == argv[0] && Words(t, Exec(ss[1..])) == Exec(argv[1..]) {
      var ws, rest := Words(t, Exec(ss)).argv, Words(t, Exec(ss[1..])).argv;
      assert |rest| == |ss| - 1 == |argv| - 1;
      forall i | 0 <= i < |argv|
        ensures ws[i] == argv[i]
      {
        if i > 0 {
          assert ws[i] == rest[i - 1] && argv[i] == argv[1..][i - 1];
        }
      }
      assert ws == argv;
    }
  }

  lemma ExecTree(t: string, ps: seq<Piece>, k: nat, argv: seq<string>)
    requires Shown(t, ps, k, BodyLex(Exec(argv))) && |argv| < MAXARGS
    ensures TreeOk(t, ps, k, |BodyLex(Exec(argv))|, TreeOf(Exec(argv), ps, k), Exec(argv))
  {
    ArgTrees(t, ps, k, argv);
    var args := ArgTs(ps, k, |argv|);
    hide ArgItems;
    hide ArgWords;
    hide ArgRedirs;
    assert RedirItems([]) + ArgItems(args) == ArgItems(args);
    var e := Simple([], args);
    assert [] + ArgRedirs(args) == [];
    assert ExecCmd(e) == Exec(ArgWords(args));
    assert Words(t, ExecCmd(e)) == Exec(argv);
    LastLine(e);
  }

  /** A line that is one command. */
  lemma LastLine(e: ExecT)
    ensures LineItems(LastPipe(LastExec(e), 0)) == ExecItems(e)
    ensures LineCmd(LastPipe(LastExec(e), 0)) == ExecCmd(e)
    ensures ExecOk(e) ==> LineOk(LastPipe(LastExec(e), 0))
  {
    assert ExecItems(e) + AmpItems(0) == ExecItems(e);
  }

  /** A part in parentheses. */
  lemma BlockTree(t: string, ps: seq<Piece>, k: nat, l: LineT, c: Cmd<string>)
    requires Shown(t, ps, k, PrintLex(c)) && TreeOk(t, ps, k + 1, |BodyLex(c)|, l, c)
    ensures BlockOk(t, ps, k, |PrintLex(c)|, InBlock(l), c)
  {
    hide LineItems;
    hide LineCmd;
    hide LineOk;
    hide Words;
    hide Shown;
    hide Part;
    hide BodyLex;
    var n := |BodyLex(c)|;
    ShownBoth(t, ps, k, [Chr('(')], BodyLex(c) + [Chr(')')]);
    ShownOne(t, ps, k, Chr('('));
    ShownBoth(t, ps, k + 1, BodyLex(c), [Chr(')')]);
    ShownOne(t, ps, k + 1 + n, Chr(')'));
    PartJoin(ps, k, k + 1, k + 1 + n);
    PartJoin(ps, k, k + 1 + n, k + 2 + n);
    assert [S(')')] + RedirItems([]) == [S(')')];
    assert [S('(')] + (LineItems(l) + [S(')')]) == [S('(')] + LineItems(l) + [S(')')];
  }

  lemma RedirCompose(t: string, ps: seq<Piece>, k: nat, n: nat, l: LineT, cmd: Cmd<string>, file: string, mode: Mode)
    requires BlockOk(t, ps, k, n, InBlock(l), cmd) && Shown(t, ps, k + n, [ModeLex(mode), Txt(file)])
    ensures var e := Block(l, [Redirection(SpanAt(ps, k + n + 1), mode)]);
            TreeOk(t, ps, k, n + 2, LastPipe(LastExec(e), 0), Redir(cmd, file, mode))
  {
    hide LineItems;
    hide LineCmd;
    hide LineOk;
    var r := Redirection(SpanAt(ps, k + n + 1), mode);
    assert [ModeLex(mode), Txt(file)] == [ModeLex(mode)] + [Txt(file)];
    ShownBoth(t, ps, k + n, [ModeLex(mode)], [Txt(file)]);
    ShownOne(t, ps, k + n, ModeLex(mode));
    ShownOne(t, ps, k + n + 1, Txt(file));
    PartJoin(ps, k + n, k + n + 1, k + n + 2);
    PartJoin(ps, k, k + n, k + n + 2);
    assert RedirItems([r]) == [OpItem(mode), W(r.file)];
    assert ExecItems(Block(l, [r])) == ExecItems(InBlock(l)) + RedirItems([r]);
    assert Wrap(LineCmd(l), [r]) == Redir(Wrap(LineCmd(l), []), r.file, mode);
    LastLine(Block(l, [r]));
  }

  lemma PipeShape(e: ExecT, f: ExecT)
    ensures var l := LastPipe(MorePipe(e, LastExec(f)), 0);
            && LineItems(l) == ExecItems(e) + ([S('|')] + ExecItems(f)) && LineCmd(l) == Pipe(ExecCmd(e), ExecCmd(f))
            && (LineOk(l) <==> ExecOk(e) && ExecOk(f))
  {
    var p := MorePipe(e, LastExec(f));
    assert PipeItems(LastExec(f)) == ExecItems(f) && PipeCmd(LastExec(f)) == ExecCmd(f);
    assert PipeOk(LastExec(f)) <==> ExecOk(f);
    assert PipeItems(p) + AmpItems(0) == PipeItems(p);
  }

  lemma ListShape(e: ExecT, f: ExecT)
    ensures var l := MoreLine(LastExec(e), 0, LastPipe(LastExec(f), 0));
            && LineItems(l) == ExecItems(e) + ([S(';')] + ExecItems(f)) && LineCmd(l) == List(ExecCmd(e), ExecCmd(f))
            && (ExecOk(e) && ExecOk(f) ==> LineOk(l))
  {
    LastLine(f);
    assert PipeItems(LastExec(e)) == ExecItems(e) && PipeCmd(LastExec(e)) == ExecCmd(e);
    assert PipeOk(LastExec(e)) <==> ExecOk(e);
    assert AmpItems(0) + ([S(';')] + ExecItems(f)) == [S(';')] + ExecItems(f);
  }

  lemma PipeCompose(t: string, ps: seq<Piece>, k: nat, n: nat, m: nat, e: ExecT, f: ExecT, left: Cmd<string>,
                    right: Cmd<string>)
    requires BlockOk(t, ps, k, n, e, left) && Shown(t, ps, k + n, [Chr('|')]) && BlockOk(t, ps, k + n + 1, m, f, right)
    ensures TreeOk(t, ps, k, n + 1 + m, LastPipe(MorePipe(e, LastExec(f)), 0), Pipe(left, right))
  {
    PipeShape(e, f);
    hide ExecItems;
    hide ExecCmd;
    hide LineItems;
    hide LineCmd;
    hide LineOk;
    ShownOne(t, ps, k + n, Chr('|'));
    PartJoin(ps, k + n, k + n + 1, k + n + 1 + m);
    PartJoin(ps, k, k + n, k + n + 1 + m);
  }

  lemma ListCompose(t: string, ps: seq<Piece>, k: nat, n: nat, m: nat, e: ExecT, f: ExecT, left: Cmd<string>,
                    right: Cmd<string>)
    requires BlockOk(t, ps, k, n, e, left) && Shown(t, ps, k + n, [Chr(';')]) && BlockOk(t, ps, k + n + 1, m, f, right)
    ensures TreeOk(t, ps, k, n + 1 + m, MoreLine(LastExec(e), 0, LastPipe(LastExec(f), 0)), List(left, right))
  {
    ListShape(e, f);
    hide ExecItems;
    hide ExecCmd;
    hide LineItems;
    hide LineCmd;
    hide LineOk;
    ShownOne(t, ps, k + n, Chr(';'));
    PartJoin(ps, k + n, k + n + 1, k + n + 1 + m);
    PartJoin(ps, k, k + n, k + n + 1 + m);
  }

  lemma BackCompose(t: string, ps: seq<Piece>, k: nat, n: nat, e: ExecT, cmd: Cmd<string>)
    requires BlockOk(t, ps, k, n, e, cmd) && Shown(t, ps, k + n, [Chr('&')])
    ensures TreeOk(t, ps, k, n + 1, LastPipe(LastExec(e), 1), Back(cmd))
  {
    hide ExecItems;
    hide ExecCmd;
    hide ExecOk;
    ShownOne(t, ps, k + n, Chr('&'));
    PartJoin(ps, k, k + n, k + n + 1);
    assert AmpItems(1) == [S('&')] + AmpItems(0) == [S('&')];
    assert PipeItems(LastExec(e)) == ExecItems(e) && PipeCmd(LastExec(e)) == ExecCmd(e) && PipeOk(LastExec(e));
    assert Backs(ExecCmd(e), 1) == Backs(Back(ExecCmd(e)), 0) == Back(ExecCmd(e));
  }

  /** The tokens from number k on, if they look like the body of c, have a parse tree for c. */
  lemma {:induction false} BodyTree(t: string, ps: seq<Piece>, k: nat, c: Cmd<string>)
    requires Shown(t, ps, k, BodyLex(c)) && Fits(c)
    ensures TreeOk(t, ps, k, |BodyLex(c)|, TreeOf(c, ps, k), c)
    decreases c, 1
  {
    hide TreeOk;
    hide BlockOk;
    hide Shown;
    hide PrintLex;
    match c
    case Exec(argv) => ExecTree(t, ps, k, argv);
    case Redir(cmd, file, mode) =>
      ShownBoth(t, ps, k, PrintLex(cmd), [ModeLex(mode), Txt(file)]);
      PrintTree(t, ps, k, cmd);
      RedirCompose(t, ps, k, |PrintLex(cmd)|, TreeOf(cmd, ps, k + 1), cmd, file, mode);
    case Pipe(left, right) =>
      var e, f := BothTrees(t, ps, k, left, '|', right, c);
      PipeCompose(t, ps, k, |PrintLex(left)|, |PrintLex(right)|, e, f, left, right);
    case List(left, right) =>
      var e, f := BothTrees(t, ps, k, left, ';', right, c);
      ListCompose(t, ps, k, |PrintLex(left)|, |PrintLex(right)|, e, f, left, right);
    case Back(cmd) =>
      ShownBoth(t, ps, k, PrintLex(cmd), [Chr('&')]);
      PrintTree(t, ps, k, cmd);
      BackCompose(t, ps, k, |PrintLex(cmd)|, InBlock(TreeOf(cmd, ps, k + 1)), cmd);
  }

  lemma {:induction false} BothTrees(t: string, ps: seq<Piece>, k: nat, left: Cmd<string>, x: char, right: Cmd<string>,
                                     c: Cmd<string>) returns (e: ExecT, f: ExecT)
    requires c == Pipe(left, right) || c == List(left, right)
    requires Shown(t, ps, k, PrintLex(left) + ([Chr(x)] + PrintLex(right))) && Fits(left) && Fits(right)
    ensures e == InBlock(TreeOf(left, ps, k + 1)) && f == InBlock(TreeOf(right, ps, k + |PrintLex(left)| + 2))
    ensures BlockOk(t, ps, k, |PrintLex(left)|, e, left) && Shown(t, ps, k + |PrintLex(left)|, [Chr(x)])
    ensures BlockOk(t, ps, k + |PrintLex(left)| + 1, |PrintLex(right)|, f, right)
    decreases c, 0
  {
    hide BlockOk;
    hide Shown;
    hide PrintLex;
    hide TreeOf;
    var m := k + |PrintLex(left)|;
    e, f := InBlock(TreeOf(left, ps, k + 1)), InBlock(TreeOf(right, ps, m + 2));
    ShownBoth(t, ps, k, PrintLex(left), [Chr(x)] + PrintLex(right));
    ShownBoth(t, ps, m, [Chr(x)], PrintLex(right));
    PrintTree(t, ps, k, left);
    PrintTree(t, ps, m + 1, right);
  }

  lemma {:induction false} PrintTree(t: string, ps: seq<Piece>, k: nat, c: Cmd<string>)
    requires Shown(t, ps, k, PrintLex(c)) && Fits(c)
    ensures BlockOk(t, ps, k, |PrintLex(c)|, InBlock(TreeOf(c, ps, k + 1)), c)
    decreases c, 2
  {
    hide TreeOf;
    hide BlockOk;
    hide TreeOk;
    hide Fits;
    hide Shown;
    ShownBoth(t, ps, k, [Chr('(')], BodyLex(c) + [Chr(')')]);
    ShownBoth(t, ps, k + 1, BodyLex(c), [Chr(')')]);
    BodyTree(t, ps, k + 1, c);
    BlockTree(t, ps, k, TreeOf(c, ps, k + 1), c);
  }

  /** A text that is the tokens of a printed command, with any spaces, tabs, carriage returns, line
      feeds and vertical tabs before, between and after them, parses to that command. */
  lemma SpacedRoundTrip(c: Cmd<string>, t: string, ps: seq<Piece>)
    requires IsText(t) && Fits(c) && CutFrom(t, 0, ps) && |ps| == |PrintLex(c)| && Shown(t, ps, 0, PrintLex(c))
    ensures ParseCmd(t).Some? && Words(t, ParseCmd(t).value) == c
  {
    hide ParseCmd;
    hide PrintLex;
    hide Shown;
    PrintTree(t, ps, 0, c);
    hide TreeOf;
    hide Fits;
    var e := InBlock(TreeOf(c, ps, 1));
    var l := LastPipe(LastExec(e), 0);
    LastLine(e);
    hide ExecItems;
    hide LineItems;
    hide LineCmd;
    hide ExecCmd;
    hide LineOk;
    hide Words;
    hide CutFrom;
    assert Part(ps, 0, |ps|) == ItemsOf(ps);
    assert Sentence(t, l, ps, LineCmd(l));
    ParsesIffDerives(t, LineCmd(l));
  }
}
