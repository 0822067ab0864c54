/** The command parser of user/sh.c.  The text ends with a NUL, which no earlier position
    holds; a position is an index into it.  A parser that panics has no result. */
module Shell {
  import opened Options

  const MAXARGS := 10
  const NUL := '\0'

  /** A counted string: the positions of its first character and of the one after its last. */
  datatype Span = Span(q: nat, eq: nat)

  /** Redirections: O_RDONLY on 0, O_WRONLY|O_CREATE|O_TRUNC on 1, O_WRONLY|O_CREATE on 1. */
  datatype Mode = In | Out | Append

  datatype Cmd<W> =
    | Exec(argv: seq<W>)
    | Redir(cmd: Cmd<W>, file: W, mode: Mode)
    | Pipe(left: Cmd<W>, right: Cmd<W>)
    | List(left: Cmd<W>, right: Cmd<W>)
    | Back(cmd: Cmd<W>)

  predicate IsSpace(c: char) { c == ' ' || c == '\t' || c == '\r' || c == '\n' || c == '\U{0b}' }
  predicate IsSymbol(c: char) { c == '<' || c == '|' || c == '>' || c == '&' || c == ';' || c == '(' || c == ')' }
  predicate IsWord(c: char) { !IsSpace(c) && !IsSymbol(c) && c != NUL }

  /** The text proper, without the NUL at its end. */
  predicate IsText(t: string) { NUL !in t }

  function At(t: string, i: nat): char { if i < |t| then t[i] else NUL }

  // ---------------------------------------------------------------- tokens

  function Skip(t: string, i: nat): (r: nat)
    requires i <= |t|
    ensures i <= r <= |t| && !IsSpace(At(t, r)) && (!IsSpace(At(t, i)) ==> r == i)
    decreases |t| - i
  {
    if i < |t| && IsSpace(t[i]) then Skip(t, i + 1) else i
  }

  function WordEnd(t: string, i: nat): (r: nat)
    requires i <= |t| && IsText(t)
    ensures i <= r <= |t| && !IsWord(At(t, r)) && forall j :: i <= j < r ==> IsWord(t[j])
    decreases |t| - i
  {
    if i < |t| && !IsSpace(t[i]) && !IsSymbol(t[i]) then WordEnd(t, i + 1) else i
  }

  datatype Token = Eof | Sym(c: char) | More | Word

  datatype Lex = Lex(tok: Token, span: Span, pos: nat)

  /** gettoken(). */
  function GetToken(t: string, pos: nat): (r: Lex)
    requires pos <= |t| && IsText(t)
    ensures pos <= r.pos <= |t| && (r.tok != Eof ==> pos < r.pos) && !IsSpace(At(t, r.pos))
    ensures r.tok == Word ==> SpanOk(t, r.span)
  {
    var s := Skip(t, pos);
    var c := At(t, s);
    if c == NUL then Lex(Eof, Span(s, s), s)
    else if c == '>' && At(t, s + 1) == '>' then Lex(More, Span(s, s + 2), Skip(t, s + 2))
    else if IsSymbol(c) then Lex(Sym(c), Span(s, s + 1), Skip(t, s + 1))
    else
      var e := WordEnd(t, s);
      assert WordEnd(t, s) == WordEnd(t, s + 1);
      Lex(Word, Span(s, e), Skip(t, e))
  }

  /** A token's text: word characters, with something else after them. */
  ghost predicate SpanOk(t: string, s: Span) {
    s.q < s.eq <= |t| && (forall j :: s.q <= j < s.eq ==> IsWord(t[j])) && !IsWord(At(t, s.eq))
  }

  /** peek(): the next character that is not a space, if it is one of toks. */
  predicate Peek(t: string, pos: nat, toks: set<char>)
    requires pos <= |t|
  {
    At(t, Skip(t, pos)) != NUL && At(t, Skip(t, pos)) in toks
  }

  // ---------------------------------------------------------------- the parser

  datatype Redirection = Redirection(file: Span, mode: Mode)
  datatype Redirs = Redirs(rs: seq<Redirection>, pos: nat)
  datatype Parsed = Parsed(cmd: Cmd<Span>, pos: nat)
  datatype Args = Args(argv: seq<Span>, rs: seq<Redirection>, pos: nat)

  /** parseredirs(): the redirections, the first one innermost. */
  function ParseRedirs(t: string, pos: nat): (r: Option<Redirs>)
    requires pos <= |t| && IsText(t)
    ensures r.Some? ==> pos <= r.value.pos <= |t|
    ensures r.Some? ==> forall i :: 0 <= i < |r.value.rs| ==> SpanOk(t, r.value.rs[i].file)
    decreases |t| - pos
  {
    if !Peek(t, pos, {'<', '>'}) then Some(Redirs([], Skip(t, pos)))
    else
      var tok := GetToken(t, pos);
      var file := GetToken(t, tok.pos);
      if file.tok != Word then None
      else
        var mode := if tok.tok == Sym('<') then In else if tok.tok == More then Append else Out;
        match ParseRedirs(t, file.pos)
        case None => None
        case Some(rest) => Some(Redirs([Redirection(file.span, mode)] + rest.rs, rest.pos))
  }

  function Apply(c: Cmd<Span>, rs: seq<Redirection>): Cmd<Span>
    decreases |rs|
  {
    if rs == [] then c else Apply(Redir(c, rs[0].file, rs[0].mode), rs[1..])
  }

  /** The loop of parseexec(). */
  function ParseArgs(t: string, pos: nat, argv: seq<Span>, rs: seq<Redirection>): (r: Option<Args>)
    requires pos <= |t| && IsText(t)
    ensures r.Some? ==> pos <= r.value.pos <= |t| && |argv| <= |r.value.argv|
    decreases |t| - pos
  {
    if Peek(t, pos, {'|', ')', '&', ';'}) then Some(Args(argv, rs, Skip(t, pos)))
    else
      var tk := GetToken(t, pos);
      if tk.tok == Eof then Some(Args(argv, rs, tk.pos))
      else if tk.tok != Word then None
      else if |argv| + 1 >= MAXARGS then None
      else
        match ParseRedirs(t, tk.pos)
        case None => None
        case Some(more) => ParseArgs(t, more.pos, argv + [tk.span], rs + more.rs)
  }

  function ParseExec(t: string, pos: nat): (r: Option<Parsed>)
    requires pos <= |t| && IsText(t)
    ensures r.Some? ==> pos <= r.value.pos <= |t|
    decreases |t| - pos, 2
  {
    if Peek(t, pos, {'('}) then ParseBlock(t, pos)
    else
      match ParseRedirs(t, pos)
      case None => None
      case Some(first) =>
        match ParseArgs(t, first.pos, [], first.rs)
        case None => None
        case Some(a) => Some(Parsed(Apply(Exec(a.argv), a.rs), a.pos))
  }

  /** A line in parentheses, up to and including the closing one. */
  function ParseParen(t: string, pos: nat): (r: Option<Parsed>)
    requires pos <= |t| && IsText(t) && Peek(t, pos, {'('})
    ensures r.Some? ==> pos <= r.value.pos <= |t|
    decreases |t| - pos, 0
  {
    match ParseLine(t, GetToken(t, pos).pos)
    case None => None
    case Some(p) =>
      if !Peek(t, p.pos, {')'}) then None else Some(Parsed(p.cmd, GetToken(t, p.pos).pos))
  }

  function ParseBlock(t: string, pos: nat): (r: Option<Parsed>)
    requires pos <= |t| && IsText(t) && Peek(t, pos, {'('})
    ensures r.Some? ==> pos <= r.value.pos <= |t|
    decreases |t| - pos, 1
  {
    match ParseParen(t, pos)
    case None => None
    case Some(p) =>
      match ParseRedirs(t, p.pos)
      case None => None
      case Some(r) => Some(Parsed(Apply(p.cmd, r.rs), r.pos))
  }

  function ParsePipe(t: string, pos: nat): (r: Option<Parsed>)
    requires pos <= |t| && IsText(t)
    ensures r.Some? ==> pos <= r.value.pos <= |t|
    decreases |t| - pos, 3
  {
    match ParseExec(t, pos)
    case None => None
    case Some(p) =>
      if !Peek(t, p.pos, {'|'}) then Some(p)
      else
        match ParsePipe(t, GetToken(t, p.pos).pos)
        case None => None
        case Some(right) => Some(Parsed(Pipe(p.cmd, right.cmd), right.pos))
  }

  /** The loop over '&' in parseline(). */
  function ParseBacks(t: string, pos: nat, c: Cmd<Span>): (r: Parsed)
    requires pos <= |t| && IsText(t)
    ensures pos <= r.pos <= |t|
    decreases |t| - pos
  {
    if Peek(t, pos, {'&'}) then ParseBacks(t, GetToken(t, pos).pos, Back(c)) else Parsed(c, pos)
  }

  function ParseLine(t: string, pos: nat): (r: Option<Parsed>)
    requires pos <= |t| && IsText(t)
    ensures r.Some? ==> pos <= r.value.pos <= |t|
    decreases |t| - pos, 4
  {
    match ParsePipe(t, pos)
    case None => None
    case Some(p) =>
      var b := ParseBacks(t, p.pos, p.cmd);
      if !Peek(t, b.pos, {';'}) then Some(b)
      else
        match ParseLine(t, GetToken(t, b.pos).pos)
        case None => None
        case Some(right) => Some(Parsed(List(b.cmd, right.cmd), right.pos))
  }

  /** parsecmd(), up to nulterminate(): the whole text, or a syntax error. */
  function ParseCmd(t: string): Option<Cmd<Span>>
    requires IsText(t)
  {
    match ParseLine(t, 0)
    case None => None
    case Some(p) => if Skip(t, p.pos) == |t| then Some(p.cmd) else None
  }

  // ---------------------------------------------------------------- printing

  predicate WordOk(w: string) { |w| > 0 && forall i :: 0 <= i < |w| ==> IsWord(w[i]) }

  /** Commands that can be written down: proper words, and fewer than MAXARGS of them. */
  predicate Printable(c: Cmd<string>) {
    match c
    case Exec(argv) => |argv| < MAXARGS && forall i :: 0 <= i < |argv| ==> WordOk(argv[i])
    case Redir(cmd, file, mode) => Printable(cmd) && WordOk(file)
    case Pipe(left, right) => Printable(left) && Printable(right)
    case List(left, right) => Printable(left) && Printable(right)
    case Back(cmd) => Printable(cmd)
  }

  function Join(ws: seq<string>): string {
    if ws == [] then "" else if |ws| == 1 then ws[0] else ws[0] + " " + Join(ws[1..])
  }

  function ModeText(m: Mode): string {
    match m
    case In => "<"
    case Out => ">"
    case Append => ">>"
  }

  /** The command with every part in parentheses. */
  function Print(c: Cmd<string>): string
    decreases c, 1
  {
    "(" + Body(c) + ")"
  }

  function Body(c: Cmd<string>): string
    decreases c, 0
  {
    match c
    case Exec(argv) => Join(argv)
    case Redir(cmd, file, mode) => Print(cmd) + ModeText(mode) + file
    case Pipe(left, right) => Print(left) + "|" + Print(right)
    case List(left, right) => Print(left) + ";" + Print(right)
    case Back(cmd) => Print(cmd) + "&"
  }

  /** The words of a command cut out of the text. */
  function Cut(t: string, s: Span): string { if s.q <= s.eq <= |t| then t[s.q..s.eq] else "" }

  function Words(t: string, c: Cmd<Span>): Cmd<string> {
    match c
    case Exec(argv) => Exec(seq(|argv|, i requires 0 <= i < |argv| => Cut(t, argv[i])))
    case Redir(cmd, file, mode) => Redir(Words(t, cmd), Cut(t, file), mode)
    case Pipe(left, right) => Pipe(Words(t, left), Words(t, right))
    case List(left, right) => List(Words(t, left), Words(t, right))
    case Back(cmd) => Back(Words(t, cmd))
  }

  /** Where the words of the printed command are, if its body starts at pos. */
  function Locate(c: Cmd<string>, pos: nat): Cmd<Span> {
    match c
    case Exec(argv) => Exec(Spans(pos, argv))
    case Redir(cmd, file, mode) =>
      var q := pos + |Print(cmd)| + |ModeText(mode)|;
      Redir(Locate(cmd, pos + 1), Span(q, q + |file|), mode)
    case Pipe(left, right) => Pipe(Locate(left, pos + 1), Locate(right, pos + |Print(left)| + 2))
    case List(left, right) => List(Locate(left, pos + 1), Locate(right, pos + |Print(left)| + 2))
    case Back(cmd) => Back(Locate(cmd, pos + 1))
  }

  function Spans(pos: nat, ws: seq<string>): seq<Span>
    decreases |ws|
  {
    if ws == [] then [] else [Span(pos, pos + |ws[0]|)] + Spans(pos + |ws[0]| + 1, ws[1..])
  }

  // ---------------------------------------------------------------- tokens in a text

  /** The text has w at pos. */
  predicate Has(t: string, pos: nat, w: string) {
    pos + |w| <= |t| && t[pos..pos + |w|] == w
  }

  lemma HasBoth(t: string, pos: nat, a: string, b: string)
    requires Has(t, pos, a + b)
    ensures Has(t, pos, a) && Has(t, pos + |a|, b)
  {
    assert t[pos..pos + |a|] == (a + b)[..|a|] == a;
    assert t[pos + |a|..pos + |a| + |b|] == (a + b)[|a|..] == b;
  }

  lemma HasChar(t: string, pos: nat, w: string, i: nat)
    requires Has(t, pos, w) && i < |w|
    ensures At(t, pos + i) == w[i]
  {
    assert t[pos + i] == t[pos..pos + |w|][i];
  }

  lemma {:induction false} WordEndAt(t: string, i: nat, e: nat)
    requires IsText(t) && i <= e <= |t| && (forall j :: i <= j < e ==> IsWord(t[j])) && !IsWord(At(t, e))
    ensures WordEnd(t, i) == e
    decreases e - i
  {
    if i < e {
      WordEndAt(t, i + 1, e);
    }
  }

  lemma WordToken(t: string, pos: nat, w: string)
    requires IsText(t) && Has(t, pos, w) && WordOk(w) && !IsWord(At(t, pos + |w|))
    ensures GetToken(t, pos) == Lex(Word, Span(pos, pos + |w|), Skip(t, pos + |w|))
  {
    forall j | pos <= j < pos + |w|
      ensures IsWord(t[j])
    {
      HasChar(t, pos, w, j - pos);
    }
    WordEndAt(t, pos, pos + |w|);
  }

  lemma SymToken(t: string, pos: nat, c: char)
    requires IsText(t) && pos < |t| && t[pos] == c && IsSymbol(c) && (c == '>' ==> At(t, pos + 1) != '>')
    ensures GetToken(t, pos) == Lex(Sym(c), Span(pos, pos + 1), Skip(t, pos + 1))
  {
  }

  // ---------------------------------------------------------------- the arguments

  lemma NoRedirs(t: string, pos: nat)
    requires IsText(t) && pos <= |t| && !IsSpace(At(t, pos)) && At(t, pos) != '<' && At(t, pos) != '>'
    ensures ParseRedirs(t, pos) == Some(Redirs([], pos))
  {
  }

  lemma ArgStep(t: string, pos: nat, w: string, argv: seq<Span>)
    requires IsText(t) && Has(t, pos, w) && WordOk(w) && !IsWord(At(t, pos + |w|)) && |argv| + 1 < MAXARGS
    requires At(t, Skip(t, pos + |w|)) != '<' && At(t, Skip(t, pos + |w|)) != '>'
    ensures ParseArgs(t, pos, argv, []) == ParseArgs(t, Skip(t, pos + |w|), argv + [Span(pos, pos + |w|)], [])
  {
    HasChar(t, pos, w, 0);
    WordToken(t, pos, w);
    NoRedirs(t, Skip(t, pos + |w|));
    var none: seq<Redirection> := [];
    assert none + none == none;
  }

  lemma ArgsEnd(t: string, pos: nat, argv: seq<Span>)
    requires IsText(t) && pos < |t| && t[pos] == ')'
    ensures ParseArgs(t, pos, argv, []) == Some(Args(argv, [], pos))
  {
  }

  lemma JoinFirst(ws: seq<string>)
    requires |ws| > 0 && forall i :: 0 <= i < |ws| ==> WordOk(ws[i])
    ensures |Join(ws)| > 0 && IsWord(Join(ws)[0])
  {
    assert WordOk(ws[0]);
  }

  /** The first of several words, a space, and the others. */
  lemma JoinSplit(t: string, pos: nat, ws: seq<string>)
    requires IsText(t) && Has(t, pos, Join(ws)) && |ws| > 1 && forall i :: 0 <= i < |ws| ==> WordOk(ws[i])
    ensures var e := pos + |ws[0]|;
            && Has(t, pos, ws[0]) && e < |t| && t[e] == ' ' && Skip(t, e) == e + 1
            && Has(t, e + 1, Join(ws[1..])) && IsWord(At(t, e + 1)) && |Join(ws)| == |ws[0]| + 1 + |Join(ws[1..])|
  {
    var w, rest := ws[0], ws[1..];
    var e := pos + |w|;
    assert Join(ws) == w + (" " + Join(rest));
    HasBoth(t, pos, w, " " + Join(rest));
    HasBoth(t, e, " ", Join(rest));
    HasChar(t, e, " ", 0);
    JoinFirst(rest);
    HasChar(t, e + 1, Join(rest), 0);
    SkipOne(t, e);
  }

  lemma SpansCons(pos: nat, ws: seq<string>, argv: seq<Span>)
    requires |ws| > 0
    ensures argv + Spans(pos, ws) == argv + [Span(pos, pos + |ws[0]|)] + Spans(pos + |ws[0]| + 1, ws[1..])
  {
  }

  lemma JoinShort(t: string, pos: nat, ws: seq<string>)
    ensures ws == [] ==> |Join(ws)| == 0 && Spans(pos, ws) == []
    ensures |ws| == 1 ==> Join(ws) == ws[0]
  {
  }

  lemma LastSkip(t: string, end: nat)
    requires At(t, end) == ')'
    ensures end < |t| && t[end] == ')' && Skip(t, end) == end && !IsWord(At(t, end))
  {
  }

  lemma NextWord(t: string, pos: nat)
    requires IsWord(At(t, pos))
    ensures At(t, pos) != '<' && At(t, pos) != '>'
  {
  }

  /** parseexec() reads the joined words one by one. */
  lemma {:induction false} ArgsBack(t: string, pos: nat, ws: seq<string>, argv: seq<Span>, end: nat)
    requires IsText(t) && Has(t, pos, Join(ws)) && end == pos + |Join(ws)| && At(t, end) == ')'
    requires |argv| + |ws| < MAXARGS && forall i :: 0 <= i < |ws| ==> WordOk(ws[i])
    ensures ParseArgs(t, pos, argv, []) == Some(Args(argv + Spans(pos, ws), [], end))
    decreases |ws|
  {
    hide ParseArgs;
    hide Skip;
    hide IsText;
    hide Join;
    hide Spans;
    hide Has;
    JoinShort(t, pos, ws);
    if ws == [] {
      assert argv + Spans(pos, ws) == argv;
      ArgsEnd(t, pos, argv);
    } else {
      var w, rest := ws[0], ws[1..];
      var e := pos + |w|;
      assert WordOk(w);
      SpansCons(pos, ws, argv);
      hide WordOk;
      if rest == [] {
        JoinShort(t, e + 1, rest);
        LastSkip(t, end);
        ArgStep(t, pos, w, argv);
        ArgsEnd(t, end, argv + [Span(pos, e)]);
        assert argv + [Span(pos, e)] + Spans(e + 1, rest) == argv + [Span(pos, e)];
      } else {
        JoinSplit(t, pos, ws);
        NextWord(t, e + 1);
        ArgStep(t, pos, w, argv);
        ArgsBack(t, e + 1, rest, argv + [Span(pos, e)], end);
      }
    }
  }

  lemma SkipOne(t: string, e: nat)
    requires e < |t| && IsSpace(t[e]) && !IsSpace(At(t, e + 1))
    ensures Skip(t, e) == e + 1
  {
  }

  // ---------------------------------------------------------------- parsing what was printed

  /** The character after a printed part, where the parser must stop. */
  predicate Stop(c: char) { c == NUL || c == ')' || c == '|' || c == ';' || c == '&' }

  /** The body starts with a word, an opening parenthesis, or the closing one if it is empty. */
  lemma BodyFirst(t: string, pos: nat, c: Cmd<string>)
    requires Printable(c) && Has(t, pos, Body(c)) && At(t, pos + |Body(c)|) == ')'
    ensures pos <= |t| && !IsSpace(At(t, pos)) && At(t, pos) != '<' && At(t, pos) != '>'
    ensures c.Exec? ==> At(t, pos) != '('
    ensures !c.Exec? ==> At(t, pos) == '('
  {
    if c.Exec? {
      if c.argv != [] {
        JoinFirst(c.argv);
        HasChar(t, pos, Body(c), 0);
      }
    } else {
      assert Body(c)[0] == '(';
      HasChar(t, pos, Body(c), 0);
    }
  }

  /** A line in parentheses gives back its command. */
  lemma {:induction false} ParenBack(t: string, pos: nat, c: Cmd<string>, end: nat)
    requires IsText(t) && Printable(c) && Has(t, pos, Print(c)) && end == pos + |Print(c)| && !IsSpace(At(t, end))
    ensures pos < |t| && t[pos] == '(' && Peek(t, pos, {'('})
    ensures ParseParen(t, pos) == Some(Parsed(Locate(c, pos + 1), end))
    decreases c, 2
  {
    var m := end - 1;
    ParenParts(t, pos, c, m);
    hide Print;
    hide Body;
    hide Has;
    hide ParseParen;
    hide ParseLine;
    hide Locate;
    hide GetToken;
    BodyFirst(t, pos + 1, c);
    SymToken(t, pos, '(');
    LineBack(t, pos + 1, c, m);
    SymToken(t, m, ')');
    ParenLine(t, pos, Locate(c, pos + 1), m, end);
  }

  lemma ParenParts(t: string, pos: nat, c: Cmd<string>, m: nat)
    requires Has(t, pos, Print(c)) && m == pos + |Print(c)| - 1
    ensures pos < m < |t| && t[pos] == '(' && t[m] == ')'
    ensures Has(t, pos + 1, Body(c)) && m == pos + 1 + |Body(c)|
  {
    assert Print(c) == "(" + (Body(c) + ")");
    HasBoth(t, pos, "(", Body(c) + ")");
    HasBoth(t, pos + 1, Body(c), ")");
    HasChar(t, pos, "(", 0);
    HasChar(t, m, ")", 0);
  }

  lemma ParenLine(t: string, pos: nat, c: Cmd<Span>, m: nat, end: nat)
    requires IsText(t) && pos < |t| && t[pos] == '(' && GetToken(t, pos).pos == pos + 1 <= |t|
    requires ParseLine(t, pos + 1) == Some(Parsed(c, m)) && m < |t| && t[m] == ')' && GetToken(t, m).pos == end
    ensures Peek(t, pos, {'('}) && ParseParen(t, pos) == Some(Parsed(c, end))
  {
    hide ParseLine;
    hide GetToken;
  }

  /** A part in parentheses, not followed by a redirection, is a whole simple command. */
  lemma {:induction false} ExecBack(t: string, pos: nat, c: Cmd<string>, end: nat)
    requires IsText(t) && Printable(c) && Has(t, pos, Print(c)) && end == pos + |Print(c)| && Stop(At(t, end))
    ensures pos < |t| && t[pos] == '(' && ParseExec(t, pos) == Some(Parsed(Locate(c, pos + 1), end))
    decreases c, 3
  {
    ParenBack(t, pos, c, end);
    NoRedirs(t, end);
    hide ParseParen;
    hide ParseRedirs;
    hide Locate;
  }

  lemma {:induction false} PipeBack(t: string, pos: nat, c: Cmd<string>, end: nat)
    requires IsText(t) && Printable(c) && Has(t, pos, Print(c)) && end == pos + |Print(c)|
    requires Stop(At(t, end)) && At(t, end) != '|'
    ensures pos < |t| && t[pos] == '(' && ParsePipe(t, pos) == Some(Parsed(Locate(c, pos + 1), end))
    decreases c, 4
  {
    hide ParseExec;
    hide Locate;
    hide Print;
    hide GetToken;
    hide Has;
    ExecBack(t, pos, c, end);
  }

  /** At a closing parenthesis a line ends. */
  lemma LineEnds(t: string, pos: nat, c: Cmd<Span>, end: nat)
    requires IsText(t) && pos <= |t| && ParsePipe(t, pos) == Some(Parsed(c, end)) && At(t, end) == ')'
    ensures ParseLine(t, pos) == Some(Parsed(c, end))
  {
    hide ParsePipe;
  }

  /** The body of a printed command parses as that command. */
  lemma {:induction false} LineBack(t: string, pos: nat, c: Cmd<string>, end: nat)
    requires IsText(t) && Printable(c) && Has(t, pos, Body(c)) && end == pos + |Body(c)| && At(t, end) == ')'
    ensures ParseLine(t, pos) == Some(Parsed(Locate(c, pos), end))
    decreases c, 1
  {
    hide ParseLine;
    hide Locate;
    match c
    case Exec(argv) => LineExec(t, pos, argv, end);
    case Redir(cmd, file, mode) => LineBackRedir(t, pos, cmd, file, mode, c, end);
    case Pipe(left, right) => LineBackPipe(t, pos, left, right, c, end);
    case List(left, right) => LineBackList(t, pos, left, right, c, end);
    case Back(cmd) => LineBackAmp(t, pos, cmd, c, end);
  }

  lemma {:induction false} LineBackRedir(t: string, pos: nat, cmd: Cmd<string>, file: string, mode: Mode,
                                         c: Cmd<string>, end: nat)
    requires IsText(t) && Printable(c) && Has(t, pos, Body(c)) && end == pos + |Body(c)| && At(t, end) == ')'
    requires c == Redir(cmd, file, mode)
    ensures ParseLine(t, pos) == Some(Parsed(Locate(c, pos), end))
    decreases c, 0
  {
    hide Body;
    hide Print;
    hide Has;
    hide ModeText;
    hide Locate;
    hide ParseLine;
    hide ParseParen;
    hide GetToken;
    var m := pos + |Print(cmd)|;
    var q := m + |ModeText(mode)|;
    RedirParts(t, pos, cmd, file, mode);
    ParenBack(t, pos, cmd, m);
    LineRedir(t, pos, cmd, file, mode, m, q, end);
  }

  lemma {:induction false} LineBackPipe(t: string, pos: nat, left: Cmd<string>, right: Cmd<string>, c: Cmd<string>,
                                        end: nat)
    requires IsText(t) && Printable(c) && Has(t, pos, Body(c)) && end == pos + |Body(c)| && At(t, end) == ')'
    requires c == Pipe(left, right)
    ensures ParseLine(t, pos) == Some(Parsed(Locate(c, pos), end))
    decreases c, 0
  {
    var m := pos + |Print(left)|;
    var n := m + 1;
    Halves(t, pos, Print(left), '|', Print(right), end);
    hide Body;
    hide Locate;
    hide ParseLine;
    hide Print;
    hide Has;
    hide ParsePipe;
    hide ParseExec;
    ExecBack(t, pos, left, m);
    PipeBack(t, n, right, end);
    LinePipe(t, pos, left, right, m, n, end);
  }

  lemma {:induction false} LineBackList(t: string, pos: nat, left: Cmd<string>, right: Cmd<string>, c: Cmd<string>,
                                        end: nat)
    requires IsText(t) && Printable(c) && Has(t, pos, Body(c)) && end == pos + |Body(c)| && At(t, end) == ')'
    requires c == List(left, right)
    ensures ParseLine(t, pos) == Some(Parsed(Locate(c, pos), end))
    decreases c, 0
  {
    var m := pos + |Print(left)|;
    var n := m + 1;
    Halves(t, pos, Print(left), ';', Print(right), end);
    hide Body;
    hide Locate;
    hide ParseLine;
    PipeBack(t, pos, left, m);
    PipeBack(t, n, right, end);
    LineList(t, pos, left, right, m, n, end);
  }

  lemma {:induction false} LineBackAmp(t: string, pos: nat, cmd: Cmd<string>, c: Cmd<string>, end: nat)
    requires IsText(t) && Printable(c) && Has(t, pos, Body(c)) && end == pos + |Body(c)| && At(t, end) == ')'
    requires c == Back(cmd)
    ensures ParseLine(t, pos) == Some(Parsed(Locate(c, pos), end))
    decreases c, 0
  {
    var m := pos + |Print(cmd)|;
    HasBoth(t, pos, Print(cmd), "&");
    HasChar(t, m, "&", 0);
    hide Body;
    hide Locate;
    hide ParseLine;
    PipeBack(t, pos, cmd, m);
    LineAmp(t, pos, cmd, m, end);
  }

  lemma RedirParts(t: string, pos: nat, cmd: Cmd<string>, file: string, mode: Mode)
    requires Has(t, pos, Body(Redir(cmd, file, mode)))
    ensures var m := pos + |Print(cmd)|;
            && Has(t, pos, Print(cmd)) && Has(t, m, ModeText(mode)) && Has(t, m + |ModeText(mode)|, file)
            && !IsSpace(At(t, m)) && |Body(Redir(cmd, file, mode))| == |Print(cmd)| + |ModeText(mode)| + |file|
  {
    var m := pos + |Print(cmd)|;
    assert Body(Redir(cmd, file, mode)) == Print(cmd) + (ModeText(mode) + file);
    HasBoth(t, pos, Print(cmd), ModeText(mode) + file);
    HasBoth(t, m, ModeText(mode), file);
    HasChar(t, m, ModeText(mode), 0);
  }

  lemma Halves(t: string, pos: nat, a: string, c: char, b: string, end: nat)
    requires Has(t, pos, a + [c] + b) && end == pos + |a + [c] + b|
    ensures Has(t, pos, a) && At(t, pos + |a|) == c && Has(t, pos + |a| + 1, b) && end == pos + |a| + 1 + |b|
  {
    assert a + [c] + b == a + ([c] + b);
    HasBoth(t, pos, a, [c] + b);
    HasBoth(t, pos + |a|, [c], b);
    HasChar(t, pos + |a|, [c], 0);
  }

  lemma LineExec(t: string, pos: nat, argv: seq<string>, end: nat)
    requires IsText(t) && Printable(Exec(argv)) && Has(t, pos, Join(argv)) && end == pos + |Join(argv)|
             && At(t, end) == ')'
    ensures ParseLine(t, pos) == Some(Parsed(Locate(Exec(argv), pos), end))
  {
    hide ParseLine;
    hide ParsePipe;
    hide ParseExec;
    hide ParseRedirs;
    hide ParseArgs;
    BodyFirst(t, pos, Exec(argv));
    NoRedirs(t, pos);
    ArgsBack(t, pos, argv, [], end);
    assert [] + Spans(pos, argv) == Spans(pos, argv);
    ExecArgs(t, pos, Spans(pos, argv), end);
    PipeStops(t, pos, Exec(Spans(pos, argv)), end);
    LineEnds(t, pos, Exec(Spans(pos, argv)), end);
  }

  lemma ExecArgs(t: string, pos: nat, argv: seq<Span>, end: nat)
    requires IsText(t) && pos <= |t| && !IsSpace(At(t, pos)) && At(t, pos) != '('
    requires ParseRedirs(t, pos) == Some(Redirs([], pos)) && ParseArgs(t, pos, [], []) == Some(Args(argv, [], end))
    ensures ParseExec(t, pos) == Some(Parsed(Exec(argv), end))
  {
    hide ParseRedirs;
    hide ParseArgs;
  }

  lemma PipeStops(t: string, pos: nat, c: Cmd<Span>, end: nat)
    requires IsText(t) && pos <= |t| && ParseExec(t, pos) == Some(Parsed(c, end)) && At(t, end) == ')'
    ensures ParsePipe(t, pos) == Some(Parsed(c, end))
  {
    hide ParseExec;
  }

  /** The operator of a redirection, in front of a word. */
  lemma RedirToken(t: string, m: nat, mode: Mode)
    requires IsText(t) && Has(t, m, ModeText(mode)) && IsWord(At(t, m + |ModeText(mode)|))
    ensures m <= |t| && Peek(t, m, {'<', '>'}) && GetToken(t, m).pos == m + |ModeText(mode)|
    ensures GetToken(t, m).tok == if mode == In then Sym('<') else if mode == Out then Sym('>') else More
  {
    HasChar(t, m, ModeText(mode), 0);
    if mode == Append {
      HasChar(t, m, ModeText(mode), 1);
    } else {
      SymToken(t, m, ModeText(mode)[0]);
    }
  }

  /** The two tokens of a redirection, at the end of a line. */
  lemma OneRedir(t: string, m: nat, file: string, mode: Mode, q: nat, end: nat)
    requires IsText(t) && WordOk(file) && Has(t, m, ModeText(mode)) && q == m + |ModeText(mode)| && Has(t, q, file)
    requires end == q + |file| && At(t, end) == ')'
    ensures m <= |t| && ParseRedirs(t, m) == Some(Redirs([Redirection(Span(q, end), mode)], end))
  {
    hide GetToken;
    hide Peek;
    hide ModeText;
    HasChar(t, q, file, 0);
    RedirToken(t, m, mode);
    WordToken(t, q, file);
    NoRedirs(t, end);
    hide Has;
    hide Skip;
    hide WordOk;
    hide IsText;
    assert [Redirection(Span(q, end), mode)] + [] == [Redirection(Span(q, end), mode)];
  }

  lemma LocateRedir(cmd: Cmd<string>, file: string, mode: Mode, pos: nat, q: nat, end: nat)
    requires q == pos + |Print(cmd)| + |ModeText(mode)| && end == q + |file|
    ensures Locate(Redir(cmd, file, mode), pos) == Redir(Locate(cmd, pos + 1), Span(q, end), mode)
  {
  }

  lemma LineRedir(t: string, pos: nat, cmd: Cmd<string>, file: string, mode: Mode, m: nat, q: nat, end: nat)
    requires IsText(t) && WordOk(file) && pos < |t| && t[pos] == '(' && m == pos + |Print(cmd)|
    requires Peek(t, pos, {'('}) && ParseParen(t, pos) == Some(Parsed(Locate(cmd, pos + 1), m))
    requires Has(t, m, ModeText(mode)) && q == m + |ModeText(mode)| && Has(t, q, file)
    requires end == q + |file| && At(t, end) == ')'
    ensures ParseLine(t, pos) == Some(Parsed(Locate(Redir(cmd, file, mode), pos), end))
  {
    OneRedir(t, m, file, mode, q, end);
    LocateRedir(cmd, file, mode, pos, q, end);
    hide Locate;
    hide ParseLine;
    hide ParsePipe;
    hide ParseExec;
    hide ParseParen;
    hide ParseRedirs;
    var r := Redirection(Span(q, end), mode);
    var c := Redir(Locate(cmd, pos + 1), r.file, mode);
    BlockOne(t, pos, Locate(cmd, pos + 1), m, r, end);
    PipeStops(t, pos, c, end);
    LineEnds(t, pos, c, end);
  }

  lemma BlockOne(t: string, pos: nat, c: Cmd<Span>, m: nat, r: Redirection, end: nat)
    requires IsText(t) && pos <= |t| && Peek(t, pos, {'('}) && ParseParen(t, pos) == Some(Parsed(c, m))
    requires ParseRedirs(t, m) == Some(Redirs([r], end))
    ensures ParseExec(t, pos) == Some(Parsed(Redir(c, r.file, r.mode), end))
  {
    hide ParseParen;
    hide ParseRedirs;
    assert Apply(c, [r]) == Redir(c, r.file, r.mode);
  }

  lemma LinePipe(t: string, pos: nat, left: Cmd<string>, right: Cmd<string>, m: nat, n: nat, end: nat)
    requires IsText(t) && pos <= |t| && m == pos + |Print(left)| && m < |t| && t[m] == '|' && At(t, end) == ')'
    requires n == m + 1 && n < |t| && t[n] == '('
    requires ParseExec(t, pos) == Some(Parsed(Locate(left, pos + 1), m))
    requires ParsePipe(t, n) == Some(Parsed(Locate(right, n + 1), end))
    ensures ParseLine(t, pos) == Some(Parsed(Locate(Pipe(left, right), pos), end))
  {
    SymToken(t, m, '|');
    LocateTwo(left, right, pos, n);
    hide Locate;
    hide ParseLine;
    hide ParsePipe;
    hide ParseExec;
    PipeBoth(t, pos, Locate(left, pos + 1), m, n, Locate(right, n + 1), end);
    LineEnds(t, pos, Pipe(Locate(left, pos + 1), Locate(right, n + 1)), end);
  }

  lemma LocateTwo(left: Cmd<string>, right: Cmd<string>, pos: nat, n: nat)
    requires n == pos + |Print(left)| + 1
    ensures Locate(Pipe(left, right), pos) == Pipe(Locate(left, pos + 1), Locate(right, n + 1))
    ensures Locate(List(left, right), pos) == List(Locate(left, pos + 1), Locate(right, n + 1))
  {
  }

  lemma PipeBoth(t: string, pos: nat, a: Cmd<Span>, m: nat, n: nat, b: Cmd<Span>, end: nat)
    requires IsText(t) && pos <= |t| && m < |t| && t[m] == '|' && ParseExec(t, pos) == Some(Parsed(a, m))
    requires GetToken(t, m).pos == n <= |t| && ParsePipe(t, n) == Some(Parsed(b, end))
    ensures ParsePipe(t, pos) == Some(Parsed(Pipe(a, b), end))
  {
    hide ParseExec;
    hide GetToken;
  }

  lemma LineList(t: string, pos: nat, left: Cmd<string>, right: Cmd<string>, m: nat, n: nat, end: nat)
    requires IsText(t) && pos <= |t| && m == pos + |Print(left)| && m < |t| && t[m] == ';' && At(t, end) == ')'
    requires n == m + 1 && n < |t| && t[n] == '('
    requires ParsePipe(t, pos) == Some(Parsed(Locate(left, pos + 1), m))
    requires ParsePipe(t, n) == Some(Parsed(Locate(right, n + 1), end))
    ensures ParseLine(t, pos) == Some(Parsed(Locate(List(left, right), pos), end))
  {
    SymToken(t, m, ';');
    LocateTwo(left, right, pos, n);
    hide Locate;
    hide ParseLine;
    hide ParsePipe;
    LineEnds(t, n, Locate(right, n + 1), end);
    LineBoth(t, pos, Locate(left, pos + 1), m, n, Locate(right, n + 1), end);
  }

  lemma LineBoth(t: string, pos: nat, a: Cmd<Span>, m: nat, n: nat, b: Cmd<Span>, end: nat)
    requires IsText(t) && pos <= |t| && m < |t| && t[m] == ';' && ParsePipe(t, pos) == Some(Parsed(a, m))
    requires GetToken(t, m).pos == n <= |t| && ParseLine(t, n) == Some(Parsed(b, end))
    ensures ParseLine(t, pos) == Some(Parsed(List(a, b), end))
  {
    hide ParsePipe;
    hide GetToken;
  }

  lemma LineAmp(t: string, pos: nat, cmd: Cmd<string>, m: nat, end: nat)
    requires IsText(t) && pos <= |t| && m == pos + |Print(cmd)| && end == m + 1 && end < |t| && t[m] == '&'
             && t[end] == ')'
    requires ParsePipe(t, pos) == Some(Parsed(Locate(cmd, pos + 1), m))
    ensures ParseLine(t, pos) == Some(Parsed(Locate(Back(cmd), pos), end))
  {
    hide ParsePipe;
    hide Print;
    SymToken(t, m, '&');
    var c := Locate(cmd, pos + 1);
    assert Locate(Back(cmd), pos) == Back(c);
    hide Locate;
    assert ParseBacks(t, m, c) == ParseBacks(t, end, Back(c)) == Parsed(Back(c), end);
    hide GetToken;
  }

  lemma {:induction false} SpansWords(t: string, pos: nat, ws: seq<string>, i: nat)
    requires Has(t, pos, Join(ws)) && i < |ws|
    ensures |Spans(pos, ws)| == |ws| && Cut(t, Spans(pos, ws)[i]) == ws[i]
    decreases |ws|
  {
    hide Spans;
    hide Has;
    hide Cut;
    var w, rest := ws[0], ws[1..];
    SpansFirst(pos, ws);
    if rest == [] {
      JoinShort(t, pos + |w| + 1, rest);
      JoinShort(t, pos, ws);
      FirstCut(t, pos, w);
    } else {
      assert Join(ws) == w + (" " + Join(rest));
      hide Join;
      HasBoth(t, pos, w, " " + Join(rest));
      HasBoth(t, pos + |w|, " ", Join(rest));
      FirstCut(t, pos, w);
      SpansWords(t, pos + |w| + 1, rest, if i == 0 then 0 else i - 1);
    }
  }

  lemma SpansFirst(pos: nat, ws: seq<string>)
    requires ws != []
    ensures Spans(pos, ws) == [Span(pos, pos + |ws[0]|)] + Spans(pos + |ws[0]| + 1, ws[1..])
  {
  }

  lemma FirstCut(t: string, pos: nat, w: string)
    requires Has(t, pos, w)
    ensures Cut(t, Span(pos, pos + |w|)) == w
  {
  }

  lemma WordsExec(t: string, pos: nat, argv: seq<string>)
    requires Has(t, pos, Join(argv))
    ensures Words(t, Exec(Spans(pos, argv))) == Exec(argv)
  {
    if argv != [] {
      SpansWords(t, pos, argv, 0);
    }
    var ws := Words(t, Exec(Spans(pos, argv))).argv;
    assert |ws| == |argv|;
    forall i | 0 <= i < |argv|
      ensures ws[i] == argv[i]
    {
      SpansWords(t, pos, argv, i);
    }
  }

  /** The located words are the words. */
  lemma {:induction false} WordsBack(t: string, pos: nat, c: Cmd<string>)
    requires Has(t, pos, Body(c))
    ensures Words(t, Locate(c, pos)) == c
    decreases c, 1
  {
    match c
    case Exec(argv) => WordsExec(t, pos, argv);
    case Redir(cmd, file, mode) => WordsRedir(t, pos, cmd, file, mode, c);
    case Pipe(left, right) => WordsTwo(t, pos, left, '|', right, c);
    case List(left, right) => WordsTwo(t, pos, left, ';', right, c);
    case Back(cmd) =>
      HasBoth(t, pos, Print(cmd), "&");
      Inside(t, pos, cmd);
      WordsBack(t, pos + 1, cmd);
  }

  lemma {:induction false} WordsRedir(t: string, pos: nat, cmd: Cmd<string>, file: string, mode: Mode,
                                      whole: Cmd<string>)
    requires whole == Redir(cmd, file, mode) && Has(t, pos, Body(whole))
    ensures Words(t, Locate(whole, pos)) == whole
    decreases whole, 0
  {
    RedirParts(t, pos, cmd, file, mode);
    Inside(t, pos, cmd);
    WordsBack(t, pos + 1, cmd);
    hide Print;
  }

  lemma {:induction false} WordsTwo(t: string, pos: nat, left: Cmd<string>, c: char, right: Cmd<string>,
                                    whole: Cmd<string>)
    requires whole == Pipe(left, right) || whole == List(left, right)
    requires Has(t, pos, Print(left) + [c] + Print(right))
    ensures Words(t, Locate(left, pos + 1)) == left && Words(t, Locate(right, pos + |Print(left)| + 2)) == right
    decreases whole, 0
  {
    hide Print;
    hide Body;
    hide Locate;
    hide Words;
    hide Has;
    Halves(t, pos, Print(left), c, Print(right), pos + |Print(left) + [c] + Print(right)|);
    Inside(t, pos, left);
    Inside(t, pos + |Print(left)| + 1, right);
    WordsBack(t, pos + 1, left);
    WordsBack(t, pos + |Print(left)| + 2, right);
  }

  lemma Inside(t: string, pos: nat, c: Cmd<string>)
    requires Has(t, pos, Print(c))
    ensures Has(t, pos + 1, Body(c)) && pos + |Print(c)| <= |t| && t[pos + |Print(c)| - 1] == ')'
  {
    assert Print(c) == "(" + (Body(c) + ")");
    HasBoth(t, pos, "(", Body(c) + ")");
    HasBoth(t, pos + 1, Body(c), ")");
    HasChar(t, pos + 1 + |Body(c)|, ")", 0);
  }

  lemma {:induction false} JoinText(ws: seq<string>)
    requires forall i :: 0 <= i < |ws| ==> WordOk(ws[i])
    ensures IsText(Join(ws))
    decreases |ws|
  {
    if |ws| > 0 {
      assert WordOk(ws[0]);
      JoinText(ws[1..]);
    }
  }

  lemma {:induction false} PrintText(c: Cmd<string>)
    requires Printable(c)
    ensures IsText(Print(c)) && IsText(Body(c))
    decreases c
  {
    match c
    case Exec(argv) => JoinText(argv);
    case Redir(cmd, file, mode) => PrintText(cmd);
    case Pipe(left, right) => PrintText(left); PrintText(right);
    case List(left, right) => PrintText(left); PrintText(right);
    case Back(cmd) => PrintText(cmd);
  }

  lemma HasAll(t: string)
    ensures Has(t, 0, t)
  {
    assert t[0..0 + |t|] == t;
  }

  /** Parsing the fully parenthesised text of a command gives back the command. */
  lemma RoundTrip(c: Cmd<string>)
    requires Printable(c)
    ensures IsText(Print(c)) && ParseCmd(Print(c)).Some? && Words(Print(c), ParseCmd(Print(c)).value) == c
  {
    hide Print;
    hide Body;
    hide ParseLine;
    hide ParsePipe;
    hide Words;
    hide Locate;
    hide IsText;
    hide Has;
    var t := Print(c);
    PrintText(c);
    HasAll(t);
    PipeBack(t, 0, c, |t|);
    TopLine(t, Locate(c, 1));
    Inside(t, 0, c);
    WordsBack(t, 1, c);
  }

  lemma TopLine(t: string, c: Cmd<Span>)
    requires IsText(t) && ParsePipe(t, 0) == Some(Parsed(c, |t|))
    ensures ParseLine(t, 0) == Some(Parsed(c, |t|))
  {
    hide ParsePipe;
  }

  // ---------------------------------------------------------------- every token is a word

  ghost predicate AllOk(t: string, argv: seq<Span>) { forall i :: 0 <= i < |argv| ==> SpanOk(t, argv[i]) }

  ghost predicate RedirsOk(t: string, rs: seq<Redirection>) { forall i :: 0 <= i < |rs| ==> SpanOk(t, rs[i].file) }

  /** Every string of the command is a token of the text. */
  ghost predicate Spanned(t: string, c: Cmd<Span>) {
    match c
    case Exec(argv) => AllOk(t, argv)
    case Redir(cmd, file, mode) => Spanned(t, cmd) && SpanOk(t, file)
    case Pipe(left, right) => Spanned(t, left) && Spanned(t, right)
    case List(left, right) => Spanned(t, left) && Spanned(t, right)
    case Back(cmd) => Spanned(t, cmd)
  }

  lemma {:induction false} ApplySpanned(t: string, c: Cmd<Span>, rs: seq<Redirection>)
    requires Spanned(t, c) && RedirsOk(t, rs)
    ensures Spanned(t, Apply(c, rs))
    decreases |rs|
  {
    if rs != [] {
      ApplySpanned(t, Redir(c, rs[0].file, rs[0].mode), rs[1..]);
    }
  }

  lemma {:induction false} ArgsSpanned(t: string, pos: nat, argv: seq<Span>, rs: seq<Redirection>)
    requires pos <= |t| && IsText(t) && AllOk(t, argv) && RedirsOk(t, rs) && ParseArgs(t, pos, argv, rs).Some?
    ensures var a := ParseArgs(t, pos, argv, rs).value;
            AllOk(t, a.argv) && RedirsOk(t, a.rs) && (|a.argv| <= |argv| || |a.argv| < MAXARGS)
    decreases |t| - pos
  {
    var tk := GetToken(t, pos);
    if !Peek(t, pos, {'|', ')', '&', ';'}) && tk.tok == Word {
      var more := ParseRedirs(t, tk.pos).value;
      ArgsSpanned(t, more.pos, argv + [tk.span], rs + more.rs);
    }
  }

  lemma {:induction false} ExecSpanned(t: string, pos: nat)
    requires pos <= |t| && IsText(t) && ParseExec(t, pos).Some?
    ensures Spanned(t, ParseExec(t, pos).value.cmd)
    decreases |t| - pos, 0
  {
    if Peek(t, pos, {'('}) {
      var p := ParseParen(t, pos).value;
      LineSpanned(t, GetToken(t, pos).pos);
      ApplySpanned(t, p.cmd, ParseRedirs(t, p.pos).value.rs);
    } else {
      var first := ParseRedirs(t, pos).value;
      ArgsSpanned(t, first.pos, [], first.rs);
      var a := ParseArgs(t, first.pos, [], first.rs).value;
      ApplySpanned(t, Exec(a.argv), a.rs);
    }
  }

  lemma {:induction false} PipeSpanned(t: string, pos: nat)
    requires pos <= |t| && IsText(t) && ParsePipe(t, pos).Some?
    ensures Spanned(t, ParsePipe(t, pos).value.cmd)
    decreases |t| - pos, 1
  {
    ExecSpanned(t, pos);
    var p := ParseExec(t, pos).value;
    if Peek(t, p.pos, {'|'}) {
      PipeSpanned(t, GetToken(t, p.pos).pos);
    }
  }

  lemma {:induction false} BacksSpanned(t: string, pos: nat, c: Cmd<Span>)
    requires pos <= |t| && IsText(t) && Spanned(t, c)
    ensures Spanned(t, ParseBacks(t, pos, c).cmd)
    decreases |t| - pos
  {
    if Peek(t, pos, {'&'}) {
      BacksSpanned(t, GetToken(t, pos).pos, Back(c));
    }
  }

  /** Every string in a parsed line is a token: word characters up to a character of another kind. */
  lemma {:induction false} LineSpanned(t: string, pos: nat)
    requires pos <= |t| && IsText(t) && ParseLine(t, pos).Some?
    ensures Spanned(t, ParseLine(t, pos).value.cmd)
    decreases |t| - pos, 2
  {
    PipeSpanned(t, pos);
    var p := ParsePipe(t, pos).value;
    BacksSpanned(t, p.pos, p.cmd);
    var b := ParseBacks(t, p.pos, p.cmd);
    if Peek(t, b.pos, {';'}) {
      LineSpanned(t, GetToken(t, b.pos).pos);
    }
  }

  // ---------------------------------------------------------------- nulterminate()

  /** The positions that nulterminate() overwrites. */
  ghost function Ends(c: Cmd<Span>): set<nat> {
    match c
    case Exec(argv) => set i | 0 <= i < |argv| :: argv[i].eq
    case Redir(cmd, file, mode) => Ends(cmd) + {file.eq}
    case Pipe(left, right) => Ends(left) + Ends(right)
    case List(left, right) => Ends(left) + Ends(right)
    case Back(cmd) => Ends(cmd)
  }

  /** nulterminate(): NUL goes to the end positions of the strings and nowhere else. */
  method NulTerminate(a: array<char>, ghost t: string, c: Cmd<Span>)
    requires a.Length == |t| + 1 && Spanned(t, c)
    modifies a
    ensures forall i :: 0 <= i < a.Length ==> a[i] == if i in Ends(c) then NUL else old(a[i])
    decreases c
  {
    match c
    case Exec(argv) =>
      var i := 0;
      while i < |argv|
        invariant i <= |argv|
        invariant forall k :: 0 <= k < a.Length ==> a[k] == if Ended(argv[..i], k) then NUL else old(a[k])
      {
        assert SpanOk(t, argv[i]);
        a[argv[i].eq] := NUL;
        assert argv[..i + 1] == argv[..i] + [argv[i]];
        i := i + 1;
      }
      assert argv[..i] == argv;
    case Redir(cmd, file, mode) =>
      NulTerminate(a, t, cmd);
      a[file.eq] := NUL;
    case Pipe(left, right) =>
      NulTerminate(a, t, left);
      NulTerminate(a, t, right);
    case List(left, right) =>
      NulTerminate(a, t, left);
      NulTerminate(a, t, right);
    case Back(cmd) =>
      NulTerminate(a, t, cmd);
  }

  ghost predicate Ended(argv: seq<Span>, k: nat) { exists i :: 0 <= i < |argv| && argv[i].eq == k }

  /** Position k ends a token. */
  lemma {:induction false} EndsDelimit(t: string, c: Cmd<Span>, k: nat)
    requires Spanned(t, c) && k in Ends(c)
    ensures k <= |t| && !IsWord(At(t, k))
    decreases c
  {
    match c
    case Exec(argv) =>
      var i :| 0 <= i < |argv| && argv[i].eq == k;
      assert SpanOk(t, argv[i]);
    case Redir(cmd, file, mode) => if k in Ends(cmd) { EndsDelimit(t, cmd, k); }
    case Pipe(left, right) => if k in Ends(left) { EndsDelimit(t, left, k); } else { EndsDelimit(t, right, k); }
    case List(left, right) => if k in Ends(left) { EndsDelimit(t, left, k); } else { EndsDelimit(t, right, k); }
    case Back(cmd) => EndsDelimit(t, cmd, k);
  }

  /** Writing NULs at the ends of strings leaves every string of the command as the text has it. */
  lemma TerminatedKeepsWord(t: string, c: Cmd<Span>, s: Span, k: nat)
    requires Spanned(t, c) && SpanOk(t, s) && s.q <= k < s.eq
    ensures k !in Ends(c)
  {
    if k in Ends(c) {
      EndsDelimit(t, c, k);
      assert false;
    }
  }

  /** parsecmd(): the strings of the result end in NUL and are the tokens of the text. */
  method ParseAndTerminate(a: array<char>, ghost t: string, c: Cmd<Span>)
    requires IsText(t) && a[..] == t + [NUL] && ParseCmd(t) == Some(c)
    modifies a
    ensures forall s :: s in StringsOf(c) ==> Terminated(a[..], t, s)
  {
    LineSpanned(t, 0);
    NulTerminate(a, t, c);
    forall s | s in StringsOf(c)
      ensures Terminated(a[..], t, s)
    {
      StringsSpanned(t, c, s);
      forall k | s.q <= k < s.eq
        ensures a[k] == t[k]
      {
        TerminatedKeepsWord(t, c, s, k);
        assert old(a[..])[k] == t[k];
      }
    }
  }

  ghost function StringsOf(c: Cmd<Span>): set<Span> {
    match c
    case Exec(argv) => set i | 0 <= i < |argv| :: argv[i]
    case Redir(cmd, file, mode) => StringsOf(cmd) + {file}
    case Pipe(left, right) => StringsOf(left) + StringsOf(right)
    case List(left, right) => StringsOf(left) + StringsOf(right)
    case Back(cmd) => StringsOf(cmd)
  }

  lemma {:induction false} StringsSpanned(t: string, c: Cmd<Span>, s: Span)
    requires Spanned(t, c) && s in StringsOf(c)
    ensures SpanOk(t, s) && s.eq in Ends(c)
    decreases c
  {
    match c
    case Exec(argv) =>
      var i :| 0 <= i < |argv| && argv[i] == s;
      assert SpanOk(t, argv[i]);
    case Redir(cmd, file, mode) => if s in StringsOf(cmd) { StringsSpanned(t, cmd, s); }
    case Pipe(left, right) => StringsSpanned(t, if s in StringsOf(left) then left else right, s);
    case List(left, right) => StringsSpanned(t, if s in StringsOf(left) then left else right, s);
    case Back(cmd) => StringsSpanned(t, cmd, s);
  }

  /** The C string that starts at s.q is the token s. */
  ghost predicate Terminated(mem: seq<char>, t: string, s: Span) {
    && s.q < s.eq <= |t| && s.eq < |mem| && mem[s.eq] == NUL
    && forall k :: s.q <= k < s.eq ==> mem[k] == t[k] && mem[k] != NUL
  }
}
