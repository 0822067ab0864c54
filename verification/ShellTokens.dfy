/** The tokens of a command line by its characters alone, and the proof that gettoken() of
    user/sh.c cuts a line into these. */
module ShellTokens {
  import opened Shell

  const SPACES := " \t\r\n\U{0b}"
  const SYMBOLS := "<|>&;()"

  /** Nothing but spaces from a up to b. */
  ghost predicate Gap(t: string, a: nat, b: nat) {
    a <= b <= |t| && forall j :: a <= j < b ==> t[j] in SPACES
  }

  /** A word cannot go on at position i. */
  predicate Ends(t: string, i: nat) { i >= |t| || t[i] in SPACES || t[i] in SYMBOLS }

  /** A word: characters that are neither spaces nor symbols, as many as there are. */
  ghost predicate WordAt(t: string, s: Span) {
    && s.q < s.eq <= |t| && Ends(t, s.eq)
    && forall j :: s.q <= j < s.eq ==> t[j] !in SPACES && t[j] !in SYMBOLS
  }

  predicate SymbolAt(t: string, s: Span, c: char) {
    s.q < |t| && s.eq == s.q + 1 && t[s.q] == c && c in SYMBOLS && (c == '>' ==> At(t, s.q + 1) != '>')
  }

  predicate MoreAt(t: string, s: Span) { s.q + 1 < |t| && s.eq == s.q + 2 && t[s.q] == '>' && t[s.q + 1] == '>' }

  ghost predicate TokenAt(t: string, s: Span, tok: Token) {
    match tok
    case Eof => s == Span(|t|, |t|)
    case Sym(c) => SymbolAt(t, s, c)
    case More => MoreAt(t, s)
    case Word => WordAt(t, s)
  }

  /** The token behind the spaces at pos, and the position behind the spaces that follow it. */
  ghost predicate Lexed(t: string, pos: nat, r: Lex) {
    && Gap(t, pos, r.span.q) && TokenAt(t, r.span, r.tok) && Gap(t, r.span.eq, r.pos)
    && (r.pos < |t| ==> t[r.pos] !in SPACES)
  }

  lemma {:induction false} SkipGap(t: string, pos: nat)
    requires pos <= |t|
    ensures Gap(t, pos, Skip(t, pos)) && (Skip(t, pos) < |t| ==> t[Skip(t, pos)] !in SPACES)
    decreases |t| - pos
  {
    if pos < |t| && IsSpace(t[pos]) {
      SkipGap(t, pos + 1);
    }
  }

  lemma WordChar(c: char)
    ensures IsSpace(c) <==> c in SPACES
    ensures IsSymbol(c) <==> c in SYMBOLS
  {
    assert c in SPACES <==> exists i :: 0 <= i < 5 && SPACES[i] == c;
    assert c in SYMBOLS <==> exists i :: 0 <= i < 7 && SYMBOLS[i] == c;
  }

  lemma {:induction false} WordEndAt(t: string, i: nat)
    requires IsText(t) && i <= |t|
    ensures Ends(t, WordEnd(t, i))
    ensures forall j :: i <= j < WordEnd(t, i) ==> t[j] !in SPACES && t[j] !in SYMBOLS
    decreases |t| - i
  {
    if i < |t| {
      WordChar(t[i]);
      if !IsSpace(t[i]) && !IsSymbol(t[i]) {
        WordEndAt(t, i + 1);
      }
    }
  }

  /** gettoken() finds the token that the characters make. */
  lemma GetTokenLexed(t: string, pos: nat)
    requires IsText(t) && pos <= |t|
    ensures Lexed(t, pos, GetToken(t, pos))
  {
    var r, s := GetToken(t, pos), Skip(t, pos);
    SkipGap(t, pos);
    SkipGap(t, r.span.eq);
    WordEndAt(t, s);
    hide Skip;
    hide WordEnd;
    hide Gap;
    if s < |t| {
      WordChar(t[s]);
    }
  }

  /** A gap ends where the characters say. */
  lemma GapOnce(t: string, a: nat, b: nat, c: nat)
    requires Gap(t, a, b) && Gap(t, a, c) && (b < |t| ==> t[b] !in SPACES) && (c < |t| ==> t[c] !in SPACES)
    ensures b == c
  {
  }

  lemma TokenFirst(t: string, s: Span, tok: Token)
    requires TokenAt(t, s, tok)
    ensures s.q <= s.eq <= |t| && (s.q < |t| ==> t[s.q] !in SPACES)
    ensures tok == Eof <==> s.q == |t|
  {
    if s.q < |t| {
      WordChar(t[s.q]);
    }
  }

  /** The token is the only one that the characters make. */
  lemma LexedOnce(t: string, pos: nat, r: Lex)
    requires IsText(t) && Lexed(t, pos, r)
    ensures pos <= |t| && r == GetToken(t, pos)
  {
    var g := GetToken(t, pos);
    GetTokenLexed(t, pos);
    hide GetToken;
    TokenFirst(t, r.span, r.tok);
    TokenFirst(t, g.span, g.tok);
    GapOnce(t, pos, r.span.q, g.span.q);
    TokenOnce(t, r.span, g.span, r.tok, g.tok);
    GapOnce(t, r.span.eq, r.pos, g.pos);
  }

  lemma TokenOnce(t: string, s: Span, s': Span, tok: Token, tok': Token)
    requires TokenAt(t, s, tok) && TokenAt(t, s', tok') && s.q == s'.q
    ensures s == s' && tok == tok'
  {
    if s.q < |t| {
      WordChar(t[s.q]);
    }
  }

  // ---------------------------------------------------------------- whole lines

  datatype Piece = Piece(tok: Token, span: Span)

  /** The text from pos on is the given tokens, with any spaces before, between and after them. */
  ghost predicate CutFrom(t: string, pos: nat, ps: seq<Piece>)
    decreases |ps|
  {
    if ps == [] then Gap(t, pos, |t|)
    else
      && ps[0].tok != Eof && Gap(t, pos, ps[0].span.q) && TokenAt(t, ps[0].span, ps[0].tok)
      && CutFrom(t, ps[0].span.eq, ps[1..])
  }

  /** Every text is some tokens and spaces. */
  lemma {:induction false} EveryText(t: string, pos: nat) returns (ps: seq<Piece>)
    requires IsText(t) && pos <= |t|
    ensures CutFrom(t, pos, ps)
    decreases |t| - pos
  {
    var g := GetToken(t, pos);
    GetTokenLexed(t, pos);
    hide GetToken;
    TokenFirst(t, g.span, g.tok);
    if g.tok == Eof {
      return [];
    }
    var rest := EveryText(t, g.span.eq);
    ps := [Piece(g.tok, g.span)] + rest;
    assert ps[1..] == rest;
  }
}
