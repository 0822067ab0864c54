/** The pattern matcher of user/grep.c: match(), matchhere() and matchstar(), against what a
    pattern means, namely a way to cut a piece of the text into one part per item. */
module Grep {

  // ---------------------------------------------------------------- what a pattern means

  datatype Item = One(c: char) | Star(c: char) | AtEnd

  /** c* before all else, '$' only at the very end, anything else is one character. */
  function Items(re: string): seq<Item> {
    if re == "" then []
    else if |re| > 1 && re[1] == '*' then [Star(re[0])] + Items(re[2..])
    else if re == "$" then [AtEnd]
    else [One(re[0])] + Items(re[1..])
  }

  predicate Like(c: char, ch: char) { c == '.' || c == ch }

  /** The text from i up to j is an instance of the item. */
  ghost predicate Part(x: Item, t: string, i: nat, j: nat) {
    && i <= j <= |t|
    && match x
      case One(c) => j == i + 1 && Like(c, t[i])
      case Star(c) => forall k :: i <= k < j ==> Like(c, t[k])
      case AtEnd => i == j == |t|
  }

  ghost predicate PartAt(xs: seq<Item>, t: string, cuts: seq<nat>, k: nat)
    requires |cuts| == |xs| + 1 && k < |xs|
  {
    Part(xs[k], t, cuts[k], cuts[k + 1])
  }

  /** The positions cuts divide a piece of the text among the items. */
  ghost predicate Divides(xs: seq<Item>, t: string, cuts: seq<nat>) {
    |cuts| == |xs| + 1 && cuts[|xs|] <= |t| && forall k :: 0 <= k < |xs| ==> PartAt(xs, t, cuts, k)
  }

  ghost predicate Starts(xs: seq<Item>, t: string, i: nat, cuts: seq<nat>) {
    Divides(xs, t, cuts) && cuts[0] == i
  }

  /** Some piece of the text that starts at i is an instance of the items. */
  ghost predicate Occurs(xs: seq<Item>, t: string, i: nat) {
    exists cuts :: Starts(xs, t, i, cuts)
  }

  /** What match() should say: the pattern occurs somewhere, or with '^' at the front. */
  ghost predicate Means(re: string, t: string) {
    if re != "" && re[0] == '^' then Occurs(Items(re[1..]), t, 0)
    else exists i :: 0 <= i <= |t| && Occurs(Items(re), t, i)
  }

  // ---------------------------------------------------------------- the matcher

  function Here(re: string, t: string, i: nat): bool
    requires i <= |t|
    decreases |re|, |t| - i, 0
  {
    if re == "" then true
    else if |re| > 1 && re[1] == '*' then AfterStar(re[0], re[2..], t, i)
    else if re == "$" then i == |t|
    else i < |t| && Like(re[0], t[i]) && Here(re[1..], t, i + 1)
  }

  function AfterStar(c: char, re: string, t: string, i: nat): bool
    requires i <= |t|
    decreases |re|, |t| - i, 1
  {
    Here(re, t, i) || (i < |t| && Like(c, t[i]) && AfterStar(c, re, t, i + 1))
  }

  method Matchhere(re: string, t: string, i: nat) returns (r: bool)
    requires i <= |t|
    ensures r == Here(re, t, i)
    decreases |re|, |t| - i, 0
  {
    if re == "" {
      return true;
    }
    if |re| > 1 && re[1] == '*' {
      r := Matchstar(re[0], re[2..], t, i);
      return;
    }
    if re == "$" {
      return i == |t|;
    }
    if i < |t| && (re[0] == '.' || re[0] == t[i]) {
      r := Matchhere(re[1..], t, i + 1);
      return;
    }
    return false;
  }

  /** matchstar(): a loop that moves the text on while the character repeats. */
  method Matchstar(c: char, re: string, t: string, start: nat) returns (r: bool)
    requires start <= |t|
    ensures r == AfterStar(c, re, t, start)
    decreases |re|, |t| - start, 1
  {
    var i := start;
    r := Matchhere(re, t, i);
    while !r && i < |t| && (t[i] == c || c == '.')
      invariant start <= i <= |t| && r == Here(re, t, i)
      invariant AfterStar(c, re, t, start) == AfterStar(c, re, t, i)
      decreases |t| - i
    {
      i := i + 1;
      r := Matchhere(re, t, i);
    }
  }

  // ---------------------------------------------------------------- the two agree

  lemma OccursNone(t: string, i: nat)
    requires i <= |t|
    ensures Occurs([], t, i)
  {
    assert Starts([], t, i, [i]);
  }

  lemma OccursFirst(x: Item, xs: seq<Item>, t: string, i: nat, j: nat)
    requires Part(x, t, i, j) && Occurs(xs, t, j)
    ensures Occurs([x] + xs, t, i)
  {
    var cuts :| Starts(xs, t, j, cuts);
    var all := [i] + cuts;
    forall k | 0 <= k < |[x] + xs|
      ensures PartAt([x] + xs, t, all, k)
    {
      if k > 0 {
        assert PartAt(xs, t, cuts, k - 1);
      }
    }
    assert Starts([x] + xs, t, i, all);
  }

  lemma OccursRest(x: Item, xs: seq<Item>, t: string, i: nat) returns (j: nat)
    requires Occurs([x] + xs, t, i)
    ensures Part(x, t, i, j) && Occurs(xs, t, j)
  {
    var cuts :| Starts([x] + xs, t, i, cuts);
    assert PartAt([x] + xs, t, cuts, 0);
    j := cuts[1];
    var rest := cuts[1..];
    forall k | 0 <= k < |xs|
      ensures PartAt(xs, t, rest, k)
    {
      assert PartAt([x] + xs, t, cuts, k + 1);
    }
    assert Starts(xs, t, j, rest);
  }

  /** matchstar() finds a run of instances of c after which the rest matches. */
  lemma {:induction false} StarMeans(c: char, re: string, t: string, i: nat)
    requires i <= |t|
    ensures AfterStar(c, re, t, i) ==> exists j :: Part(Star(c), t, i, j) && Here(re, t, j)
    decreases |t| - i
  {
    if Here(re, t, i) {
      assert Part(Star(c), t, i, i);
    } else if AfterStar(c, re, t, i) {
      StarMeans(c, re, t, i + 1);
      var j :| Part(Star(c), t, i + 1, j) && Here(re, t, j);
      assert Part(Star(c), t, i, j);
    }
  }

  lemma {:induction false} StarFinds(c: char, re: string, t: string, i: nat, j: nat)
    requires Part(Star(c), t, i, j) && Here(re, t, j)
    ensures AfterStar(c, re, t, i)
    decreases j - i
  {
    if i < j {
      StarFinds(c, re, t, i + 1, j);
    }
  }

  /** matchhere() says whether the items occur at that place. */
  lemma {:induction false} HereMeans(re: string, t: string, i: nat)
    requires i <= |t|
    ensures Here(re, t, i) <==> Occurs(Items(re), t, i)
    decreases |re|
  {
    if re == "" {
      OccursNone(t, i);
    } else if |re| > 1 && re[1] == '*' {
      HereStar(re, t, i);
    } else if re == "$" {
      var none: seq<Item> := [];
      assert Items(re) == [AtEnd] + none;
      if i == |t| {
        OccursNone(t, i);
        OccursFirst(AtEnd, none, t, i, i);
      }
      if Occurs(Items(re), t, i) {
        var j := OccursRest(AtEnd, none, t, i);
      }
    } else {
      if Here(re, t, i) {
        HereMeans(re[1..], t, i + 1);
        OccursFirst(One(re[0]), Items(re[1..]), t, i, i + 1);
      }
      if Occurs(Items(re), t, i) {
        var j := OccursRest(One(re[0]), Items(re[1..]), t, i);
        HereMeans(re[1..], t, i + 1);
      }
    }
  }

  lemma {:induction false} HereStar(re: string, t: string, i: nat)
    requires i <= |t| && |re| > 1 && re[1] == '*'
    ensures AfterStar(re[0], re[2..], t, i) <==> Occurs(Items(re), t, i)
    decreases |re|, 0
  {
    var c, rest := re[0], re[2..];
    if AfterStar(c, rest, t, i) {
      StarMeans(c, rest, t, i);
      var j :| Part(Star(c), t, i, j) && Here(rest, t, j);
      HereMeans(rest, t, j);
      OccursFirst(Star(c), Items(rest), t, i, j);
    }
    if Occurs(Items(re), t, i) {
      var j := OccursRest(Star(c), Items(rest), t, i);
      HereMeans(rest, t, j);
      StarFinds(c, rest, t, i, j);
    }
  }

  /** match(): 1 exactly when the pattern occurs in the text. */
  method Match(re: string, t: string) returns (r: bool)
    ensures r <==> Means(re, t)
  {
    if re != "" && re[0] == '^' {
      HereMeans(re[1..], t, 0);
      r := Matchhere(re[1..], t, 0);
      return;
    }
    var i := 0;
    HereMeans(re, t, 0);
    r := Matchhere(re, t, 0);
    while !r && i < |t|
      invariant i <= |t| && r == Here(re, t, i) && (r <==> Occurs(Items(re), t, i))
      invariant forall k :: 0 <= k < i ==> !Occurs(Items(re), t, k)
      decreases |t| - i, !r
    {
      i := i + 1;
      HereMeans(re, t, i);
      r := Matchhere(re, t, i);
    }
  }
}
