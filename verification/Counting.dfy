/** Counters that wrap around, and sizes of sets. */
module Counting {

  /** Counters that are close are equal exactly when their remainders are. */
  lemma WrapEqual(a: nat, b: nat, wrap: nat)
    requires a <= b < a + wrap
    ensures a % wrap == b % wrap <==> a == b
  {
    var q, p := a / wrap, b / wrap;
    assert a == q * wrap + a % wrap && b == p * wrap + b % wrap;
    if a % wrap == b % wrap {
      Multiple(p - q, wrap);
      assert (p - q) * wrap == b - a;
    }
  }

  lemma Multiple(k: int, n: nat)
    ensures k > 0 ==> k * n >= n
    ensures k < 0 ==> k * n + n <= 0
  {
  }

  /** A counter that wraps around can go on from its remainder. */
  lemma WrapAdd(a: nat, k: nat, wrap: nat)
    requires wrap > 0
    ensures (a % wrap + k) % wrap == (a + k) % wrap
  {
    var q, r := a / wrap, a % wrap;
    assert a == q * wrap + r;
    Shift(r + k, q, wrap);
  }

  /** A counter that wraps at a multiple of the ring size keeps its slot. */
  lemma WrapIndex(a: nat, size: nat, turns: nat)
    requires size > 0 && turns > 0
    ensures size * turns > 0 && a % (size * turns) % size == a % size
  {
    var wrap := size * turns;
    var q := a / wrap;
    assert a == a % wrap + q * turns * size;
    Shift(a % wrap, q * turns, size);
  }

  lemma Shift(r: nat, q: nat, n: nat)
    requires n > 0
    ensures (r + q * n) % n == r % n
  {
    var x := r + q * n;
    var k := x / n - (r / n + q);
    assert x == x / n * n + x % n && r == r / n * n + r % n;
    assert k * n == r % n - x % n by {
      assert k * n == x / n * n - r / n * n - q * n;
    }
    Multiple(k, n);
  }

  lemma Fewer<T>(a: set<T>, b: set<T>)
    requires a <= b
    ensures |a| <= |b|
  {
    assert b == a + (b - a);
  }
}
