/** Exact-rational models of the two JavaScript rounding functions the funnel
    arithmetic uses, `Math.round` and `Math.ceil`, and the facts about them that
    the funnel proofs rely on. */
module Rounding {

  /** `Math.round`: the nearest integer, a tie going up (toward +infinity). */
  function Round(x: real): (r: int)
    ensures x - 0.5 < r as real <= x + 0.5
  {
    (x + 0.5).Floor
  }

  /** `Math.ceil`: the least integer that is not below `x`. */
  function Ceil(x: real): (r: int)
    ensures x <= r as real < x + 1.0
  {
    -((-x).Floor)
  }

  /** The rounding window pins the result down: `n` is `Round(x)` exactly when
      `x - 1/2 < n <= x + 1/2`. */
  lemma RoundIsNearest(x: real, n: int)
    ensures Round(x) == n <==> x - 0.5 < n as real <= x + 0.5
  {
    if x - 0.5 < n as real <= x + 0.5 {
      var r := Round(x);
      assert r - 1 < n < r + 1;
    }
  }

  /** `Ceil(x)` is the least integer not below `x`. */
  lemma CeilIsLeast(x: real, n: int)
    ensures Ceil(x) <= n <==> x <= n as real
  {
  }

  /** Rounding an integer gives it back. */
  lemma RoundOfInt(n: int)
    ensures Round(n as real) == n
  {
    RoundIsNearest(n as real, n);
  }

  /** Rounding is monotone. */
  lemma RoundMonotone(x: real, y: real)
    requires x <= y
    ensures Round(x) <= Round(y)
  {
    var rx, ry := Round(x), Round(y);
    assert rx as real < ry as real + 1.0;
  }

  /** A value at least `n` rounds to at least `n`; a value below `n + 1/2`
      rounds to at most `n`. */
  lemma RoundBetween(x: real, n: int)
    ensures n as real <= x ==> n <= Round(x)
    ensures x < n as real + 0.5 ==> Round(x) <= n
  {
    if n as real <= x {
      RoundOfInt(n);
      RoundMonotone(n as real, x);
    }
  }

  /** The ceiling of a quotient by a positive divisor is the least integer
      multiplier reaching the dividend. */
  lemma CeilOfQuotient(a: real, d: real)
    requires d > 0.0
    ensures Ceil(a / d) as real * d >= a
    ensures (Ceil(a / d) - 1) as real * d < a
  {
    var q := a / d;
    var c := Ceil(q);
    assert q * d == a;
    MultiplyMonotone(q, c as real, d);
    ScaledBelow((c - 1) as real, q, d, a);
  }

  /** If `x < q` and `q * d == a` for a positive `d`, then `x * d < a`. */
  lemma ScaledBelow(x: real, q: real, d: real, a: real)
    requires x < q
    requires d > 0.0
    requires q * d == a
    ensures x * d < a
  {
    MultiplyStrict(x, q, d);
  }

  /** Multiplying by a non-negative factor keeps the order. */
  lemma MultiplyMonotone(x: real, y: real, d: real)
    requires x <= y
    requires d >= 0.0
    ensures x * d <= y * d
  {
    assert y * d - x * d == (y - x) * d;
  }

  /** Multiplying by a positive factor keeps the strict order. */
  lemma MultiplyStrict(x: real, y: real, d: real)
    requires x < y
    requires d > 0.0
    ensures x * d < y * d
  {
    assert y * d - x * d == (y - x) * d;
  }
}
