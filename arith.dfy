/**
 * Small facts about mixed-radix digits used by the packed formats of the
 * renderer (the capability word, sub-word memory access).
 */
module Arith {

  lemma MulStep(r: nat, a: nat, b: nat)
    requires a < b
    ensures r * a + r <= r * b
    decreases b - a
  {
    if a + 1 < b {
      MulStep(r, a + 1, b);
    }
  }

  /** A digit below the radix and the carry above it are determined by the sum. */
  lemma Peel(a1: nat, h1: nat, a2: nat, h2: nat, r: nat)
    requires a1 < r && a2 < r
    requires a1 + r * h1 == a2 + r * h2
    ensures a1 == a2 && h1 == h2
  {
    if h1 < h2 {
      MulStep(r, h1, h2);
    } else if h2 < h1 {
      MulStep(r, h2, h1);
    }
  }

  lemma DivModStep(low: nat, r: nat, high: nat)
    requires low < r
    ensures (low + r * high) % r == low
    ensures (low + r * high) / r == high
  {
    var n := low + r * high;
    Peel(n % r, n / r, low, high, r);
  }

  /** Multiplication by a natural number is monotone. */
  lemma MulMonotone(r: nat, a: nat, b: nat)
    requires a <= b
    ensures r * a <= r * b
  {
    if a < b {
      MulStep(r, a, b);
    }
  }

  /** A strict inequality between multiples of r is one between the factors. */
  lemma MulCancelLess(r: nat, a: nat, b: nat)
    requires r * a < r * b
    ensures a < b
  {
    if b <= a {
      MulMonotone(r, b, a);
    }
  }

  /** The quotient of a division by a positive number brackets the dividend. */
  lemma DivBounds(n: nat, d: nat)
    requires d > 0
    ensures d * (n / d) <= n < d * (n / d) + d
    ensures n / d <= n
  {
    var q, m := n / d, n % d;
    assert n == d * q + m;
    MulMonotone(q, 1, d);
  }
}
