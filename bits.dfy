/**
 * Bitwise AND and OR on natural numbers, defined digit by digit in base 2.
 * The renderer applies `&` and `|` to unsigned clamp fields on the host,
 * and the shaders it emits compute them with arithmetic loops; both are
 * stated against these definitions.
 */
module Bits {
  import opened Arith

  function Pow2(k: nat): (r: nat)
    ensures r >= 1
  {
    if k == 0 then 1 else 2 * Pow2(k - 1)
  }

  /** Bit `i` (counting from the least significant) of `n` is set. */
  predicate Bit(n: nat, i: nat)
  {
    if i == 0 then n % 2 == 1 else Bit(n / 2, i - 1)
  }

  function BitAnd(a: nat, b: nat): (r: nat)
    ensures r <= a && r <= b
  {
    if a == 0 || b == 0 then 0
    else 2 * BitAnd(a / 2, b / 2) + (if a % 2 == 1 && b % 2 == 1 then 1 else 0)
  }

  function BitOr(a: nat, b: nat): (r: nat)
    ensures a <= r && b <= r && r <= a + b
  {
    if a == 0 then b
    else if b == 0 then a
    else 2 * BitOr(a / 2, b / 2) + (if a % 2 == 1 || b % 2 == 1 then 1 else 0)
  }

  lemma {:induction false} ZeroHasNoBits(i: nat)
    ensures !Bit(0, i)
  {
    if i > 0 {
      ZeroHasNoBits(i - 1);
    }
  }

  /** A set bit of the AND is exactly a bit set in both operands. */
  lemma {:induction false} BitAndBits(a: nat, b: nat, i: nat)
    ensures Bit(BitAnd(a, b), i) <==> Bit(a, i) && Bit(b, i)
  {
    if a == 0 || b == 0 {
      ZeroHasNoBits(i);
    } else if i > 0 {
      var q := BitAnd(a / 2, b / 2);
      assert BitAnd(a, b) / 2 == q;
      BitAndBits(a / 2, b / 2, i - 1);
    }
  }

  /** A set bit of the OR is exactly a bit set in either operand. */
  lemma {:induction false} BitOrBits(a: nat, b: nat, i: nat)
    ensures Bit(BitOr(a, b), i) <==> Bit(a, i) || Bit(b, i)
  {
    if a == 0 {
      ZeroHasNoBits(i);
    } else if b == 0 {
      ZeroHasNoBits(i);
    } else if i > 0 {
      var q := BitOr(a / 2, b / 2);
      assert BitOr(a, b) / 2 == q;
      BitOrBits(a / 2, b / 2, i - 1);
    }
  }

  /** A number is determined by its bits. */
  lemma {:induction false} BitsDetermine(x: nat, y: nat)
    requires forall i: nat :: Bit(x, i) <==> Bit(y, i)
    ensures x == y
    decreases x + y
  {
    assert Bit(x, 0) <==> Bit(y, 0);
    if x != 0 || y != 0 {
      forall i: nat
        ensures Bit(x / 2, i) <==> Bit(y / 2, i)
      {
        assert Bit(x, i + 1) <==> Bit(y, i + 1);
      }
      BitsDetermine(x / 2, y / 2);
    }
  }

  /** The AND and the OR together carry every bit of both operands once. */
  lemma {:induction false} AndPlusOr(a: nat, b: nat)
    ensures BitAnd(a, b) + BitOr(a, b) == a + b
  {
    if a != 0 && b != 0 {
      AndPlusOr(a / 2, b / 2);
    }
  }

  /** OR of operands with no common bit is their sum. */
  lemma DisjointOrIsSum(a: nat, b: nat)
    requires BitAnd(a, b) == 0
    ensures BitOr(a, b) == a + b
  {
    AndPlusOr(a, b);
  }

  lemma {:induction false} AndAssociative(a: nat, b: nat, c: nat)
    ensures BitAnd(BitAnd(a, b), c) == BitAnd(a, BitAnd(b, c))
  {
    forall i: nat
      ensures Bit(BitAnd(BitAnd(a, b), c), i) <==> Bit(BitAnd(a, BitAnd(b, c)), i)
    {
      BitAndBits(BitAnd(a, b), c, i);
      BitAndBits(a, b, i);
      BitAndBits(a, BitAnd(b, c), i);
      BitAndBits(b, c, i);
    }
    BitsDetermine(BitAnd(BitAnd(a, b), c), BitAnd(a, BitAnd(b, c)));
  }

  /** Halving and the low bit split a remainder by an even modulus. */
  lemma ModDouble(t: nat, p: nat)
    requires p >= 1
    ensures t % (2 * p) == 2 * ((t / 2) % p) + t % 2
  {
    var h := t / 2;
    var low := 2 * (h % p) + t % 2;
    assert h == p * (h / p) + h % p;
    assert t == low + (2 * p) * (h / p);
    DivModStep(low, 2 * p, h / p);
  }

  /** AND with the mask 2^k - 1 keeps the low k bits: the remainder by 2^k. */
  lemma {:induction false} AndLowMask(t: nat, k: nat)
    ensures BitAnd(t, Pow2(k) - 1) == t % Pow2(k)
  {
    if k > 0 && t > 0 {
      var p := Pow2(k - 1);
      var m := 2 * p - 1;
      assert Pow2(k) - 1 == m;
      assert m / 2 == p - 1 && m % 2 == 1;
      if p == 1 {
        assert BitAnd(t, m) == t % 2;
      } else {
        assert BitAnd(t, m) == 2 * BitAnd(t / 2, p - 1) + t % 2;
      }
      AndLowMask(t / 2, k - 1);
      assert BitAnd(t / 2, p - 1) == (t / 2) % p;
      ModDouble(t, p);
      assert BitAnd(t, m) == t % (2 * p);
    } else if k == 0 {
      assert Pow2(k) == 1;
    } else {
      assert t == 0;
      assert BitAnd(t, Pow2(k) - 1) == 0;
    }
  }
}
