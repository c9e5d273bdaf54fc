/**
 * The arithmetic `and`/`or` helpers the fragment shader carries for
 * targets without integer bitwise operators, and the texture-coordinate
 * clamping they serve (`GenerateTexCoordClampingSection`).
 */
module GlslBitwise {
  import opened Arith
  import opened Bits
  import opened GsRegs
  import opened ShaderCaps
  import opened CapsDerivation

  /** Operands whose conversion to `float` (for `min`/`max`) is exact. */
  const EXACT_FLOAT_BOUND: nat := 0x100_0000

  /**
   * `and(a, b)`: walks the bits of both operands up to the smaller one,
   * adding each power of two where both low bits are set. A negative
   * first operand (a texel coordinate before the texture origin) makes
   * the bound negative, so the loop does not run and the result is 0.
   */
  method And(a: int, b: int) returns (r: int)
    requires a < EXACT_FLOAT_BOUND && 0 <= b < EXACT_FLOAT_BOUND
    ensures 0 <= a ==> r == BitAnd(a, b)
    ensures a < 0 ==> r == 0
  {
    r := 0;
    var x, y := a, b;
    var m := if a < b then a else b;
    var k := 1;
    while k <= m
      invariant k >= 1
      invariant 0 <= a ==> x >= 0 && y >= 0 && x * k <= a && y * k <= b
      invariant 0 <= a ==> r + k * BitAnd(x, y) == BitAnd(a, b)
      invariant a < 0 ==> r == 0
      decreases m - k
    {
      var hx, hy := x / 2, y / 2;
      HalvingStep(x, k, a);
      HalvingStep(y, k, b);
      AndStep(x, y, k);
      if x - hx * 2 != 0 && y - hy * 2 != 0 {
        r := r + k;
      }
      x, y := hx, hy;
      k := k * 2;
    }
    if 0 <= a {
      ExhaustedOperand(x, k, a);
      ExhaustedOperand(y, k, b);
    }
  }

  /** What `and` returns: the bitwise AND for a non-negative first operand, 0 otherwise. */
  function AndValue(a: int, b: nat): (r: nat)
    ensures 0 <= a ==> r == BitAnd(a, b)
    ensures a < 0 ==> r == 0
  {
    if a < 0 then 0 else BitAnd(a, b)
  }

  /**
   * `or(a, b)`: walks the bits of both operands up to the larger one,
   * adding each power of two where either low bit is set.
   */
  method Or(a: int, b: int) returns (r: int)
    requires 0 <= a < EXACT_FLOAT_BOUND && 0 <= b < EXACT_FLOAT_BOUND
    ensures r == BitOr(a, b)
  {
    r := 0;
    var x, y := a, b;
    var m := if a < b then b else a;
    var k := 1;
    while k <= m
      invariant k >= 1 && x >= 0 && y >= 0
      invariant x * k <= a && y * k <= b
      invariant r + k * BitOr(x, y) == BitOr(a, b)
      decreases m - k
    {
      var hx, hy := x / 2, y / 2;
      HalvingStep(x, k, a);
      HalvingStep(y, k, b);
      OrStep(x, y, k);
      if x - hx * 2 != 0 || y - hy * 2 != 0 {
        r := r + k;
      }
      x, y := hx, hy;
      k := k * 2;
    }
    ExhaustedOperand(x, k, a);
    ExhaustedOperand(y, k, b);
  }

  /** Halving the remaining operand keeps it below the original once rescaled. */
  lemma HalvingStep(x: nat, k: nat, a: nat)
    requires x * k <= a
    ensures (x / 2) * (k * 2) <= a
  {
    assert (x / 2) * 2 <= x;
    MulMonotone(k, (x / 2) * 2, x);
    assert (x / 2) * (k * 2) == k * ((x / 2) * 2);
  }

  /** Once the scale exceeds the original operand, nothing of it remains. */
  lemma ExhaustedOperand(x: nat, k: nat, a: nat)
    requires k >= 1 && x * k <= a
    ensures a < k ==> x == 0
  {
    if a < k && x >= 1 {
      MulMonotone(k, 1, x);
    }
  }

  lemma AndStep(x: nat, y: nat, k: nat)
    ensures k * BitAnd(x, y) ==
            (k * 2) * BitAnd(x / 2, y / 2) + (if x % 2 == 1 && y % 2 == 1 then k else 0)
  {
    var q, c := BitAnd(x / 2, y / 2), if x % 2 == 1 && y % 2 == 1 then 1 else 0;
    if x == 0 || y == 0 {
      assert q == 0 && c == 0;
    }
    assert BitAnd(x, y) == 2 * q + c;
    Distribute(k, q, c);
  }

  lemma OrStep(x: nat, y: nat, k: nat)
    ensures k * BitOr(x, y) ==
            (k * 2) * BitOr(x / 2, y / 2) + (if x % 2 == 1 || y % 2 == 1 then k else 0)
  {
    var q, c := BitOr(x / 2, y / 2), if x % 2 == 1 || y % 2 == 1 then 1 else 0;
    if x == 0 {
      ExactHalves(y);
    } else if y == 0 {
      ExactHalves(x);
    }
    assert BitOr(x, y) == 2 * q + c;
    Distribute(k, q, c);
  }

  lemma Distribute(k: nat, q: nat, c: nat)
    requires c <= 1
    ensures k * (2 * q + c) == (k * 2) * q + (if c == 1 then k else 0)
  {
  }

  lemma ExactHalves(y: nat)
    ensures BitOr(0, y / 2) == y / 2 && BitOr(y / 2, 0) == y / 2
    ensures y == 2 * (y / 2) + y % 2
  {
  }

  // ---------------------------------------------------------------
  // Texture-coordinate clamping
  // ---------------------------------------------------------------

  /**
   * The clamping the fragment shader applies to one integer texel
   * coordinate for a shader clamp mode, with the bounds the renderer
   * uploads for that axis. For REGION_REPEAT_SIMPLE the lower bound is
   * already the modulus (the mask plus one); GLSL `mod` floors, as
   * Dafny's `%` does for a positive modulus.
   */
  function ClampCoordinate(mode: nat, t: int, clampMin: nat, clampMax: nat): (c: int)
    requires mode == TEXTURE_CLAMP_MODE_REGION_REPEAT_SIMPLE ==> clampMin > 0
    ensures mode == TEXTURE_CLAMP_MODE_STD ==> c == t
    ensures mode == TEXTURE_CLAMP_MODE_REGION_CLAMP && clampMin <= clampMax ==>
              clampMin <= c <= clampMax && (clampMin <= t <= clampMax ==> c == t)
    ensures mode == TEXTURE_CLAMP_MODE_REGION_REPEAT && 0 <= t ==>
              c >= 0 && forall i: nat :: Bit(c, i) <==> (Bit(t, i) && Bit(clampMin, i)) || Bit(clampMax, i)
    ensures mode == TEXTURE_CLAMP_MODE_REGION_REPEAT && t < 0 ==> c == clampMax
    ensures mode == TEXTURE_CLAMP_MODE_REGION_REPEAT_SIMPLE ==>
              clampMax <= c < clampMax + clampMin
  {
    if mode == TEXTURE_CLAMP_MODE_REGION_CLAMP then
      var lower := if clampMin < t then t else clampMin;
      if clampMax < lower then clampMax else lower
    else if mode == TEXTURE_CLAMP_MODE_REGION_REPEAT then
      if 0 <= t then
        RepeatBits(t, clampMin, clampMax);
        BitOr(AndValue(t, clampMin), clampMax)
      else BitOr(AndValue(t, clampMin), clampMax)
    else if mode == TEXTURE_CLAMP_MODE_REGION_REPEAT_SIMPLE then
      t % clampMin + clampMax
    else t
  }

  lemma RepeatBits(t: nat, clampMin: nat, clampMax: nat)
    ensures forall i: nat :: Bit(BitOr(BitAnd(t, clampMin), clampMax), i) <==>
                             (Bit(t, i) && Bit(clampMin, i)) || Bit(clampMax, i)
  {
    forall i: nat
      ensures Bit(BitOr(BitAnd(t, clampMin), clampMax), i) <==>
              (Bit(t, i) && Bit(clampMin, i)) || Bit(clampMax, i)
    {
      BitOrBits(BitAnd(t, clampMin), clampMax, i);
      BitAndBits(t, clampMin, i);
    }
  }

  /** The width k of an accepted mask 2^k - 1. */
  function LowMaskWidth(m: nat): (k: nat)
    requires m in LowMasks
    ensures 1 <= k <= 9 && m == Pow2(k) - 1
  {
    if m == 0x1 then 1 else if m == 0x3 then 2 else if m == 0x7 then 3
    else if m == 0xF then 4 else if m == 0x1F then 5 else if m == 0x3F then 6
    else if m == 0x7F then 7 else if m == 0xFF then 8 else 9
  }

  /**
   * Where the simplification applies, the `mod` formula with the
   * incremented bound gives the same coordinate as the and/or formula.
   */
  lemma SimpleRepeatMatchesRepeat(t: nat, clampMin: nat, clampMax: nat)
    requires RegionRepeatSimplifiable(clampMin, clampMax)
    ensures ClampCoordinate(TEXTURE_CLAMP_MODE_REGION_REPEAT_SIMPLE, t, clampMin + 1, clampMax) ==
            ClampCoordinate(TEXTURE_CLAMP_MODE_REGION_REPEAT, t, clampMin, clampMax)
  {
    var k := LowMaskWidth(clampMin);
    AndLowMask(t, k);
    AndAssociative(t, clampMin, clampMax);
    DisjointOrIsSum(BitAnd(t, clampMin), clampMax);
  }

  /**
   * Whichever shader mode the renderer picks for a REGION_REPEAT axis,
   * and with the bounds it uploads for that mode, the shader computes
   * the repeat formula (t & mask) | offset.
   */
  lemma RegionRepeatAxisCoordinate(t: nat, clampMin: nat, clampMax: nat)
    requires clampMin < 0x400 && clampMax < 0x400
    ensures var range := AxisClampRange(CLAMP_MODE_REGION_REPEAT, clampMin, clampMax);
            var mode := AxisClampMode(CLAMP_MODE_REGION_REPEAT, clampMin, clampMax);
            range.Some? && (mode == TEXTURE_CLAMP_MODE_REGION_REPEAT_SIMPLE ==> range.value.0 > 0) &&
            ClampCoordinate(mode, t, range.value.0, range.value.1) == BitOr(BitAnd(t, clampMin), clampMax)
  {
    if RegionRepeatSimplifiable(clampMin, clampMax) {
      SimpleRepeatMatchesRepeat(t, clampMin, clampMax);
    }
  }

  /**
   * For a coordinate before the texture origin the two region-repeat
   * programs disagree: `and` gives 0, so the general form yields the
   * offset, while the simplified form yields the floored remainder plus
   * the offset (what a two's-complement `&` with the mask would give).
   */
  lemma NegativeCoordinateModesDiffer()
    ensures RegionRepeatSimplifiable(1, 0)
    ensures ClampCoordinate(TEXTURE_CLAMP_MODE_REGION_REPEAT, -1, 1, 0) == 0
    ensures ClampCoordinate(TEXTURE_CLAMP_MODE_REGION_REPEAT_SIMPLE, -1, 2, 0) == 1
  {
    assert 1 in LowMasks;
    assert BitAnd(1, 0) == 0;
  }
}
