/**
 * The packed shader capability descriptor (SHADERCAPS): a 64-bit word made of
 * 25 unsigned bit-fields, filled low bit first in declaration order.
 *
 * Each field is below 2^width; the first field occupies the least
 * significant bits.
 * The shader cache keys programs by the descriptor truncated to 32 bits
 * (`static_cast<uint32>`), modelled by `Key`.
 */
module ShaderCaps {

  import opened Arith

  // ---------------------------------------------------------------
  // The descriptor
  // ---------------------------------------------------------------

  /** Values of the `texSourceMode` field. */
  const TEXTURE_SOURCE_MODE_NONE: nat := 0
  const TEXTURE_SOURCE_MODE_STD: nat := 1
  const TEXTURE_SOURCE_MODE_IDX4: nat := 2
  const TEXTURE_SOURCE_MODE_IDX8: nat := 3

  /** Values of the `texClampS`/`texClampT` fields. */
  const TEXTURE_CLAMP_MODE_STD: nat := 0
  const TEXTURE_CLAMP_MODE_REGION_CLAMP: nat := 1
  const TEXTURE_CLAMP_MODE_REGION_REPEAT: nat := 2
  const TEXTURE_CLAMP_MODE_REGION_REPEAT_SIMPLE: nat := 3

  datatype Caps = Caps(
    texFunction: nat,
    texClampS: nat,
    texClampT: nat,
    texSourceMode: nat,
    texHasAlpha: nat,
    texBilinearFilter: nat,
    texUseAlphaExpansion: nat,
    texBlackIsTransparent: nat,
    hasFog: nat,
    hasAlphaTest: nat,
    alphaTestMethod: nat,
    alphaFailResult: nat,
    depthWriteEnabled: nat,
    depthTestMethod: nat,
    hasAlphaBlend: nat,
    blendFactorA: nat,
    blendFactorB: nat,
    blendFactorC: nat,
    blendFactorD: nat,
    padding1: nat,
    texPsm: nat,
    texCpsm: nat,
    framePsm: nat,
    depthPsm: nat,
    padding2: nat)

  /** `make_convertible<SHADERCAPS>(0)`: every field zero. */
  const ZeroCaps: Caps := Caps(0, 0, 0, 0, 0, 0, 0, 0, 0, 0, 0, 0, 0, 0, 0, 0, 0, 0, 0, 0, 0, 0, 0, 0, 0)

  /** Every field holds a value that fits its declared width. */
  predicate WellFormed(c: Caps)
  {
    c.texFunction < 4 && c.texClampS < 4 && c.texClampT < 4 && c.texSourceMode < 4 &&
    c.texHasAlpha < 2 && c.texBilinearFilter < 2 && c.texUseAlphaExpansion < 2 &&
    c.texBlackIsTransparent < 2 && c.hasFog < 2 && c.hasAlphaTest < 2 &&
    c.alphaTestMethod < 8 && c.alphaFailResult < 4 && c.depthWriteEnabled < 2 &&
    c.depthTestMethod < 4 && c.hasAlphaBlend < 2 &&
    c.blendFactorA < 4 && c.blendFactorB < 4 && c.blendFactorC < 4 && c.blendFactorD < 4 &&
    c.padding1 < 2 &&
    c.texPsm < 64 && c.texCpsm < 64 && c.framePsm < 64 && c.depthPsm < 64 &&
    c.padding2 < 256
  }

  // The low word is built from four consecutive groups of fields (bits 0-7,
  // 8-13, 14-22 and 23-31), each packed low field first.

  /** Bits 0-7: texture function, clamp modes and source mode. */
  function TextureGroup(c: Caps): nat
  {
    c.texFunction + 4 * (c.texClampS + 4 * (c.texClampT + 4 * c.texSourceMode))
  }

  /** Bits 8-13: the one-bit texture, fog and alpha-test flags. */
  function FlagGroup(c: Caps): nat
  {
    c.texHasAlpha + 2 * (c.texBilinearFilter + 2 * (c.texUseAlphaExpansion +
      2 * (c.texBlackIsTransparent + 2 * (c.hasFog + 2 * c.hasAlphaTest))))
  }

  /** Bits 14-22: alpha and depth test settings and the blend flag. */
  function TestGroup(c: Caps): nat
  {
    c.alphaTestMethod + 8 * (c.alphaFailResult + 4 * (c.depthWriteEnabled +
      2 * (c.depthTestMethod + 4 * c.hasAlphaBlend)))
  }

  /** Bits 23-31: the blend factors and `padding1`. */
  function BlendGroup(c: Caps): nat
  {
    c.blendFactorA + 4 * (c.blendFactorB + 4 * (c.blendFactorC + 4 * (c.blendFactorD + 4 * c.padding1)))
  }

  /** The low 32-bit word: every field through `padding1`. */
  function LowWord(c: Caps): nat
  {
    TextureGroup(c) + 0x100 * (FlagGroup(c) + 0x40 * (TestGroup(c) + 0x200 * BlendGroup(c)))
  }

  /** The high 32-bit word: the four PSM fields and `padding2`. */
  function HighWord(c: Caps): nat
  {
    c.texPsm + 64 * (c.texCpsm + 64 * (c.framePsm + 64 * (c.depthPsm + 64 * c.padding2)))
  }

  /** The 64-bit value of the descriptor (its `convertible<uint64>` view). */
  function Pack(c: Caps): nat
  {
    LowWord(c) + 0x1_0000_0000 * HighWord(c)
  }

  /**
   * The shader cache key: the descriptor cast to uint32, which keeps only
   * the low 32 bits.
   */
  function Key(c: Caps): nat
  {
    Pack(c) % 0x1_0000_0000
  }

  /** Whether the texture source reads an indexed (palettised) texture. */
  predicate IsIndexedTextureSource(c: Caps)
  {
    c.texSourceMode == TEXTURE_SOURCE_MODE_IDX4 || c.texSourceMode == TEXTURE_SOURCE_MODE_IDX8
  }

  // ---------------------------------------------------------------
  // Layout facts
  // ---------------------------------------------------------------

  /**
   * Every field sits at its declared bit offset: the descriptor value is the
   * sum of each field shifted by the total width of the fields before it.
   */
  lemma BitOffsets(c: Caps)
    ensures Pack(c) ==
      c.texFunction + 0x4 * c.texClampS + 0x10 * c.texClampT + 0x40 * c.texSourceMode +
      0x100 * c.texHasAlpha + 0x200 * c.texBilinearFilter + 0x400 * c.texUseAlphaExpansion +
      0x800 * c.texBlackIsTransparent + 0x1000 * c.hasFog + 0x2000 * c.hasAlphaTest +
      0x4000 * c.alphaTestMethod + 0x2_0000 * c.alphaFailResult + 0x8_0000 * c.depthWriteEnabled +
      0x10_0000 * c.depthTestMethod + 0x40_0000 * c.hasAlphaBlend +
      0x80_0000 * c.blendFactorA + 0x200_0000 * c.blendFactorB + 0x800_0000 * c.blendFactorC +
      0x2000_0000 * c.blendFactorD + 0x8000_0000 * c.padding1 +
      0x1_0000_0000 * c.texPsm + 0x40_0000_0000 * c.texCpsm + 0x1000_0000_0000 * c.framePsm +
      0x4_0000_0000_0000 * c.depthPsm + 0x100_0000_0000_0000 * c.padding2
  {}

  /**
   * The fields through `padding1` fill the low 32 bits and the PSM fields
   * with `padding2` the high 32 bits, so the whole descriptor is 64 bits.
   */
  lemma WordBounds(c: Caps)
    requires WellFormed(c)
    ensures LowWord(c) < 0x1_0000_0000
    ensures HighWord(c) < 0x1_0000_0000
    ensures Pack(c) < 0x1_0000_0000_0000_0000
  {
    GroupBounds(c);
  }

  lemma GroupBounds(c: Caps)
    requires WellFormed(c)
    ensures TextureGroup(c) < 0x100 && FlagGroup(c) < 0x40
    ensures TestGroup(c) < 0x200 && BlendGroup(c) < 0x200
  {}

  /** The cache key is exactly the low word. */
  lemma KeyIsLowWord(c: Caps)
    requires WellFormed(c)
    ensures Key(c) == LowWord(c)
  {
    WordBounds(c);
    DivModStep(LowWord(c), 0x1_0000_0000, HighWord(c));
  }

  /** The two descriptors agree on every field through `padding1`. */
  predicate SameLowFields(c1: Caps, c2: Caps)
  {
    c1.texFunction == c2.texFunction && c1.texClampS == c2.texClampS &&
    c1.texClampT == c2.texClampT && c1.texSourceMode == c2.texSourceMode &&
    c1.texHasAlpha == c2.texHasAlpha && c1.texBilinearFilter == c2.texBilinearFilter &&
    c1.texUseAlphaExpansion == c2.texUseAlphaExpansion &&
    c1.texBlackIsTransparent == c2.texBlackIsTransparent &&
    c1.hasFog == c2.hasFog && c1.hasAlphaTest == c2.hasAlphaTest &&
    c1.alphaTestMethod == c2.alphaTestMethod && c1.alphaFailResult == c2.alphaFailResult &&
    c1.depthWriteEnabled == c2.depthWriteEnabled && c1.depthTestMethod == c2.depthTestMethod &&
    c1.hasAlphaBlend == c2.hasAlphaBlend &&
    c1.blendFactorA == c2.blendFactorA && c1.blendFactorB == c2.blendFactorB &&
    c1.blendFactorC == c2.blendFactorC && c1.blendFactorD == c2.blendFactorD &&
    c1.padding1 == c2.padding1
  }

  /** The two descriptors agree on the PSM fields and `padding2`. */
  predicate SameHighFields(c1: Caps, c2: Caps)
  {
    c1.texPsm == c2.texPsm && c1.texCpsm == c2.texCpsm && c1.framePsm == c2.framePsm &&
    c1.depthPsm == c2.depthPsm && c1.padding2 == c2.padding2
  }

  lemma {:induction false} TextureGroupInjective(c1: Caps, c2: Caps)
    requires WellFormed(c1) && WellFormed(c2) && TextureGroup(c1) == TextureGroup(c2)
    ensures c1.texFunction == c2.texFunction && c1.texClampS == c2.texClampS
    ensures c1.texClampT == c2.texClampT && c1.texSourceMode == c2.texSourceMode
  {
    var t1 := c1.texClampT + 4 * c1.texSourceMode;
    var t2 := c2.texClampT + 4 * c2.texSourceMode;
    Peel(c1.texFunction, c1.texClampS + 4 * t1, c2.texFunction, c2.texClampS + 4 * t2, 4);
    Peel(c1.texClampS, t1, c2.texClampS, t2, 4);
    Peel(c1.texClampT, c1.texSourceMode, c2.texClampT, c2.texSourceMode, 4);
  }

  lemma {:induction false} FlagGroupInjective(c1: Caps, c2: Caps)
    requires WellFormed(c1) && WellFormed(c2) && FlagGroup(c1) == FlagGroup(c2)
    ensures c1.texHasAlpha == c2.texHasAlpha && c1.texBilinearFilter == c2.texBilinearFilter
    ensures c1.texUseAlphaExpansion == c2.texUseAlphaExpansion
    ensures c1.texBlackIsTransparent == c2.texBlackIsTransparent
    ensures c1.hasFog == c2.hasFog && c1.hasAlphaTest == c2.hasAlphaTest
  {
    var f1 := c1.hasFog + 2 * c1.hasAlphaTest;
    var f2 := c2.hasFog + 2 * c2.hasAlphaTest;
    var e1 := c1.texBlackIsTransparent + 2 * f1;
    var e2 := c2.texBlackIsTransparent + 2 * f2;
    var d1 := c1.texUseAlphaExpansion + 2 * e1;
    var d2 := c2.texUseAlphaExpansion + 2 * e2;
    Peel(c1.texHasAlpha, c1.texBilinearFilter + 2 * d1, c2.texHasAlpha, c2.texBilinearFilter + 2 * d2, 2);
    Peel(c1.texBilinearFilter, d1, c2.texBilinearFilter, d2, 2);
    Peel(c1.texUseAlphaExpansion, e1, c2.texUseAlphaExpansion, e2, 2);
    Peel(c1.texBlackIsTransparent, f1, c2.texBlackIsTransparent, f2, 2);
    Peel(c1.hasFog, c1.hasAlphaTest, c2.hasFog, c2.hasAlphaTest, 2);
  }

  lemma {:induction false} TestGroupInjective(c1: Caps, c2: Caps)
    requires WellFormed(c1) && WellFormed(c2) && TestGroup(c1) == TestGroup(c2)
    ensures c1.alphaTestMethod == c2.alphaTestMethod && c1.alphaFailResult == c2.alphaFailResult
    ensures c1.depthWriteEnabled == c2.depthWriteEnabled && c1.depthTestMethod == c2.depthTestMethod
    ensures c1.hasAlphaBlend == c2.hasAlphaBlend
  {
    var d1 := c1.depthTestMethod + 4 * c1.hasAlphaBlend;
    var d2 := c2.depthTestMethod + 4 * c2.hasAlphaBlend;
    var w1 := c1.depthWriteEnabled + 2 * d1;
    var w2 := c2.depthWriteEnabled + 2 * d2;
    Peel(c1.alphaTestMethod, c1.alphaFailResult + 4 * w1, c2.alphaTestMethod, c2.alphaFailResult + 4 * w2, 8);
    Peel(c1.alphaFailResult, w1, c2.alphaFailResult, w2, 4);
    Peel(c1.depthWriteEnabled, d1, c2.depthWriteEnabled, d2, 2);
    Peel(c1.depthTestMethod, c1.hasAlphaBlend, c2.depthTestMethod, c2.hasAlphaBlend, 4);
  }

  lemma {:induction false} BlendGroupInjective(c1: Caps, c2: Caps)
    requires WellFormed(c1) && WellFormed(c2) && BlendGroup(c1) == BlendGroup(c2)
    ensures c1.blendFactorA == c2.blendFactorA && c1.blendFactorB == c2.blendFactorB
    ensures c1.blendFactorC == c2.blendFactorC && c1.blendFactorD == c2.blendFactorD
    ensures c1.padding1 == c2.padding1
  {
    var d1 := c1.blendFactorD + 4 * c1.padding1;
    var d2 := c2.blendFactorD + 4 * c2.padding1;
    var b1 := c1.blendFactorC + 4 * d1;
    var b2 := c2.blendFactorC + 4 * d2;
    Peel(c1.blendFactorA, c1.blendFactorB + 4 * b1, c2.blendFactorA, c2.blendFactorB + 4 * b2, 4);
    Peel(c1.blendFactorB, b1, c2.blendFactorB, b2, 4);
    Peel(c1.blendFactorC, d1, c2.blendFactorC, d2, 4);
    Peel(c1.blendFactorD, c1.padding1, c2.blendFactorD, c2.padding1, 4);
  }

  /** Equal low words mean equal fields through `padding1`, and conversely. */
  lemma LowWordInjective(c1: Caps, c2: Caps)
    requires WellFormed(c1) && WellFormed(c2)
    ensures LowWord(c1) == LowWord(c2) <==> SameLowFields(c1, c2)
  {
    if LowWord(c1) == LowWord(c2) {
      LowWordGroups(c1, c2);
      TextureGroupInjective(c1, c2);
      FlagGroupInjective(c1, c2);
      TestGroupInjective(c1, c2);
      BlendGroupInjective(c1, c2);
    }
  }

  lemma {:induction false} LowWordGroups(c1: Caps, c2: Caps)
    requires WellFormed(c1) && WellFormed(c2) && LowWord(c1) == LowWord(c2)
    ensures TextureGroup(c1) == TextureGroup(c2) && FlagGroup(c1) == FlagGroup(c2)
    ensures TestGroup(c1) == TestGroup(c2) && BlendGroup(c1) == BlendGroup(c2)
  {
    GroupBounds(c1);
    GroupBounds(c2);
    var t1, f1, s1, b1 := TextureGroup(c1), FlagGroup(c1), TestGroup(c1), BlendGroup(c1);
    var t2, f2, s2, b2 := TextureGroup(c2), FlagGroup(c2), TestGroup(c2), BlendGroup(c2);
    Peel(t1, f1 + 0x40 * (s1 + 0x200 * b1), t2, f2 + 0x40 * (s2 + 0x200 * b2), 0x100);
    Peel(f1, s1 + 0x200 * b1, f2, s2 + 0x200 * b2, 0x40);
    Peel(s1, b1, s2, b2, 0x200);
  }

  /** Equal high words mean equal PSM fields and `padding2`, and conversely. */
  lemma {:induction false} HighWordInjective(c1: Caps, c2: Caps)
    requires WellFormed(c1) && WellFormed(c2)
    ensures HighWord(c1) == HighWord(c2) <==> SameHighFields(c1, c2)
  {
    if HighWord(c1) == HighWord(c2) {
      var d1 := c1.depthPsm + 64 * c1.padding2;
      var d2 := c2.depthPsm + 64 * c2.padding2;
      var f1 := c1.framePsm + 64 * d1;
      var f2 := c2.framePsm + 64 * d2;
      Peel(c1.texPsm, c1.texCpsm + 64 * f1, c2.texPsm, c2.texCpsm + 64 * f2, 64);
      Peel(c1.texCpsm, f1, c2.texCpsm, f2, 64);
      Peel(c1.framePsm, d1, c2.framePsm, d2, 64);
      Peel(c1.depthPsm, c1.padding2, c2.depthPsm, c2.padding2, 64);
    }
  }

  /**
   * The cache key sees exactly the low fields: two well-formed descriptors
   * have equal keys iff they agree on every field through `padding1`,
   * whatever their PSM fields hold.
   */
  lemma KeyEqualIffSameLowFields(c1: Caps, c2: Caps)
    requires WellFormed(c1) && WellFormed(c2)
    ensures Key(c1) == Key(c2) <==> SameLowFields(c1, c2)
  {
    KeyIsLowWord(c1);
    KeyIsLowWord(c2);
    LowWordInjective(c1, c2);
  }

  /** The full 64-bit value identifies a well-formed descriptor. */
  lemma {:induction false} PackInjective(c1: Caps, c2: Caps)
    requires WellFormed(c1) && WellFormed(c2)
    ensures Pack(c1) == Pack(c2) <==> c1 == c2
  {
    if Pack(c1) == Pack(c2) {
      WordBounds(c1);
      WordBounds(c2);
      Peel(LowWord(c1), HighWord(c1), LowWord(c2), HighWord(c2), 0x1_0000_0000);
      LowWordInjective(c1, c2);
      HighWordInjective(c1, c2);
    }
  }

  /** `isIndexedTextureSource()` holds exactly for the IDX4 and IDX8 source modes. */
  lemma IndexedSourceModes(c: Caps)
    ensures IsIndexedTextureSource(c) <==> c.texSourceMode == 2 || c.texSourceMode == 3
  {}

  /** Every texture clamp mode and texture source mode fits a 2-bit field. */
  lemma ClampAndSourceModesFit()
    ensures TEXTURE_CLAMP_MODE_STD < 4 && TEXTURE_CLAMP_MODE_REGION_CLAMP < 4
    ensures TEXTURE_CLAMP_MODE_REGION_REPEAT < 4 && TEXTURE_CLAMP_MODE_REGION_REPEAT_SIMPLE < 4
    ensures TEXTURE_SOURCE_MODE_NONE < 4 && TEXTURE_SOURCE_MODE_STD < 4
    ensures TEXTURE_SOURCE_MODE_IDX4 < 4 && TEXTURE_SOURCE_MODE_IDX8 < 4
  {}
}
