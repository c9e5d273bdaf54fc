/**
 * Derivation of the shader capability descriptor from the GS registers of
 * the current drawing context (`FillShaderCapsFrom*`), the region-repeat
 * simplification test, and the integer clamp range handed to the shader.
 */
module CapsDerivation {
  import opened GsRegs
  import opened ShaderCaps
  import opened Wrappers
  import opened Bits

  // ---------------------------------------------------------------
  // Region-repeat simplification
  // ---------------------------------------------------------------

  /** The all-ones masks 2^k - 1 for 1 <= k <= 9 that the simplification accepts. */
  const LowMasks: set<nat> := {0x1, 0x3, 0x7, 0xF, 0x1F, 0x3F, 0x7F, 0xFF, 0x1FF}

  /**
   * A REGION_REPEAT range can use the cheaper `mod` formula when the mask
   * is 2^k - 1 (1 <= k <= 9) and shares no bit with the offset.
   */
  predicate RegionRepeatSimplifiable(clampMin: nat, clampMax: nat)
  {
    clampMin in LowMasks && BitAnd(clampMin, clampMax) == 0
  }

  /** The mask values the loop below visits: 1, 3, 7, ..., 0x3FF. */
  predicate IsLoopMask(j: nat)
  {
    j in LowMasks || j == 0x3FF
  }

  /** `CanRegionRepeatClampModeSimplified`: walks the masks 1, 3, 7, ... below 0x3FF. */
  method CanRegionRepeatClampModeSimplified(clampMin: nat, clampMax: nat) returns (r: bool)
    ensures r <==> RegionRepeatSimplifiable(clampMin, clampMax)
  {
    var j: nat := 1;
    while j < 0x3FF
      invariant IsLoopMask(j)
      invariant forall m :: m in LowMasks && m < j ==> m != clampMin
      decreases 0x3FF - j
    {
      if clampMin < j {
        break;
      }
      if clampMin != j {
        j := 2 * j + 1;  // (j << 1) | 1
        continue;
      }
      if BitAnd(clampMin, clampMax) != 0 {
        break;
      }
      return true;
    }
    return false;
  }

  // ---------------------------------------------------------------
  // Clamp modes
  // ---------------------------------------------------------------

  /** `g_shaderClampModes`: GS wrap mode to shader clamp mode. */
  function ShaderClampMode(wrapMode: nat): (m: nat)
    requires wrapMode < 4
    ensures m < 4
    ensures m == TEXTURE_CLAMP_MODE_STD <==> wrapMode <= CLAMP_MODE_CLAMP
  {
    if wrapMode == CLAMP_MODE_REGION_CLAMP then TEXTURE_CLAMP_MODE_REGION_CLAMP
    else if wrapMode == CLAMP_MODE_REGION_REPEAT then TEXTURE_CLAMP_MODE_REGION_REPEAT
    else TEXTURE_CLAMP_MODE_STD
  }

  /** Shader clamp mode of one axis, with the region-repeat simplification applied. */
  function AxisClampMode(wrapMode: nat, clampMin: nat, clampMax: nat): (m: nat)
    requires wrapMode < 4 && clampMin < 0x400 && clampMax < 0x400
    ensures m < 4
    ensures m == TEXTURE_CLAMP_MODE_REGION_REPEAT_SIMPLE <==>
            wrapMode == CLAMP_MODE_REGION_REPEAT && RegionRepeatSimplifiable(clampMin, clampMax)
    ensures m == TEXTURE_CLAMP_MODE_REGION_REPEAT <==>
            wrapMode == CLAMP_MODE_REGION_REPEAT && !RegionRepeatSimplifiable(clampMin, clampMax)
  {
    var mode := ShaderClampMode(wrapMode);
    if mode == TEXTURE_CLAMP_MODE_REGION_REPEAT && RegionRepeatSimplifiable(clampMin, clampMax)
    then TEXTURE_CLAMP_MODE_REGION_REPEAT_SIMPLE
    else mode
  }

  /** Whether either axis uses a region mode, the guard of the clamp setup. */
  predicate UsesRegionClamp(clampReg: nat)
  {
    ClampWms(clampReg) > CLAMP_MODE_CLAMP || ClampWmt(clampReg) > CLAMP_MODE_CLAMP
  }

  // ---------------------------------------------------------------
  // FillShaderCapsFrom*
  // ---------------------------------------------------------------

  /** Texture source mode chosen for a texture PSM. */
  function TextureSourceMode(psm: nat): (m: nat)
    ensures m == TEXTURE_SOURCE_MODE_IDX4 <==> IsPsmIdTex4(psm)
    ensures m == TEXTURE_SOURCE_MODE_IDX8 <==> IsPsmIdTex(psm) && !IsPsmIdTex4(psm)
    ensures m == TEXTURE_SOURCE_MODE_STD <==> !IsPsmIdTex(psm)
  {
    if IsPsmIdTex(psm) then
      (if IsPsmIdTex4(psm) then TEXTURE_SOURCE_MODE_IDX4 else TEXTURE_SOURCE_MODE_IDX8)
    else TEXTURE_SOURCE_MODE_STD
  }

  /** Whether the texture needs alpha expansion (16/24-bit colour, or a 16-bit palette). */
  predicate UsesAlphaExpansion(tex0: nat)
  {
    var psm, cpsm := Tex0Psm(tex0), Tex0Cpsm(tex0);
    psm == PSMCT16 || psm == PSMCT16S || psm == PSMCT24 ||
    (IsPsmIdTex(psm) && (cpsm == PSMCT16 || cpsm == PSMCT16S))
  }

  /** Whether an indexed texture is filtered in the shader. */
  predicate UsesShaderBilinear(tex0: nat, tex1: nat, forceBilinear: bool)
  {
    IsPsmIdTex(Tex0Psm(tex0)) &&
    (Tex1MinFilter(tex1) != MIN_FILTER_NEAREST || Tex1MagFilter(tex1) != MIN_FILTER_NEAREST || forceBilinear)
  }

  /** The clamp-mode part of `FillShaderCapsFromTexture`. */
  function TextureClampCaps(c: Caps, clamp: nat): (r: Caps)
    ensures WellFormed(c) ==> WellFormed(r)
    ensures UsesRegionClamp(clamp) ==>
              r.texClampS == AxisClampMode(ClampWms(clamp), ClampMinU(clamp), ClampMaxU(clamp)) &&
              r.texClampT == AxisClampMode(ClampWmt(clamp), ClampMinV(clamp), ClampMaxV(clamp))
    ensures !UsesRegionClamp(clamp) ==> r == c
    ensures r.(texClampS := c.texClampS, texClampT := c.texClampT) == c
  {
    if UsesRegionClamp(clamp) then
      c.(texClampS := AxisClampMode(ClampWms(clamp), ClampMinU(clamp), ClampMaxU(clamp)),
         texClampT := AxisClampMode(ClampWmt(clamp), ClampMinV(clamp), ClampMaxV(clamp)))
    else c
  }

  /** The one-bit sampling flags set by `FillShaderCapsFromTexture`; a flag is only ever raised. */
  function TextureSamplingCaps(c: Caps, tex0: nat, tex1: nat, texA: nat, forceBilinear: bool): (r: Caps)
    ensures WellFormed(c) ==> WellFormed(r)
    ensures UsesShaderBilinear(tex0, tex1, forceBilinear) ==> r.texBilinearFilter == 1
    ensures !UsesShaderBilinear(tex0, tex1, forceBilinear) ==> r.texBilinearFilter == c.texBilinearFilter
    ensures Tex0ColorComp(tex0) == 1 ==> r.texHasAlpha == 1
    ensures Tex0ColorComp(tex0) != 1 ==> r.texHasAlpha == c.texHasAlpha
    ensures UsesAlphaExpansion(tex0) ==> r.texUseAlphaExpansion == 1
    ensures !UsesAlphaExpansion(tex0) ==> r.texUseAlphaExpansion == c.texUseAlphaExpansion
    ensures TexAAem(texA) == 1 ==> r.texBlackIsTransparent == 1
    ensures TexAAem(texA) != 1 ==> r.texBlackIsTransparent == c.texBlackIsTransparent
    ensures r.(texBilinearFilter := c.texBilinearFilter, texHasAlpha := c.texHasAlpha,
               texUseAlphaExpansion := c.texUseAlphaExpansion, texBlackIsTransparent := c.texBlackIsTransparent) == c
  {
    var c1 := if UsesShaderBilinear(tex0, tex1, forceBilinear) then c.(texBilinearFilter := 1) else c;
    var c2 := if Tex0ColorComp(tex0) == 1 then c1.(texHasAlpha := 1) else c1;
    var c3 := if UsesAlphaExpansion(tex0) then c2.(texUseAlphaExpansion := 1) else c2;
    if TexAAem(texA) == 1 then c3.(texBlackIsTransparent := 1) else c3
  }

  /** `FillShaderCapsFromTexture`. */
  function FillShaderCapsFromTexture(c: Caps, tex0: nat, tex1: nat, texA: nat, clamp: nat, forceBilinear: bool): (r: Caps)
    ensures WellFormed(c) ==> WellFormed(r)
    ensures r.texSourceMode == TextureSourceMode(Tex0Psm(tex0))
    ensures r.texPsm == Tex0Psm(tex0) && r.texCpsm == Tex0Cpsm(tex0) && r.texFunction == Tex0Function(tex0)
    ensures r.(texSourceMode := c.texSourceMode, texClampS := c.texClampS, texClampT := c.texClampT,
               texBilinearFilter := c.texBilinearFilter, texHasAlpha := c.texHasAlpha,
               texUseAlphaExpansion := c.texUseAlphaExpansion, texBlackIsTransparent := c.texBlackIsTransparent,
               texFunction := c.texFunction, texPsm := c.texPsm, texCpsm := c.texCpsm) == c
  {
    var psm := Tex0Psm(tex0);
    var c1 := c.(texSourceMode := TEXTURE_SOURCE_MODE_STD);
    var c2 := TextureClampCaps(c1, clamp);
    var c3 := TextureSamplingCaps(c2, tex0, tex1, texA, forceBilinear);
    var c4 := if IsPsmIdTex(psm) then c3.(texSourceMode := TextureSourceMode(psm)) else c3;
    c4.(texFunction := Tex0Function(tex0), texPsm := psm, texCpsm := Tex0Cpsm(tex0))
  }

  /** `FillShaderCapsFromFrame`. */
  function FillShaderCapsFromFrame(c: Caps, frame: nat): (r: Caps)
    ensures WellFormed(c) ==> WellFormed(r)
    ensures r.framePsm == FramePsm(frame)
    ensures r.(framePsm := c.framePsm) == c
  {
    c.(framePsm := FramePsm(frame))
  }

  /** Whether the alpha test is the NEVER/non-KEEP idiom that only masks writes. */
  predicate AlphaTestMasksOnly(test: nat)
  {
    TestAlphaMethod(test) == ALPHA_TEST_NEVER && TestAlphaFail(test) != ALPHA_TEST_FAIL_KEEP
  }

  /** Whether the alpha test always fails and keeps only the colour (FBONLY/RGBONLY). */
  predicate AlphaTestDisablesDepthWrite(test: nat)
  {
    TestAlphaEnabled(test) == 1 && TestAlphaMethod(test) == ALPHA_TEST_NEVER &&
    (TestAlphaFail(test) == ALPHA_TEST_FAIL_FBONLY || TestAlphaFail(test) == ALPHA_TEST_FAIL_RGBONLY)
  }

  /** `FillShaderCapsFromTestAndZbuf`. */
  function FillShaderCapsFromTestAndZbuf(c: Caps, test: nat, zbuf: nat): (r: Caps)
    ensures WellFormed(c) ==> WellFormed(r)
    ensures r.hasAlphaTest == 1 <==> TestAlphaEnabled(test) == 1 && !AlphaTestMasksOnly(test)
    ensures r.hasAlphaTest == 1 ==>
              r.alphaTestMethod == TestAlphaMethod(test) && r.alphaFailResult == TestAlphaFail(test)
    ensures r.hasAlphaTest == 0 ==>
              r.alphaTestMethod == c.alphaTestMethod && r.alphaFailResult == c.alphaFailResult
    ensures r.depthTestMethod == (if TestDepthEnabled(test) == 1 then TestDepthMethod(test) else DEPTH_TEST_ALWAYS)
    ensures r.depthWriteEnabled == 1 <==> ZbufMask(zbuf) == 0 && !AlphaTestDisablesDepthWrite(test)
    ensures 0x30 <= r.depthPsm < 0x40 && r.depthPsm % 0x10 == ZbufPsm(zbuf)
    ensures r.(hasAlphaTest := c.hasAlphaTest, alphaTestMethod := c.alphaTestMethod,
               alphaFailResult := c.alphaFailResult, depthTestMethod := c.depthTestMethod,
               depthWriteEnabled := c.depthWriteEnabled, depthPsm := c.depthPsm) == c
  {
    var c1 :=
      if TestAlphaEnabled(test) == 1 then
        (if AlphaTestMasksOnly(test) then c.(hasAlphaTest := 0)
         else c.(hasAlphaTest := 1, alphaTestMethod := TestAlphaMethod(test), alphaFailResult := TestAlphaFail(test)))
      else c.(hasAlphaTest := 0);
    var c2 := c1.(depthTestMethod := if TestDepthEnabled(test) == 1 then TestDepthMethod(test) else DEPTH_TEST_ALWAYS);
    var depthWrite := ZbufMask(zbuf) == 0 && !AlphaTestDisablesDepthWrite(test);
    c2.(depthWriteEnabled := if depthWrite then 1 else 0, depthPsm := ZbufPsm(zbuf) + 0x30)
  }

  /** `FillShaderCapsFromAlpha`. */
  function FillShaderCapsFromAlpha(c: Caps, alpha: nat): (r: Caps)
    ensures WellFormed(c) ==> WellFormed(r)
    ensures r.blendFactorA == AlphaA(alpha) && r.blendFactorB == AlphaB(alpha)
    ensures r.blendFactorC == AlphaC(alpha) && r.blendFactorD == AlphaD(alpha)
    ensures r.(blendFactorA := c.blendFactorA, blendFactorB := c.blendFactorB,
               blendFactorC := c.blendFactorC, blendFactorD := c.blendFactorD) == c
  {
    c.(blendFactorA := AlphaA(alpha), blendFactorB := AlphaB(alpha),
       blendFactorC := AlphaC(alpha), blendFactorD := AlphaD(alpha))
  }

  /** The registers of one drawing context that feed the render state. */
  datatype ContextRegs = ContextRegs(
    test: nat, frame: nat, alpha: nat, zbuf: nat, tex0: nat, tex1: nat,
    texA: nat, clamp: nat, fogCol: nat, scissor: nat)

  /** The PRIM-dependent part of `SetRenderingContext`'s descriptor: blend, fog, texturing. */
  function ApplyPrimitiveFlags(c: Caps, prim: nat): (r: Caps)
    requires c.texSourceMode != TEXTURE_SOURCE_MODE_NONE
    ensures WellFormed(c) ==> WellFormed(r)
    ensures r.hasAlphaBlend == PrimAlpha(prim)
    ensures PrimFog(prim) == 1 ==> r.hasFog == 1
    ensures PrimFog(prim) != 1 ==> r.hasFog == c.hasFog
    ensures PrimTexture(prim) == 0 <==> r.texSourceMode == TEXTURE_SOURCE_MODE_NONE
    ensures r.(hasAlphaBlend := c.hasAlphaBlend, hasFog := c.hasFog, texSourceMode := c.texSourceMode) == c
  {
    var c1 := c.(hasAlphaBlend := PrimAlpha(prim));
    var c2 := if PrimFog(prim) == 1 then c1.(hasFog := 1) else c1;
    if PrimTexture(prim) == 0 then c2.(texSourceMode := TEXTURE_SOURCE_MODE_NONE) else c2
  }

  /** The descriptor computed at the start of `SetRenderingContext`. */
  function DeriveShaderCaps(prim: nat, r: ContextRegs, forceBilinear: bool): (caps: Caps)
    ensures WellFormed(caps)
    ensures PrimTexture(prim) == 0 <==> caps.texSourceMode == TEXTURE_SOURCE_MODE_NONE
  {
    var c0 := FillShaderCapsFromTexture(ZeroCaps, r.tex0, r.tex1, r.texA, r.clamp, forceBilinear);
    var c1 := FillShaderCapsFromFrame(c0, r.frame);
    var c2 := FillShaderCapsFromTestAndZbuf(c1, r.test, r.zbuf);
    var c3 := FillShaderCapsFromAlpha(c2, r.alpha);
    ApplyPrimitiveFlags(c3, prim)
  }

  /** The primitive's alpha-blend and fog flags reach the descriptor; padding stays zero. */
  lemma DerivedPrimitiveFlags(prim: nat, r: ContextRegs, forceBilinear: bool)
    ensures DeriveShaderCaps(prim, r, forceBilinear).hasAlphaBlend == PrimAlpha(prim)
    ensures PrimFog(prim) == 1 ==> DeriveShaderCaps(prim, r, forceBilinear).hasFog == 1
    ensures DeriveShaderCaps(prim, r, forceBilinear).padding1 == 0
    ensures DeriveShaderCaps(prim, r, forceBilinear).padding2 == 0
  {}

  /**
   * The alpha-test "write mask" idioms never reach the shader as an alpha
   * test, and the colour-only ones switch depth writes off.
   */
  lemma MaskingAlphaTestReachesCaps(prim: nat, r: ContextRegs, forceBilinear: bool)
    requires TestAlphaEnabled(r.test) == 1 && AlphaTestMasksOnly(r.test)
    ensures DeriveShaderCaps(prim, r, forceBilinear).hasAlphaTest == 0
    ensures TestAlphaFail(r.test) in {ALPHA_TEST_FAIL_FBONLY, ALPHA_TEST_FAIL_RGBONLY} ==>
              DeriveShaderCaps(prim, r, forceBilinear).depthWriteEnabled == 0
  {}

  /** Changing only the frame PSM changes only the descriptor's `framePsm`. */
  lemma FramePsmOnlyTouchesFramePsm(prim: nat, r: ContextRegs, frame2: nat, forceBilinear: bool)
    ensures DeriveShaderCaps(prim, r.(frame := frame2), forceBilinear) ==
            DeriveShaderCaps(prim, r, forceBilinear).(framePsm := FramePsm(frame2))
  {}

  // ---------------------------------------------------------------
  // Integer clamp range (SetupTexture)
  // ---------------------------------------------------------------

  /**
   * The integer clamp bounds of one axis handed to the shader, or None
   * when they are scaled by the texture's floating-point scale ratio
   * (REGION_CLAMP). A simplifiable REGION_REPEAT mask is incremented so
   * the shader can use it as a modulus.
   */
  function AxisClampRange(wrapMode: nat, clampMin: nat, clampMax: nat): (range: Option<(nat, nat)>)
    requires wrapMode < 4 && clampMin < 0x400 && clampMax < 0x400
    ensures range.None? <==> wrapMode == CLAMP_MODE_REGION_CLAMP
    ensures range.Some? && AxisClampMode(wrapMode, clampMin, clampMax) == TEXTURE_CLAMP_MODE_REGION_REPEAT_SIMPLE ==>
              range.value == (clampMin + 1, clampMax)
    ensures range.Some? && AxisClampMode(wrapMode, clampMin, clampMax) != TEXTURE_CLAMP_MODE_REGION_REPEAT_SIMPLE ==>
              range.value == (clampMin, clampMax)
  {
    var mode := ShaderClampMode(wrapMode);
    if mode == TEXTURE_CLAMP_MODE_REGION_CLAMP then None
    else if mode == TEXTURE_CLAMP_MODE_REGION_REPEAT && RegionRepeatSimplifiable(clampMin, clampMax)
    then Some((clampMin + 1, clampMax))
    else Some((clampMin, clampMax))
  }

}
