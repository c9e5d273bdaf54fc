/**
 * The decisions `GenerateFragmentShader` builds into a fragment program
 * from the shader capabilities: the alpha and depth tests, which of the
 * depth and colour writes happen, where each colour channel of the
 * written pixel comes from, the blend operands, and the addressing of the
 * frame and depth buffers.
 *
 * The generator emits text; here each emitted branch is the value it
 * computes for one fragment. Colours are left abstract (their arithmetic
 * is floating point): a channel is described by where it comes from.
 */
module FragmentLogic {
  import opened Wrappers
  import opened GsRegs
  import opened ShaderCaps
  import opened GlslAddress
  import opened RenderState

  // ---------------------------------------------------------------
  // Alpha test
  // ---------------------------------------------------------------

  /** The condition under which each alpha-test method lets a fragment pass. */
  predicate AlphaTestPasses(testMethod: nat, alpha: nat, alphaRef: nat)
  {
    match testMethod
    case 0 => false                      // NEVER
    case 1 => true                       // ALWAYS
    case 2 => alpha < alphaRef           // LESS
    case 3 => alpha <= alphaRef          // LEQUAL
    case 4 => alpha == alphaRef          // EQUAL
    case 5 => alpha >= alphaRef          // GEQUAL
    case 6 => alpha > alphaRef           // GREATER
    case _ => alpha != alphaRef          // NOTEQUAL
  }

  /**
   * `alphaTestFail` as `GenerateAlphaTestSection` computes it, for the
   * integer alpha `uint(textureColor.a * 255.0)`: each method tests the
   * failing comparison; an unknown method leaves the initial `false`.
   */
  function AlphaTestFail(testMethod: nat, alpha: nat, alphaRef: nat): (fail: bool)
    ensures testMethod <= ALPHA_TEST_NOTEQUAL ==> (fail <==> !AlphaTestPasses(testMethod, alpha, alphaRef))
    ensures testMethod > ALPHA_TEST_NOTEQUAL ==> !fail
  {
    if testMethod == ALPHA_TEST_NEVER then true
    else if testMethod == ALPHA_TEST_ALWAYS then false
    else if testMethod == ALPHA_TEST_LESS then alpha >= alphaRef
    else if testMethod == ALPHA_TEST_LEQUAL then alpha > alphaRef
    else if testMethod == ALPHA_TEST_EQUAL then alpha != alphaRef
    else if testMethod == ALPHA_TEST_GEQUAL then alpha < alphaRef
    else if testMethod == ALPHA_TEST_GREATER then alpha <= alphaRef
    else if testMethod == ALPHA_TEST_NOTEQUAL then alpha == alphaRef
    else false
  }

  /** `alphaTestFail` of a fragment: the section is only emitted when the caps enable the test. */
  function AlphaFailFlag(caps: Caps, alpha: nat, alphaRef: nat): (fail: bool)
    ensures fail ==> caps.hasAlphaTest != 0
    ensures caps.hasAlphaTest != 0 && caps.alphaTestMethod <= ALPHA_TEST_NOTEQUAL ==>
              (fail <==> !AlphaTestPasses(caps.alphaTestMethod, alpha, alphaRef))
  {
    caps.hasAlphaTest != 0 && AlphaTestFail(caps.alphaTestMethod, alpha, alphaRef)
  }

  // ---------------------------------------------------------------
  // Depth test
  // ---------------------------------------------------------------

  /** The condition under which each depth-test method lets a fragment pass. */
  predicate DepthTestPasses(testMethod: nat, depth: nat, dstDepth: nat)
  {
    match testMethod
    case 0 => false                      // NEVER
    case 1 => true                       // ALWAYS
    case 2 => depth >= dstDepth          // GEQUAL
    case _ => depth > dstDepth           // GREATER
  }

  /** `depthTestFail` as the depth-test switch sets it; it starts out `false`. */
  function DepthTestFail(testMethod: nat, depth: nat, dstDepth: nat): (fail: bool)
    ensures testMethod <= DEPTH_TEST_GREATER ==> (fail <==> !DepthTestPasses(testMethod, depth, dstDepth))
    ensures testMethod > DEPTH_TEST_GREATER ==> !fail
  {
    if testMethod == DEPTH_TEST_NEVER then true
    else if testMethod == DEPTH_TEST_GEQUAL then depth < dstDepth
    else if testMethod == DEPTH_TEST_GREATER then depth <= dstDepth
    else false
  }

  /** Only the comparing methods read the destination depth. */
  predicate ReadsDestinationDepth(testMethod: nat)
  {
    testMethod == DEPTH_TEST_GEQUAL || testMethod == DEPTH_TEST_GREATER
  }

  /** The methods that do not read it decide without it. */
  lemma DepthTestIgnoresDestination(testMethod: nat, depth: nat, dst1: nat, dst2: nat)
    requires !ReadsDestinationDepth(testMethod)
    ensures DepthTestFail(testMethod, depth, dst1) == DepthTestFail(testMethod, depth, dst2)
  {
  }

  // ---------------------------------------------------------------
  // Buffer formats
  // ---------------------------------------------------------------

  /**
   * `depthBits` of the generator: the size of the depth format, 0 for a
   * format that is not a depth format (the generator asserts there).
   */
  function DepthBitsOf(depthPsm: nat): (bits: nat)
    ensures bits in {0, 16, 24, 32}
    ensures bits != 0 <==> depthPsm in {PSMZ32, PSMZ24, PSMZ16, PSMZ16S}
    ensures bits != 0 ==> bits == PsmPixelSize(depthPsm)
  {
    if depthPsm == PSMZ32 then 32
    else if depthPsm == PSMZ24 then 24
    else if depthPsm == PSMZ16 || depthPsm == PSMZ16S then 16
    else 0
  }

  /**
   * The page layout `frameAddress` is computed with: CT32 for the 32- and
   * 24-bit colour formats, CT16 for the 16-bit ones, none otherwise.
   */
  function FrameLayout(framePsm: nat): (layout: Option<PageLayout>)
    ensures layout.Some? <==> framePsm in {PSMCT32, PSMCT24, PSMCT16, PSMCT16S}
    ensures layout == Some(PageCT32) <==> layout.Some? && PsmPixelSize(framePsm) >= 24
    ensures layout == Some(PageCT16) <==> layout.Some? && PsmPixelSize(framePsm) == 16
  {
    if framePsm == PSMCT32 || framePsm == PSMCT24 then Some(PageCT32)
    else if framePsm == PSMCT16 || framePsm == PSMCT16S then Some(PageCT16)
    else None
  }

  /** The page layout `depthAddress` is computed with, by `depthBits`. */
  function DepthLayout(depthBits: nat): (layout: Option<PageLayout>)
    ensures layout.Some? <==> depthBits in {16, 24, 32}
    ensures layout == Some(PageCT16) <==> depthBits == 16
  {
    if depthBits == 32 || depthBits == 24 then Some(PageCT32)
    else if depthBits == 16 then Some(PageCT16)
    else None
  }

  /** The depth of a 24-bit buffer is addressed like a 32-bit one. */
  lemma DepthLayoutOfFormat(depthPsm: nat)
    ensures DepthLayout(DepthBitsOf(depthPsm)) == Some(PageCT32) <==> depthPsm in {PSMZ32, PSMZ24}
    ensures DepthLayout(DepthBitsOf(depthPsm)) == Some(PageCT16) <==> depthPsm in {PSMZ16, PSMZ16S}
  {
  }

  /**
   * The value the depth write stores: the low half of the depth for a
   * 16-bit buffer. The 32-bit write is emitted without a value and the
   * 24-bit one not at all, so neither has one here.
   */
  function DepthWriteValue(depthBits: nat, depth: nat): (value: Option<nat>)
    ensures value.Some? <==> depthBits == 16
    ensures value.Some? ==> value.value < 0x1_0000 && (depth - value.value) % 0x1_0000 == 0
  {
    if depthBits == 16 then Some(depth % 0x1_0000) else None
  }

  // ---------------------------------------------------------------
  // Write gating
  // ---------------------------------------------------------------

  /** What a fragment does to the buffers. */
  datatype Writes = Writes(discarded: bool, depthWritten: bool, colorWritten: bool)

  /**
   * The fragment's writes: a KEEP alpha test discards failing fragments
   * at once; otherwise the depth write (when enabled) and the colour write
   * are each guarded by the depth test, and additionally by the alpha test
   * when its fail mode is FBONLY (for depth) or ZBONLY (for colour).
   */
  function FragmentWrites(caps: Caps, alphaFail: bool, depthFail: bool): (w: Writes)
    ensures w.discarded <==> caps.hasAlphaTest != 0 && caps.alphaFailResult == ALPHA_TEST_FAIL_KEEP && alphaFail
    ensures w.discarded ==> !w.depthWritten && !w.colorWritten
    ensures !w.discarded ==>
              (w.depthWritten <==> caps.depthWriteEnabled != 0 && !depthFail &&
                                   (!(caps.hasAlphaTest != 0 && caps.alphaFailResult == ALPHA_TEST_FAIL_FBONLY) || !alphaFail))
    ensures !w.discarded ==>
              (w.colorWritten <==> !depthFail &&
                                   (!(caps.hasAlphaTest != 0 && caps.alphaFailResult == ALPHA_TEST_FAIL_ZBONLY) || !alphaFail))
  {
    var hasAlphaTest := caps.hasAlphaTest != 0;
    if hasAlphaTest && caps.alphaFailResult == ALPHA_TEST_FAIL_KEEP && alphaFail then
      Writes(true, false, false)
    else
      var depthCondition :=
        if hasAlphaTest && caps.alphaFailResult == ALPHA_TEST_FAIL_FBONLY then !depthFail && !alphaFail
        else !depthFail;
      var colorCondition :=
        if hasAlphaTest && caps.alphaFailResult == ALPHA_TEST_FAIL_ZBONLY then !depthFail && !alphaFail
        else !depthFail;
      Writes(false, caps.depthWriteEnabled != 0 && depthCondition, colorCondition)
  }

  /**
   * The GS meaning of each alpha-test fail mode, for a fragment that fails
   * the alpha test but passes the depth test: KEEP writes nothing, FBONLY
   * only the colour, ZBONLY only the depth, RGBONLY both (with the alpha
   * channel kept, see `ChannelSources`).
   */
  lemma AlphaFailModes(caps: Caps)
    requires caps.hasAlphaTest != 0 && caps.depthWriteEnabled != 0
    ensures caps.alphaFailResult == ALPHA_TEST_FAIL_KEEP ==> FragmentWrites(caps, true, false) == Writes(true, false, false)
    ensures caps.alphaFailResult == ALPHA_TEST_FAIL_FBONLY ==> FragmentWrites(caps, true, false) == Writes(false, false, true)
    ensures caps.alphaFailResult == ALPHA_TEST_FAIL_ZBONLY ==> FragmentWrites(caps, true, false) == Writes(false, true, false)
    ensures caps.alphaFailResult == ALPHA_TEST_FAIL_RGBONLY ==> FragmentWrites(caps, true, false) == Writes(false, true, true)
  {
  }

  /** A fragment that passes both tests is never discarded and writes colour, and depth when enabled. */
  lemma PassingFragmentWrites(caps: Caps)
    ensures FragmentWrites(caps, false, false) == Writes(false, caps.depthWriteEnabled != 0, true)
  {
  }

  /** A fragment that fails the depth test writes nothing, whatever the alpha test says. */
  lemma DepthFailWritesNothing(caps: Caps, alphaFail: bool)
    ensures !FragmentWrites(caps, alphaFail, true).depthWritten
    ensures !FragmentWrites(caps, alphaFail, true).colorWritten
  {
  }

  /**
   * The writes of one fragment from its values: the alpha against the
   * reference, the depth against the destination depth (read only when
   * the method needs it).
   */
  function ShadeWrites(caps: Caps, alpha: nat, alphaRef: nat, depth: nat, dstDepth: nat): (w: Writes)
    ensures caps.hasAlphaTest == 0 ==> !w.discarded
    ensures caps.depthTestMethod == DEPTH_TEST_NEVER ==> !w.depthWritten && !w.colorWritten
    ensures caps.depthTestMethod == DEPTH_TEST_ALWAYS && caps.hasAlphaTest == 0 ==>
              w == Writes(false, caps.depthWriteEnabled != 0, true)
  {
    FragmentWrites(caps, AlphaFailFlag(caps, alpha, alphaRef), DepthTestFail(caps.depthTestMethod, depth, dstDepth))
  }

  // ---------------------------------------------------------------
  // The written pixel
  // ---------------------------------------------------------------

  /** Where a channel of the written pixel comes from. */
  datatype Channel = FromFragment | FromDestination

  datatype ChannelSources = ChannelSources(r: Channel, g: Channel, b: Channel, a: Channel)

  /** `(g_colorMask & (0xFF << 8k)) == 0`: the mask clears every bit of channel `k`. */
  predicate ChannelMasked(colorMask: nat, k: nat)
  {
    ByteOf(colorMask, k) == 0
  }

  /**
   * The channels of the pixel the colour write stores: a failing RGBONLY
   * alpha test keeps the destination alpha, the colour mask keeps each
   * fully masked channel, and a PSMCT24 frame always keeps its alpha.
   */
  function PixelChannels(caps: Caps, alphaFail: bool, colorMask: nat): (c: ChannelSources)
    ensures c.r == FromDestination <==> ChannelMasked(colorMask, 0)
    ensures c.g == FromDestination <==> ChannelMasked(colorMask, 1)
    ensures c.b == FromDestination <==> ChannelMasked(colorMask, 2)
    ensures c.a == FromDestination <==>
              (caps.hasAlphaTest != 0 && caps.alphaFailResult == ALPHA_TEST_FAIL_RGBONLY && alphaFail) ||
              ChannelMasked(colorMask, 3) || caps.framePsm == PSMCT24
  {
    var alphaTested := if caps.hasAlphaTest != 0 && caps.alphaFailResult == ALPHA_TEST_FAIL_RGBONLY && alphaFail
                       then FromDestination else FromFragment;
    var alphaMasked := if ChannelMasked(colorMask, 3) then FromDestination else alphaTested;
    var b := if ChannelMasked(colorMask, 2) then FromDestination else FromFragment;
    var g := if ChannelMasked(colorMask, 1) then FromDestination else FromFragment;
    var r := if ChannelMasked(colorMask, 0) then FromDestination else FromFragment;
    var a := if caps.framePsm == PSMCT24 then FromDestination else alphaMasked;
    ChannelSources(r, g, b, a)
  }

  /**
   * With the colour mask the renderer uploads (the complement of FBMSK),
   * the written pixel keeps a colour channel exactly when FBMSK masks all
   * eight bits of it.
   */
  lemma ChannelsFromFrameMask(caps: Caps, alphaFail: bool, frame: nat)
    ensures var c := PixelChannels(caps, alphaFail, FragmentColorMask(frame));
            (c.r == FromDestination <==> ByteOf(FrameMask(frame), 0) == 0xFF) &&
            (c.g == FromDestination <==> ByteOf(FrameMask(frame), 1) == 0xFF) &&
            (c.b == FromDestination <==> ByteOf(FrameMask(frame), 2) == 0xFF)
  {
    var m := FrameMask(frame);
    assert Pow256(2) == 0x1_0000;
    assert Pow256(4) == 0x1_0000_0000;
    ComplementBytes(m, 4, 0);
    ComplementBytes(m, 4, 1);
    ComplementBytes(m, 4, 2);
  }

  // ---------------------------------------------------------------
  // Blend operands
  // ---------------------------------------------------------------

  /** A colour operand of the blend equation. */
  datatype BlendColor = SourceColor | DestinationColor | ZeroColor

  /** The alpha operand of the blend equation. */
  datatype BlendAlpha = SourceAlpha | DestinationAlpha | FixedAlpha | ZeroAlpha

  /** `GenerateAlphaBlendABDValue`: the reserved selector asserts and yields zero. */
  function BlendABDValue(factor: nat): (c: BlendColor)
    ensures c == SourceColor <==> factor == ALPHABLEND_ABD_CS
    ensures c == DestinationColor <==> factor == ALPHABLEND_ABD_CD
  {
    if factor == ALPHABLEND_ABD_CS then SourceColor
    else if factor == ALPHABLEND_ABD_CD then DestinationColor
    else ZeroColor
  }

  /** `GenerateAlphaBlendCValue`: the reserved selector asserts and yields zero. */
  function BlendCValue(factor: nat): (c: BlendAlpha)
    ensures c == SourceAlpha <==> factor == ALPHABLEND_C_AS
    ensures c == DestinationAlpha <==> factor == ALPHABLEND_C_AD
    ensures c == FixedAlpha <==> factor == ALPHABLEND_C_FIX
  {
    if factor == ALPHABLEND_C_AS then SourceAlpha
    else if factor == ALPHABLEND_C_AD then DestinationAlpha
    else if factor == ALPHABLEND_C_FIX then FixedAlpha
    else ZeroAlpha
  }

  /** The value of a colour operand, given the source and destination channel values. */
  function ColorOperand(c: BlendColor, source: real, destination: real): real
  {
    match c
    case SourceColor => source
    case DestinationColor => destination
    case ZeroColor => 0.0
  }

  /** The value of the alpha operand; the fixed alpha is `g_alphaFix / 255`. */
  function AlphaOperand(c: BlendAlpha, sourceAlpha: real, destinationAlpha: real, alphaFix: nat): real
  {
    match c
    case SourceAlpha => sourceAlpha
    case DestinationAlpha => destinationAlpha
    case FixedAlpha => alphaFix as real / 255.0
    case ZeroAlpha => 0.0
  }

  /**
   * One colour channel after blending: `((colorA - colorB) * alphaC * 2) + colorD`
   * in exact arithmetic when the caps enable blending, the fragment's own
   * value otherwise.
   */
  function BlendChannel(caps: Caps, source: real, destination: real,
                        sourceAlpha: real, destinationAlpha: real, alphaFix: nat): (v: real)
    ensures caps.hasAlphaBlend == 0 ==> v == source
    ensures caps.hasAlphaBlend != 0 && caps.blendFactorA == caps.blendFactorB ==>
              v == ColorOperand(BlendABDValue(caps.blendFactorD), source, destination)
    ensures caps.hasAlphaBlend != 0 && caps.blendFactorC == ALPHABLEND_C_INVALID ==>
              v == ColorOperand(BlendABDValue(caps.blendFactorD), source, destination)
  {
    if caps.hasAlphaBlend == 0 then source else
    var colorA := ColorOperand(BlendABDValue(caps.blendFactorA), source, destination);
    var colorB := ColorOperand(BlendABDValue(caps.blendFactorB), source, destination);
    var colorD := ColorOperand(BlendABDValue(caps.blendFactorD), source, destination);
    var alphaC := AlphaOperand(BlendCValue(caps.blendFactorC), sourceAlpha, destinationAlpha, alphaFix);
    ((colorA - colorB) * alphaC * 2.0) + colorD
  }

  /**
   * The usual alpha blend Cs*As*2 + Cd*(1 - As*2) is selected by
   * A = Cs, B = Cd, C = As, D = Cd.
   */
  lemma StandardAlphaBlend(caps: Caps, source: real, destination: real,
                           sourceAlpha: real, destinationAlpha: real, alphaFix: nat)
    requires caps.hasAlphaBlend != 0
    requires caps.blendFactorA == ALPHABLEND_ABD_CS && caps.blendFactorB == ALPHABLEND_ABD_CD
    requires caps.blendFactorC == ALPHABLEND_C_AS && caps.blendFactorD == ALPHABLEND_ABD_CD
    ensures BlendChannel(caps, source, destination, sourceAlpha, destinationAlpha, alphaFix) ==
            source * (sourceAlpha * 2.0) + destination * (1.0 - sourceAlpha * 2.0)
  {
  }
}
