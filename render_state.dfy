/**
 * The render state `SetRenderingContext` tracks (`RENDERSTATE`), the
 * integer part of the fragment parameter block (`FRAGMENTPARAMS`), and the
 * register-to-state derivations of the `Setup*` functions.
 */
module RenderState {
  import opened GsRegs
  import opened Wrappers
  import opened ShaderCaps
  import opened Transfer
  import opened ResourceCaches
  import opened CapsDerivation
  import opened Arith

  /** The registers `SetRenderingContext` compares against the ones it last applied. */
  datatype TrackedRegs = TrackedRegs(
    prim: nat, frame: nat, test: nat, alpha: nat, zbuf: nat, scissor: nat,
    tex0: nat, tex1: nat, texA: nat, clamp: nat, fogCol: nat)

  datatype ColorMask = ColorMask(r: bool, g: bool, b: bool, a: bool)

  /** A scissor box; width and height are signed (`GLsizei`). */
  datatype ScissorRect = ScissorRect(x: nat, y: nat, width: int, height: int)

  /** GL texture filters; `FilterUnset` is the zeroed value before any `SetupTexture`. */
  datatype TexFilter = FilterUnset | Nearest | Linear

  /** GL wrap modes; `WrapUnset` is the zeroed value before any `SetupTexture`. */
  datatype TexWrap = WrapUnset | Repeat | ClampToEdge

  /** The part of the render state `SetupFramebuffer` sets. */
  datatype TargetState = TargetState(
    framebuffer: Option<Framebuffer>, depthbuffer: Option<Depthbuffer>,
    frameSwizzle: Option<SwizzleTable>, depthSwizzle: Option<SwizzleTable>,
    viewportWidth: nat, viewportHeight: nat, scissor: ScissorRect, colorMask: ColorMask)

  /**
   * The part of the render state `SetupTexture` sets. `PrepareTexture` and
   * `PreparePalette` are not part of this model: a bound texture or
   * palette is identified by the TEX0 value it was prepared from.
   */
  datatype TextureState = TextureState(
    texture0: Option<nat>, texture1: Option<nat>, minFilter: TexFilter, magFilter: TexFilter,
    wrapS: TexWrap, wrapT: TexWrap, swizzle: Option<SwizzleTable>)

  /**
   * `RENDERSTATE`. A shader program is identified by the descriptor it was
   * generated from; `None` stands for the zero handle.
   */
  datatype RenderState = RenderState(
    isValid: bool, isTextureStateValid: bool, isFramebufferStateValid: bool,
    regs: TrackedRegs, shaderCaps: Caps, shaderHandle: Option<Caps>,
    target: TargetState, texture: TextureState, blendEnabled: bool, depthTest: bool)

  /**
   * The integer fields of `FRAGMENTPARAMS`. The clamp bounds of an axis are
   * `None` when they are floating-point scaled (REGION_CLAMP).
   */
  datatype FragmentParams = FragmentParams(
    alphaRef: nat, depthMask: nat, alphaFix: nat, colorMask: nat,
    textureBufPtr: nat, textureBufWidth: nat, textureCsa: nat,
    frameBufPtr: nat, frameBufWidth: nat, depthBufPtr: nat, depthBufWidth: nat,
    clampS: Option<(nat, nat)>, clampT: Option<(nat, nat)>)

  const ZERO_REGS := TrackedRegs(0, 0, 0, 0, 0, 0, 0, 0, 0, 0, 0)

  /** The render state after the constructor's `memset(&m_renderState, 0, ...)`. */
  const ZERO_RENDER_STATE := RenderState(
    false, false, false, ZERO_REGS, ZeroCaps, None,
    TargetState(None, None, None, None, 0, 0, ScissorRect(0, 0, 0, 0), ColorMask(false, false, false, false)),
    TextureState(None, None, FilterUnset, FilterUnset, WrapUnset, WrapUnset, None),
    false, false)

  const ZERO_FRAGMENT_PARAMS := FragmentParams(0, 0, 0, 0, 0, 0, 0, 0, 0, 0, 0, Some((0, 0)), Some((0, 0)))

  // ---------------------------------------------------------------
  // SetupDepthBuffer
  // ---------------------------------------------------------------

  /** The depth bits the shader keeps: 16, 24, or 32 for every other pixel size. */
  function DepthBits(zbuf: nat): (bits: nat)
    ensures bits in {16, 24, 32}
  {
    var size := PsmPixelSize(ZbufPsm(zbuf));
    if size == 16 || size == 24 then size else 32
  }

  /** The depth write mask of `SetupDepthBuffer`: all ones over the format's depth bits. */
  function DepthWriteMask(zbuf: nat): (mask: nat)
    ensures mask in {0xFFFF, 0xFF_FFFF, 0xFFFF_FFFF}
    ensures mask == 0xFFFF <==> DepthBits(zbuf) == 16
    ensures mask == 0xFF_FFFF <==> DepthBits(zbuf) == 24
  {
    var size := PsmPixelSize(ZbufPsm(zbuf));
    if size == 16 then 0xFFFF
    else if size == 24 then 0xFF_FFFF
    else 0xFFFF_FFFF
  }

  // ---------------------------------------------------------------
  // SetupFramebuffer
  // ---------------------------------------------------------------

  /** An alpha test that always fails (enabled, method NEVER). */
  predicate AlphaTestNever(test: nat)
  {
    TestAlphaEnabled(test) == 1 && TestAlphaMethod(test) == ALPHA_TEST_NEVER
  }

  /** Byte `k` of a value, least significant first. */
  function ByteOf(v: nat, k: nat): (b: nat)
    ensures b < 0x100
    decreases k
  {
    if k == 0 then v % 0x100 else ByteOf(v / 0x100, k - 1)
  }

  /** 256^n. */
  function Pow256(n: nat): (p: nat)
    ensures p >= 1
  {
    if n == 0 then 1 else 0x100 * Pow256(n - 1)
  }

  /**
   * The GL colour mask of `SetupFramebuffer`: a channel is written when its
   * byte of FBMSK is clear, except that an always-failing alpha test with
   * fail mode ZBONLY masks every channel and with RGBONLY masks alpha.
   */
  function ColorWriteMask(frame: nat, test: nat): (mask: ColorMask)
    ensures mask.r <==> ByteOf(FrameMask(frame), 0) == 0 &&
                        !(AlphaTestNever(test) && TestAlphaFail(test) == ALPHA_TEST_FAIL_ZBONLY)
    ensures mask.g <==> ByteOf(FrameMask(frame), 1) == 0 &&
                        !(AlphaTestNever(test) && TestAlphaFail(test) == ALPHA_TEST_FAIL_ZBONLY)
    ensures mask.b <==> ByteOf(FrameMask(frame), 2) == 0 &&
                        !(AlphaTestNever(test) && TestAlphaFail(test) == ALPHA_TEST_FAIL_ZBONLY)
    ensures mask.a <==> ByteOf(FrameMask(frame), 3) == 0 && !(AlphaTestNever(test) &&
                        TestAlphaFail(test) in {ALPHA_TEST_FAIL_ZBONLY, ALPHA_TEST_FAIL_RGBONLY})
  {
    var m := FrameMask(frame);
    var r, g, b, a := ByteOf(m, 0) == 0, ByteOf(m, 1) == 0, ByteOf(m, 2) == 0, ByteOf(m, 3) == 0;
    if AlphaTestNever(test) && TestAlphaFail(test) == ALPHA_TEST_FAIL_RGBONLY then ColorMask(r, g, b, false)
    else if AlphaTestNever(test) && TestAlphaFail(test) == ALPHA_TEST_FAIL_ZBONLY then ColorMask(false, false, false, false)
    else ColorMask(r, g, b, a)
  }

  /** `m_fragmentParams.colorMask = ~frame.nMask`: the 32-bit complement of FBMSK. */
  function FragmentColorMask(frame: nat): (mask: nat)
    ensures mask < 0x1_0000_0000
    ensures mask + FrameMask(frame) == 0xFFFF_FFFF
  {
    0xFFFF_FFFF - FrameMask(frame)
  }

  /** Complementing an n-byte word complements each of its bytes. */
  lemma {:induction false} ComplementBytes(m: nat, n: nat, k: nat)
    requires k < n && m < Pow256(n)
    ensures ByteOf(Pow256(n) - 1 - m, k) == 0xFF - ByteOf(m, k)
  {
    var r, q := m % 0x100, m / 0x100;
    var p := Pow256(n - 1);
    assert Pow256(n) == 0x100 * p;
    DivBounds(m, 0x100);
    MulCancelLess(0x100, q, p);
    var c := Pow256(n) - 1 - m;
    assert c == (0xFF - r) + 0x100 * (p - 1 - q);
    DivModStep(0xFF - r, 0x100, p - 1 - q);
    if k > 0 {
      ComplementBytes(q, n - 1, k - 1);
    }
  }

  /**
   * The GL colour mask and the shader's colour mask agree: unless an
   * always-failing alpha test overrides it, a channel is enabled for GL
   * exactly when the shader keeps all of that channel's bits.
   */
  lemma ColorMaskAgreesWithFragmentMask(frame: nat, test: nat)
    ensures ColorWriteMask(frame, test).r ==> ByteOf(FragmentColorMask(frame), 0) == 0xFF
    ensures ColorWriteMask(frame, test).g ==> ByteOf(FragmentColorMask(frame), 1) == 0xFF
    ensures ColorWriteMask(frame, test).b ==> ByteOf(FragmentColorMask(frame), 2) == 0xFF
    ensures ColorWriteMask(frame, test).a ==> ByteOf(FragmentColorMask(frame), 3) == 0xFF
    ensures !AlphaTestNever(test) ==>
              (ColorWriteMask(frame, test).r <==> ByteOf(FragmentColorMask(frame), 0) == 0xFF) &&
              (ColorWriteMask(frame, test).a <==> ByteOf(FragmentColorMask(frame), 3) == 0xFF)
  {
    var m := FrameMask(frame);
    assert Pow256(2) == 0x1_0000;
    assert Pow256(4) == 0x1_0000_0000;
    ComplementBytes(m, 4, 0);
    ComplementBytes(m, 4, 1);
    ComplementBytes(m, 4, 2);
    ComplementBytes(m, 4, 3);
  }

  /** The scissor box of `SetupFramebuffer`: it spans columns X0..X1 and rows Y0..Y1 inclusive. */
  function ScissorBox(scissor: nat): (r: ScissorRect)
    ensures r.x == ScissorX0(scissor) && r.y == ScissorY0(scissor)
    ensures r.x + r.width == ScissorX1(scissor) + 1 && r.y + r.height == ScissorY1(scissor) + 1
  {
    var x0, x1, y0, y1 := ScissorX0(scissor), ScissorX1(scissor), ScissorY0(scissor), ScissorY1(scissor);
    ScissorRect(x0, y0, x1 - x0 + 1, y1 - y0 + 1)
  }

  /** The box is at most 2048 wide and high, and empty or negative exactly when X1 < X0 (Y1 < Y0). */
  lemma ScissorBoxExtent(scissor: nat)
    ensures ScissorBox(scissor).width <= 0x800 && ScissorBox(scissor).height <= 0x800
    ensures ScissorBox(scissor).width >= 1 <==> ScissorX0(scissor) <= ScissorX1(scissor)
    ensures ScissorBox(scissor).height >= 1 <==> ScissorY0(scissor) <= ScissorY1(scissor)
  {}

  // ---------------------------------------------------------------
  // SetupTexture
  // ---------------------------------------------------------------

  /** The GL magnification filter of TEX1's MMAG. */
  function MagFilterFor(tex1: nat): (f: TexFilter)
    ensures f == Linear <==> Tex1MagFilter(tex1) == 1
    ensures f != FilterUnset
  {
    if Tex1MagFilter(tex1) == 1 then Linear else Nearest
  }

  /**
   * The GL minification filter of TEX1's MMIN: the NEAREST modes (0, 2, 3)
   * give NEAREST, the LINEAR modes (1, 4, 5) LINEAR, and the reserved
   * values keep the NEAREST set on entry.
   */
  function MinFilterFor(tex1: nat): (f: TexFilter)
    ensures f == Linear <==> Tex1MinFilter(tex1) in {1, 4, 5}
    ensures f != FilterUnset
  {
    var mmin := Tex1MinFilter(tex1);
    if mmin == 1 || mmin == 4 || mmin == 5 then Linear else Nearest
  }

  /**
   * The (min, mag) filters `SetupTexture` selects: forced bilinear overrides
   * TEX1, and an indexed texture is always point-sampled by GL.
   */
  function TextureFilters(tex0: nat, tex1: nat, forceBilinear: bool): (f: (TexFilter, TexFilter))
    ensures IsPsmIdTex(Tex0Psm(tex0)) ==> f == (Nearest, Nearest)
    ensures !IsPsmIdTex(Tex0Psm(tex0)) && forceBilinear ==> f == (Linear, Linear)
    ensures !IsPsmIdTex(Tex0Psm(tex0)) && !forceBilinear ==> f == (MinFilterFor(tex1), MagFilterFor(tex1))
  {
    var (minF, magF) := if forceBilinear then (Linear, Linear) else (MinFilterFor(tex1), MagFilterFor(tex1));
    if IsPsmIdTex(Tex0Psm(tex0)) && (minF != Nearest || magF != Nearest) then (Nearest, Nearest)
    else (minF, magF)
  }

  /**
   * Whenever GL would have filtered an indexed texture, the descriptor asks
   * the shader to filter it instead: no filtering request is lost.
   */
  lemma IndexedFilteringMovesToShader(tex0: nat, tex1: nat, forceBilinear: bool)
    requires IsPsmIdTex(Tex0Psm(tex0))
    requires forceBilinear || MinFilterFor(tex1) == Linear || MagFilterFor(tex1) == Linear
    ensures TextureFilters(tex0, tex1, forceBilinear) == (Nearest, Nearest)
    ensures UsesShaderBilinear(tex0, tex1, forceBilinear)
  {}

  /** `g_nativeClampModes`: CLAMP is clamp-to-edge, every other mode repeats. */
  function NativeWrap(wrapMode: nat): (w: TexWrap)
    ensures w == ClampToEdge <==> wrapMode == CLAMP_MODE_CLAMP
    ensures w != WrapUnset
  {
    if wrapMode == CLAMP_MODE_CLAMP then ClampToEdge else Repeat
  }

  /**
   * The integer clamp bounds of both axes `SetupTexture` hands to the
   * shader: zero unless one axis uses a region mode.
   */
  function ClampBounds(clamp: nat): (r: (Option<(nat, nat)>, Option<(nat, nat)>))
    ensures !UsesRegionClamp(clamp) ==> r == (Some((0, 0)), Some((0, 0)))
    ensures UsesRegionClamp(clamp) ==>
              r.0 == AxisClampRange(ClampWms(clamp), ClampMinU(clamp), ClampMaxU(clamp)) &&
              r.1 == AxisClampRange(ClampWmt(clamp), ClampMinV(clamp), ClampMaxV(clamp))
  {
    if UsesRegionClamp(clamp) then
      (AxisClampRange(ClampWms(clamp), ClampMinU(clamp), ClampMaxU(clamp)),
       AxisClampRange(ClampWmt(clamp), ClampMinV(clamp), ClampMaxV(clamp)))
    else (Some((0, 0)), Some((0, 0)))
  }
}
