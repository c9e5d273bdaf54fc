/**
 * Graphics Synthesizer register vocabulary used by the OpenGL renderer:
 * register indices, pixel storage modes, primitive types, test and
 * blend selectors, and the bit-field accessors for the 64-bit register
 * values.
 *
 * The register decoders themselves (TEX0, FRAME, ZBUF, ...) live in the
 * GS handler base class, which is not part of this model; the accessors
 * below read the fields at the GS hardware bit positions, with plain
 * integer division and remainder on the unsigned register value.
 */
module GsRegs {

  /** An unsigned 64-bit register value. */
  type U64 = v: nat | v < 0x1_0000_0000_0000_0000

  /** An unsigned 32-bit value. */
  type U32 = v: nat | v < 0x1_0000_0000

  // ---------------------------------------------------------------
  // Register indices (GS_REG_*)
  // ---------------------------------------------------------------

  const REG_PRIM: nat := 0x00
  const REG_RGBAQ: nat := 0x01
  const REG_ST: nat := 0x02
  const REG_UV: nat := 0x03
  const REG_XYZF2: nat := 0x04
  const REG_XYZ2: nat := 0x05
  const REG_TEX0_1: nat := 0x06
  const REG_CLAMP_1: nat := 0x08
  const REG_FOG: nat := 0x0A
  const REG_XYZF3: nat := 0x0C
  const REG_XYZ3: nat := 0x0D
  const REG_TEX1_1: nat := 0x14
  const REG_XYOFFSET_1: nat := 0x18
  const REG_PRMODECONT: nat := 0x1A
  const REG_PRMODE: nat := 0x1B
  const REG_TEXA: nat := 0x3B
  const REG_FOGCOL: nat := 0x3D
  const REG_SCISSOR_1: nat := 0x40
  const REG_ALPHA_1: nat := 0x42
  const REG_TEST_1: nat := 0x47
  const REG_FRAME_1: nat := 0x4C
  const REG_ZBUF_1: nat := 0x4E
  const REG_BITBLTBUF: nat := 0x50
  const REG_TRXPOS: nat := 0x51
  const REG_TRXREG: nat := 0x52

  /** Number of slots in the GS register file. */
  const REG_COUNT: nat := 0x80

  /** The register file: one 64-bit value per register index. */
  type RegFile = r: seq<U64> | |r| == REG_COUNT witness seq(REG_COUNT, _ => 0)

  /** The four registers whose write is a vertex kick. */
  predicate IsKickRegister(reg: nat)
  {
    reg == REG_XYZ2 || reg == REG_XYZ3 || reg == REG_XYZF2 || reg == REG_XYZF3
  }

  // ---------------------------------------------------------------
  // Pixel storage modes (PSM*)
  // ---------------------------------------------------------------

  const PSMCT32: nat := 0x00
  const PSMCT24: nat := 0x01
  const PSMCT16: nat := 0x02
  const PSMCT16S: nat := 0x0A
  const PSMT8: nat := 0x13
  const PSMT4: nat := 0x14
  const PSMT8H: nat := 0x1B
  const PSMT4HL: nat := 0x24
  const PSMT4HH: nat := 0x2C
  const PSMZ32: nat := 0x30
  const PSMZ24: nat := 0x31
  const PSMZ16: nat := 0x32
  const PSMZ16S: nat := 0x3A

  /** Indexed (palettised) texture formats. */
  predicate IsPsmIdTex(psm: nat)
  {
    psm == PSMT8 || psm == PSMT4 || psm == PSMT8H || psm == PSMT4HL || psm == PSMT4HH
  }

  /** Indexed formats with 4-bit indices. */
  predicate IsPsmIdTex4(psm: nat)
  {
    psm == PSMT4 || psm == PSMT4HL || psm == PSMT4HH
  }

  /** Bits per pixel of a storage mode (0 for an unknown mode). */
  function PsmPixelSize(psm: nat): (bits: nat)
    ensures bits in {0, 4, 8, 16, 24, 32}
  {
    if psm == PSMCT32 || psm == PSMZ32 then 32
    else if psm == PSMCT24 || psm == PSMZ24 then 24
    else if psm == PSMCT16 || psm == PSMCT16S || psm == PSMZ16 || psm == PSMZ16S then 16
    else if psm == PSMT8 || psm == PSMT8H then 8
    else if psm == PSMT4 || psm == PSMT4HL || psm == PSMT4HH then 4
    else 0
  }

  // ---------------------------------------------------------------
  // Primitive types (PRIM_*)
  // ---------------------------------------------------------------

  const PRIM_POINT: nat := 0
  const PRIM_LINE: nat := 1
  const PRIM_LINESTRIP: nat := 2
  const PRIM_TRIANGLE: nat := 3
  const PRIM_TRIANGLESTRIP: nat := 4
  const PRIM_TRIANGLEFAN: nat := 5
  const PRIM_SPRITE: nat := 6
  const PRIM_INVALID: nat := 7

  // ---------------------------------------------------------------
  // Test, blend and clamp selectors
  // ---------------------------------------------------------------

  const ALPHA_TEST_NEVER: nat := 0
  const ALPHA_TEST_ALWAYS: nat := 1
  const ALPHA_TEST_LESS: nat := 2
  const ALPHA_TEST_LEQUAL: nat := 3
  const ALPHA_TEST_EQUAL: nat := 4
  const ALPHA_TEST_GEQUAL: nat := 5
  const ALPHA_TEST_GREATER: nat := 6
  const ALPHA_TEST_NOTEQUAL: nat := 7

  const ALPHA_TEST_FAIL_KEEP: nat := 0
  const ALPHA_TEST_FAIL_FBONLY: nat := 1
  const ALPHA_TEST_FAIL_ZBONLY: nat := 2
  const ALPHA_TEST_FAIL_RGBONLY: nat := 3

  const DEPTH_TEST_NEVER: nat := 0
  const DEPTH_TEST_ALWAYS: nat := 1
  const DEPTH_TEST_GEQUAL: nat := 2
  const DEPTH_TEST_GREATER: nat := 3

  const CLAMP_MODE_REPEAT: nat := 0
  const CLAMP_MODE_CLAMP: nat := 1
  const CLAMP_MODE_REGION_CLAMP: nat := 2
  const CLAMP_MODE_REGION_REPEAT: nat := 3

  const ALPHABLEND_ABD_CS: nat := 0
  const ALPHABLEND_ABD_CD: nat := 1
  const ALPHABLEND_ABD_ZERO: nat := 2
  const ALPHABLEND_ABD_INVALID: nat := 3

  const ALPHABLEND_C_AS: nat := 0
  const ALPHABLEND_C_AD: nat := 1
  const ALPHABLEND_C_FIX: nat := 2
  const ALPHABLEND_C_INVALID: nat := 3

  const MIN_FILTER_NEAREST: nat := 0

  // ---------------------------------------------------------------
  // PRIM / PRMODE
  // ---------------------------------------------------------------

  function PrimType(v: nat): nat { v % 8 }
  function PrimShading(v: nat): nat { (v / 0x8) % 2 }
  function PrimTexture(v: nat): nat { (v / 0x10) % 2 }
  function PrimFog(v: nat): nat { (v / 0x20) % 2 }
  function PrimAlpha(v: nat): nat { (v / 0x40) % 2 }
  function PrimUseUV(v: nat): nat { (v / 0x100) % 2 }
  function PrimContext(v: nat): nat { (v / 0x200) % 2 }

  // ---------------------------------------------------------------
  // TEST
  // ---------------------------------------------------------------

  function TestAlphaEnabled(v: nat): nat { v % 2 }
  function TestAlphaMethod(v: nat): nat { (v / 0x2) % 8 }
  function TestAlphaRef(v: nat): nat { (v / 0x10) % 0x100 }
  function TestAlphaFail(v: nat): nat { (v / 0x1000) % 4 }
  function TestDepthEnabled(v: nat): nat { (v / 0x1_0000) % 2 }
  function TestDepthMethod(v: nat): nat { (v / 0x2_0000) % 4 }

  // ---------------------------------------------------------------
  // ZBUF
  // ---------------------------------------------------------------

  function ZbufBasePtr(v: nat): nat { (v % 0x200) * 0x2000 }
  function ZbufPsm(v: nat): nat { (v / 0x100_0000) % 0x10 }
  function ZbufMask(v: nat): nat { (v / 0x1_0000_0000) % 2 }

  // ---------------------------------------------------------------
  // FRAME
  // ---------------------------------------------------------------

  function FrameBasePtr(v: nat): nat { (v % 0x200) * 0x2000 }
  function FrameWidth(v: nat): nat { ((v / 0x1_0000) % 0x40) * 64 }
  function FramePsm(v: nat): nat { (v / 0x100_0000) % 0x40 }
  function FrameMask(v: nat): nat { (v / 0x1_0000_0000) % 0x1_0000_0000 }

  // ---------------------------------------------------------------
  // ALPHA
  // ---------------------------------------------------------------

  function AlphaA(v: nat): nat { v % 4 }
  function AlphaB(v: nat): nat { (v / 0x4) % 4 }
  function AlphaC(v: nat): nat { (v / 0x10) % 4 }
  function AlphaD(v: nat): nat { (v / 0x40) % 4 }
  function AlphaFix(v: nat): nat { (v / 0x1_0000_0000) % 0x100 }

  // ---------------------------------------------------------------
  // TEX0, TEX1, TEXA, CLAMP
  // ---------------------------------------------------------------

  function Tex0BufPtr(v: nat): nat { (v % 0x4000) * 256 }
  function Tex0BufWidth(v: nat): nat { ((v / 0x4000) % 0x40) * 64 }
  function Tex0Psm(v: nat): nat { (v / 0x10_0000) % 0x40 }
  function Tex0ColorComp(v: nat): nat { (v / 0x4_0000_0000) % 2 }
  function Tex0Function(v: nat): nat { (v / 0x8_0000_0000) % 4 }
  function Tex0Cpsm(v: nat): nat { (v / 0x8_0000_0000_0000) % 0x10 }
  function Tex0Csa(v: nat): nat { (v / 0x100_0000_0000_0000) % 0x20 }

  function Tex1MagFilter(v: nat): nat { (v / 0x20) % 2 }
  function Tex1MinFilter(v: nat): nat { (v / 0x40) % 8 }

  function TexAAem(v: nat): nat { (v / 0x8000) % 2 }

  function ClampWms(v: nat): nat { v % 4 }
  function ClampWmt(v: nat): nat { (v / 0x4) % 4 }
  function ClampMinU(v: nat): nat { (v / 0x10) % 0x400 }
  function ClampMaxU(v: nat): nat { (v / 0x4000) % 0x400 }
  function ClampMinV(v: nat): nat { (v / 0x100_0000) % 0x400 }
  function ClampMaxV(v: nat): nat { (v / 0x4_0000_0000) % 0x400 }

  // ---------------------------------------------------------------
  // SCISSOR, XYOFFSET, XYZ, RGBAQ
  // ---------------------------------------------------------------

  function ScissorX0(v: nat): nat { v % 0x800 }
  function ScissorX1(v: nat): nat { (v / 0x1_0000) % 0x800 }
  function ScissorY0(v: nat): nat { (v / 0x1_0000_0000) % 0x800 }
  function ScissorY1(v: nat): nat { (v / 0x1_0000_0000_0000) % 0x800 }

  function OffsetX(v: nat): nat { v % 0x1_0000 }
  function OffsetY(v: nat): nat { (v / 0x1_0000_0000) % 0x1_0000 }

  function XyzX(v: nat): nat { v % 0x1_0000 }
  function XyzY(v: nat): nat { (v / 0x1_0000) % 0x1_0000 }
  function XyzZ(v: nat): nat { (v / 0x1_0000_0000) % 0x1_0000_0000 }

  function RgbaqR(v: nat): nat { v % 0x100 }
  function RgbaqG(v: nat): nat { (v / 0x100) % 0x100 }
  function RgbaqB(v: nat): nat { (v / 0x1_0000) % 0x100 }
  function RgbaqA(v: nat): nat { (v / 0x100_0000) % 0x100 }

  // ---------------------------------------------------------------
  // Transfer and display registers
  // ---------------------------------------------------------------

  function BltSrcPtr(v: nat): nat { (v % 0x4000) * 256 }
  function BltSrcWidth(v: nat): nat { ((v / 0x1_0000) % 0x40) * 64 }
  function BltSrcPsm(v: nat): nat { (v / 0x100_0000) % 0x40 }
  function BltDstPtr(v: nat): nat { ((v / 0x1_0000_0000) % 0x4000) * 256 }
  function BltDstWidth(v: nat): nat { ((v / 0x1_0000_0000_0000) % 0x40) * 64 }
  function BltDstPsm(v: nat): nat { (v / 0x100_0000_0000_0000) % 0x40 }

  function TrxPosSsax(v: nat): nat { v % 0x800 }
  function TrxPosSsay(v: nat): nat { (v / 0x1_0000) % 0x800 }
  function TrxPosDsax(v: nat): nat { (v / 0x1_0000_0000) % 0x800 }
  function TrxPosDsay(v: nat): nat { (v / 0x1_0000_0000_0000) % 0x800 }
  function TrxRegRrw(v: nat): nat { v % 0x1000 }
  function TrxRegRrh(v: nat): nat { (v / 0x1_0000_0000) % 0x1000 }

  function DisplayMagX(v: nat): nat { (v / 0x80_0000) % 0x10 }
  function DisplayW(v: nat): nat { (v / 0x1_0000_0000) % 0x1000 }
  function DisplayH(v: nat): nat { (v / 0x1000_0000_0000) % 0x800 }

  function DispFbBufPtr(v: nat): nat { (v % 0x200) * 0x2000 }
  function DispFbBufWidth(v: nat): nat { ((v / 0x200) % 0x40) * 64 }
  function DispFbPsm(v: nat): nat { (v / 0x8000) % 0x20 }
}
