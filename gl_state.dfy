/**
 * The `GLSTATE_*` bits of `m_validGlState`: which pieces of OpenGL state
 * are known to be up to date and need no re-upload before a draw.
 */
module GlState {

  const GLSTATE_VERTEX_PARAMS: bv32 := 0x0001
  const GLSTATE_FRAGMENT_PARAMS: bv32 := 0x0002
  const GLSTATE_PROGRAM: bv32 := 0x0004
  const GLSTATE_SCISSOR: bv32 := 0x0008
  const GLSTATE_BLEND: bv32 := 0x0010
  const GLSTATE_COLORMASK: bv32 := 0x0020
  const GLSTATE_DEPTHMASK: bv32 := 0x0040
  const GLSTATE_TEXTURE: bv32 := 0x0080
  const GLSTATE_FRAMEBUFFER: bv32 := 0x0100
  const GLSTATE_VIEWPORT: bv32 := 0x0200
  const GLSTATE_DEPTHTEST: bv32 := 0x0400

  /** The bits in declaration order. */
  const GLSTATE_BITS: seq<bv32> := [
    GLSTATE_VERTEX_PARAMS, GLSTATE_FRAGMENT_PARAMS, GLSTATE_PROGRAM, GLSTATE_SCISSOR,
    GLSTATE_BLEND, GLSTATE_COLORMASK, GLSTATE_DEPTHMASK, GLSTATE_TEXTURE,
    GLSTATE_FRAMEBUFFER, GLSTATE_VIEWPORT, GLSTATE_DEPTHTEST]

  /** The union of all bits. */
  const GLSTATE_ALL: bv32 := 0x07FF

  predicate IsSingleBit(b: bv32)
  {
    b != 0 && b & (b - 1) == 0
  }

  /** The state bits are eleven distinct single-bit masks whose union is `GLSTATE_ALL`. */
  lemma GlStateBitsDistinct()
    ensures |GLSTATE_BITS| == 11
    ensures forall i :: 0 <= i < |GLSTATE_BITS| ==> IsSingleBit(GLSTATE_BITS[i])
    ensures forall i, j :: 0 <= i < j < |GLSTATE_BITS| ==> GLSTATE_BITS[i] & GLSTATE_BITS[j] == 0
    ensures forall i :: 0 <= i < |GLSTATE_BITS| ==> GLSTATE_BITS[i] & GLSTATE_ALL == GLSTATE_BITS[i]
  {
  }

  /** `m_validGlState &= ~bit`: mark one piece of state as stale. */
  function Invalidate(valid: bv32, bit: bv32): (r: bv32)
    ensures r & bit == 0
    ensures r | bit == valid | bit
  {
    valid & !bit
  }

  /** `DoRenderPass` re-validates every piece of state it finds stale. */
  function ValidateAll(valid: bv32): (r: bv32)
    ensures forall i :: 0 <= i < |GLSTATE_BITS| ==> r & GLSTATE_BITS[i] == GLSTATE_BITS[i]
    ensures r & !GLSTATE_ALL == valid & !GLSTATE_ALL
  {
    valid | GLSTATE_ALL
  }
}
