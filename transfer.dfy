/**
 * Host-to-local transfer sizing (`ProcessHostToLocalTransfer`) and the
 * choice of swizzle table for a storage mode (`GetSwizzleTable`).
 */
module Transfer {
  import opened GsRegs
  import opened Wrappers

  const U32_MOD: nat := 0x1_0000_0000

  /** `g_xferWorkGroupSize`: pixels handled by one compute work group. */
  const XFER_WORK_GROUP_SIZE: nat := 1024

  /** The swizzle textures the renderer keeps, one per storage layout. */
  datatype SwizzleTable = SwizzlePSMCT32 | SwizzlePSMCT16 | SwizzlePSMCT16S | SwizzlePSMT8 | SwizzlePSMT4

  /**
   * `GetSwizzleTable`. The formats stored inside 32-bit words (CT24, and
   * the T8H/T4HL/T4HH formats that live in the upper bits of a CT32 word)
   * share the CT32 table; any other mode reaches the `assert(false)`
   * branch, which returns the null handle, modelled as None.
   */
  function SwizzleTableFor(psm: nat): (t: Option<SwizzleTable>)
    ensures t == Some(SwizzlePSMCT32) <==>
            psm == PSMCT32 || psm == PSMCT24 || psm == PSMT8H || psm == PSMT4HL || psm == PSMT4HH
    ensures t == Some(SwizzlePSMCT16) <==> psm == PSMCT16
    ensures t == Some(SwizzlePSMCT16S) <==> psm == PSMCT16S
    ensures t == Some(SwizzlePSMT8) <==> psm == PSMT8
    ensures t == Some(SwizzlePSMT4) <==> psm == PSMT4
  {
    if psm == PSMCT32 || psm == PSMCT24 || psm == PSMT8H || psm == PSMT4HL || psm == PSMT4HH then Some(SwizzlePSMCT32)
    else if psm == PSMCT16 then Some(SwizzlePSMCT16)
    else if psm == PSMCT16S then Some(SwizzlePSMCT16S)
    else if psm == PSMT8 then Some(SwizzlePSMT8)
    else if psm == PSMT4 then Some(SwizzlePSMT4)
    else None
  }

  /** The destination formats a host-to-local transfer has a transfer program for. */
  predicate IsHostTransferPsm(psm: nat)
  {
    psm == PSMCT32 || psm == PSMCT16 || psm == PSMT8 || psm == PSMT4 ||
    psm == PSMT8H || psm == PSMT4HL || psm == PSMT4HH
  }

  /**
   * The pixel count of a transfer of `offset` bytes, in 32-bit unsigned
   * arithmetic; None for a format that reaches `assert(false)`. Without
   * wrap-around the count covers the bytes exactly, rounded down to whole
   * pixels.
   */
  function XferPixelCount(psm: nat, offset: U32): (count: Option<U32>)
    ensures count.Some? <==> IsHostTransferPsm(psm)
    ensures count.Some? && offset < 0x8000_0000 ==>
              PsmPixelSize(psm) * count.value <= 8 * offset < PsmPixelSize(psm) * count.value + PsmPixelSize(psm)
  {
    if psm == PSMCT32 then Some(offset / 4)
    else if psm == PSMCT16 then Some(offset / 2)
    else if psm == PSMT8 || psm == PSMT8H then Some(offset)
    else if psm == PSMT4 || psm == PSMT4HL || psm == PSMT4HH then Some((offset * 2) % U32_MOD)
    else None
  }

  /**
   * The number of work groups dispatched, `(pixelCount + 1023) / 1024` in
   * 32-bit unsigned arithmetic: the ceiling of pixelCount / 1024 unless
   * the addition wraps.
   */
  function XferWorkUnits(pixelCount: U32): (units: U32)
    ensures pixelCount + XFER_WORK_GROUP_SIZE - 1 < U32_MOD ==>
              pixelCount <= XFER_WORK_GROUP_SIZE * units < pixelCount + XFER_WORK_GROUP_SIZE
    ensures pixelCount + XFER_WORK_GROUP_SIZE - 1 >= U32_MOD ==> units == 0
  {
    ((pixelCount + XFER_WORK_GROUP_SIZE - 1) % U32_MOD) / XFER_WORK_GROUP_SIZE
  }

  /** Every host-to-local destination format has a swizzle table. */
  lemma HostTransferFormatsHaveSwizzle(psm: nat)
    requires IsHostTransferPsm(psm)
    ensures SwizzleTableFor(psm).Some?
  {
  }
}
