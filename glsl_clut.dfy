/**
 * The CLUT loader compute program (`GenerateClutLoaderProgram`) and the
 * palette lookup of the fragment shader for 8- and 4-bit indexed textures.
 *
 * One work group of 16 x 16 invocations reads the 256 colours of a
 * CT32 palette from GS memory (a buffer 64 pixels wide at the CLUT
 * pointer), and stores each colour split into its low and high halves
 * in the CLUT image, at a slot whose bits 3 and 4 are swapped (the CSM1
 * arrangement) and at that slot plus 0x100. The sampler reads both
 * halves back and joins them.
 *
 * The CLUT image is an array of words; as for every image, a load
 * outside it returns zero and a store outside it has no effect.
 */
module GlslClut {
  import opened Arith
  import opened GsRegs
  import opened GlslMemory
  import opened GlslAddress

  /** Entries of one CT32 palette: the work group is 16 x 16. */
  const CLUT_ENTRIES: nat := 256

  /** Offset of the high halves in the CLUT image. */
  const CLUT_HIGH_OFFSET: nat := 0x100

  /** Width, in pixels, of the buffer the palette is read from. */
  const CLUT_BUFFER_WIDTH: U32 := 64

  // ---------------------------------------------------------------
  // The slot of a palette entry
  // ---------------------------------------------------------------

  /**
   * `(i & ~0x18) | ((i & 0x08) << 1) | ((i & 0x10) >> 1)` on a `uint`,
   * written with the three terms as arithmetic: clearing bits 3 and 4
   * subtracts them, bit 3 moved up is worth 16, bit 4 moved down is worth
   * 8, and the three terms have no bit in common, so the ORs are sums.
   * `ClutIndexBitsAgree` checks this against the bitwise expression.
   */
  function ClutIndex(i: nat): nat
  {
    (i - ((i / 8) % 4) * 8) + ((i / 8) % 2) * 16 + ((i / 16) % 2) * 8
  }

  /** The loader's expression, on 32-bit words. */
  function ClutIndexBits(i: bv32): bv32
  {
    (i & !0x18) | ((i & 0x08) << 1) | ((i & 0x10) >> 1)
  }

  /** The bitwise expression and the arithmetic one agree on every palette entry. */
  lemma ClutIndexBitsAgree(i: bv32)
    requires i < 256
    ensures ClutIndexBits(i) == (i - ((i / 8) % 4) * 8) + ((i / 8) % 2) * 16 + ((i / 16) % 2) * 8
  {
  }

  /** The bitwise expression keeps every bit but bits 3 and 4, which it exchanges. */
  lemma ClutIndexBitsSwap(i: bv32)
    ensures ClutIndexBits(i) & !0x18 == i & !0x18
    ensures (ClutIndexBits(i) & 0x08 == 0) == (i & 0x10 == 0)
    ensures (ClutIndexBits(i) & 0x10 == 0) == (i & 0x08 == 0)
  {
  }

  /** `n / d` is twice `n / 2d` plus its own low bit. */
  lemma Halve(n: nat, d: nat)
    requires d > 0
    ensures n / d == 2 * (n / (2 * d)) + (n / d) % 2
  {
    var q, r := n / d, n % d;
    var q2, r2 := q / 2, q % 2;
    assert n == d * q + r;
    assert q == 2 * q2 + r2;
    assert n == (d * r2 + r) + (2 * d) * q2;
    DivModStep(d * r2 + r, 2 * d, q2);
  }

  /**
   * An entry in binary as bits above 5, bit 4, bit 3 and the low three
   * bits; its slot has bits 4 and 3 exchanged.
   */
  lemma ClutIndexDigits(i: nat)
    ensures i == 32 * (i / 32) + 16 * ((i / 16) % 2) + 8 * ((i / 8) % 2) + i % 8
    ensures ClutIndex(i) == 32 * (i / 32) + 16 * ((i / 8) % 2) + 8 * ((i / 16) % 2) + i % 8
  {
    Halve(i, 8);
    Halve(i, 16);
    assert i == 8 * (i / 8) + i % 8;
    assert (i / 8) % 4 == 2 * ((i / 16) % 2) + (i / 8) % 2;
  }

  /** The digits of a number written as in `ClutIndexDigits`. */
  lemma DigitsOf(a: nat, b: nat, c: nat, r: nat)
    requires b < 2 && c < 2 && r < 8
    ensures var j := 32 * a + 16 * b + 8 * c + r;
            j / 32 == a && (j / 16) % 2 == b && (j / 8) % 2 == c && j % 8 == r
  {
    DivModStep(16 * b + 8 * c + r, 32, a);
    DivModStep(8 * c + r, 16, 2 * a + b);
    DivModStep(r, 8, 4 * a + 2 * b + c);
    DivModStep(b, 2, a);
    DivModStep(c, 2, 2 * a + b);
  }

  /** Exchanging the two bits twice gives the entry back, and stays in the palette. */
  lemma ClutIndexInvolution(i: nat)
    ensures ClutIndex(ClutIndex(i)) == i
    ensures i < CLUT_ENTRIES ==> ClutIndex(i) < CLUT_ENTRIES
  {
    ClutIndexDigits(i);
    DigitsOf(i / 32, (i / 8) % 2, (i / 16) % 2, i % 8);
    ClutIndexDigits(ClutIndex(i));
  }

  /** The slot map is a bijection of the palette onto itself. */
  lemma ClutIndexBijective(i: nat, j: nat)
    requires i < CLUT_ENTRIES && j < CLUT_ENTRIES
    ensures ClutIndex(i) == ClutIndex(j) ==> i == j
    ensures ClutIndex(ClutIndex(j)) == j && ClutIndex(j) < CLUT_ENTRIES
  {
    ClutIndexInvolution(i);
    ClutIndexInvolution(j);
  }

  // ---------------------------------------------------------------
  // The CLUT image
  // ---------------------------------------------------------------

  /** `imageLoad(g_clut, ivec2(k, 0)).r`: zero outside the image. */
  function LoadClut(clut: seq<bv32>, k: nat): bv32
  {
    if k < |clut| then clut[k] else 0
  }

  /** The sampler's `colorLo | (colorHi << 16)` for the colour index `colorIndex`. */
  function SampleClut(clut: seq<bv32>, colorIndex: nat): bv32
  {
    LoadClut(clut, colorIndex + 0x000) | (LoadClut(clut, colorIndex + CLUT_HIGH_OFFSET) << 16)
  }

  /** The halves the loader stores join back into the colour. */
  lemma HalvesRecombine(color: bv32)
    ensures ((color >> 0) & 0xFFFF) | (((color >> 16) & 0xFFFF) << 16) == color
  {
  }

  /** `imageStore(g_clut, ivec2(k, 0), uvec4(value))`: no effect outside the image. */
  method StoreClut(clut: array<bv32>, k: nat, value: bv32)
    modifies clut
    ensures k < clut.Length ==> clut[k] == value
    ensures forall j :: 0 <= j < clut.Length && j != k ==> clut[j] == old(clut[j])
  {
    if k < clut.Length {
      clut[k] := value;
    }
  }

  // ---------------------------------------------------------------
  // One invocation of the loader
  // ---------------------------------------------------------------

  /** The CT32 address of `colorPos == (x, y)` in the palette buffer. */
  function ColorAddress(clutBufPtr: U32, swizzle: Swizzle, x: U32, y: U32): bv32
  {
    PixelAddress(PageCT32, clutBufPtr, CLUT_BUFFER_WIDTH, swizzle, x, y) as bv32
  }

  /** The colour of palette entry `i`: column `i % 16`, row `i / 16`. */
  function EntryColor(mem: array2<bv32>, clutBufPtr: U32, swizzle: Swizzle, i: nat): bv32
    requires IsMemoryImage(mem) && i < CLUT_ENTRIES
    reads mem
  {
    Read32(mem, ColorAddress(clutBufPtr, swizzle, i % 16, i / 16))
  }

  /** Invocation `(x, y)` loads palette entry `x + y * 16`, from its colour position. */
  lemma InvocationEntry(x: nat, y: nat)
    requires x < 16 && y < 16
    ensures x + y * 16 < CLUT_ENTRIES
    ensures (x + y * 16) % 16 == x && (x + y * 16) / 16 == y
  {
    DivModStep(x, 16, y);
  }

  /**
   * `lo` is at `slot` and `hi` at `slot + 0x100`, where the image has
   * them; every other word is kept.
   */
  predicate PairStored(before: seq<bv32>, after: seq<bv32>, slot: nat, lo: bv32, hi: bv32)
  {
    (slot < |after| ==> after[slot] == lo) &&
    (slot + CLUT_HIGH_OFFSET < |after| ==> after[slot + CLUT_HIGH_OFFSET] == hi) &&
    OnlySlotChanged(before, after, slot)
  }

  /** After one invocation: the two halves of `color` are stored at `slot`. */
  predicate ClutStored(before: seq<bv32>, after: seq<bv32>, slot: nat, color: bv32)
  {
    PairStored(before, after, slot, (color >> 0) & 0xFFFF, (color >> 16) & 0xFFFF)
  }

  /** The loader's two `imageStore`s, at `clutIndex + 0x000` and `clutIndex + 0x100`. */
  method StoreHalves(clut: array<bv32>, clutIndex: nat, colorLo: bv32, colorHi: bv32)
    modifies clut
    ensures PairStored(old(clut[..]), clut[..], clutIndex, colorLo, colorHi)
  {
    StoreClut(clut, clutIndex + 0x000, colorLo);
    StoreClut(clut, clutIndex + CLUT_HIGH_OFFSET, colorHi);
  }

  /**
   * One invocation of the loader, at `colorPos == (x, y)`: the colour at
   * that position of the palette buffer goes to the slot of entry
   * `x + y * 16`.
   */
  method LoadClutEntry(mem: array2<bv32>, clut: array<bv32>, clutBufPtr: U32, swizzle: Swizzle, x: nat, y: nat)
    requires IsMemoryImage(mem) && x < 16 && y < 16
    modifies clut
    ensures ClutStored(old(clut[..]), clut[..], ClutIndex(x + y * 16), Read32(mem, ColorAddress(clutBufPtr, swizzle, x, y)))
  {
    var colorAddress := ColorAddress(clutBufPtr, swizzle, x, y);
    var color := Read32(mem, colorAddress);
    var clutIndex := x + y * 16;
    clutIndex := ClutIndex(clutIndex);
    var colorLo := (color >> 0) & 0xFFFF;
    var colorHi := (color >> 16) & 0xFFFF;
    StoreHalves(clut, clutIndex, colorLo, colorHi);
  }

  /** The colour invocation `(x, y)` reads is that of palette entry `x + y * 16`. */
  lemma InvocationColor(mem: array2<bv32>, clutBufPtr: U32, swizzle: Swizzle, x: nat, y: nat, i: nat)
    requires IsMemoryImage(mem) && x < 16 && y < 16 && i == x + y * 16
    ensures i < CLUT_ENTRIES
    ensures EntryColor(mem, clutBufPtr, swizzle, i) == Read32(mem, ColorAddress(clutBufPtr, swizzle, x, y))
  {
    InvocationEntry(x, y);
  }

  /** A slot stored inside the image holds both halves, and nothing else changed. */
  lemma StoredInImage(before: seq<bv32>, after: seq<bv32>, slot: nat, color: bv32)
    requires ClutStored(before, after, slot, color) && slot + CLUT_HIGH_OFFSET < |after|
    ensures HalvesAt(after, slot, color) && OnlySlotChanged(before, after, slot)
  {
  }

  /** The image holds both halves of `color` at `slot`. */
  predicate HalvesAt(clut: seq<bv32>, slot: nat, color: bv32)
  {
    slot + CLUT_HIGH_OFFSET < |clut| &&
    clut[slot] == (color >> 0) & 0xFFFF && clut[slot + CLUT_HIGH_OFFSET] == (color >> 16) & 0xFFFF
  }

  /** Only the two words of `slot` differ between the two images. */
  predicate OnlySlotChanged(before: seq<bv32>, after: seq<bv32>, slot: nat)
  {
    |before| == |after| &&
    forall k :: 0 <= k < |after| && k != slot && k != slot + CLUT_HIGH_OFFSET ==> after[k] == before[k]
  }

  /** A slot holding both halves of a colour samples as that colour. */
  lemma SampleStored(clut: seq<bv32>, slot: nat, color: bv32)
    requires HalvesAt(clut, slot, color)
    ensures SampleClut(clut, slot) == color
  {
    HalvesRecombine(color);
  }

  /** Neither word of one slot is a word of the other. */
  predicate SlotsApart(a: nat, b: nat)
  {
    a != b && a != b + CLUT_HIGH_OFFSET && a + CLUT_HIGH_OFFSET != b
  }

  /** Stores into the two words of another slot leave a sample unchanged. */
  lemma SampleOther(before: seq<bv32>, after: seq<bv32>, stored: nat, slot: nat)
    requires SlotsApart(stored, slot)
    requires OnlySlotChanged(before, after, stored)
    ensures SampleClut(after, slot) == SampleClut(before, slot)
  {
  }

  /**
   * Different invocations store into different words of the image, so
   * the 256 invocations of the work group may run in any order.
   */
  lemma ClutStoresDisjoint(i: nat, j: nat)
    requires i < CLUT_ENTRIES && j < CLUT_ENTRIES && i != j
    ensures SlotsApart(ClutIndex(i), ClutIndex(j))
  {
    ClutIndexBijective(i, j);
    ClutIndexBijective(j, i);
  }

  // ---------------------------------------------------------------
  // The dispatch
  // ---------------------------------------------------------------

  /** Sampling the slots of the first `n` palette entries gives their colours. */
  ghost predicate PaletteLoaded(mem: array2<bv32>, clut: seq<bv32>, clutBufPtr: U32, swizzle: Swizzle, n: nat)
    requires IsMemoryImage(mem) && n <= CLUT_ENTRIES
    reads mem
  {
    forall j :: 0 <= j < n ==> SampleClut(clut, ClutIndex(j)) == EntryColor(mem, clutBufPtr, swizzle, j)
  }

  /**
   * `glDispatchCompute(1, 1, 1)` of the loader, its invocations taken in
   * one order. With an image of at least 0x200 words, sampling the slot
   * of every palette entry gives that entry's colour.
   */
  method DispatchClutLoad(mem: array2<bv32>, clut: array<bv32>, clutBufPtr: U32, swizzle: Swizzle)
    requires IsMemoryImage(mem)
    modifies clut
    ensures clut.Length >= 0x200 ==> PaletteLoaded(mem, clut[..], clutBufPtr, swizzle, CLUT_ENTRIES)
  {
    var i := 0;
    while i < CLUT_ENTRIES
      invariant i <= CLUT_ENTRIES
      invariant clut.Length >= 0x200 ==> PaletteLoaded(mem, clut[..], clutBufPtr, swizzle, i)
    {
      LoadNextEntry(mem, clut, clutBufPtr, swizzle, i);
      i := i + 1;
    }
  }

  /** The invocation of palette entry `i` in the dispatch. */
  method LoadNextEntry(mem: array2<bv32>, clut: array<bv32>, clutBufPtr: U32, swizzle: Swizzle, i: nat)
    requires IsMemoryImage(mem) && i < CLUT_ENTRIES
    modifies clut
    ensures clut.Length >= 0x200 && old(PaletteLoaded(mem, clut[..], clutBufPtr, swizzle, i)) ==>
              PaletteLoaded(mem, clut[..], clutBufPtr, swizzle, i + 1)
  {
    ghost var before := clut[..];
    var x, y := i % 16, i / 16;
    LoadClutEntry(mem, clut, clutBufPtr, swizzle, x, y);
    InvocationColor(mem, clutBufPtr, swizzle, x, y, i);
    if clut.Length >= 0x200 && PaletteLoaded(mem, before, clutBufPtr, swizzle, i) {
      ClutIndexInvolution(i);
      StoredInImage(before, clut[..], ClutIndex(i), EntryColor(mem, clutBufPtr, swizzle, i));
      LoadKeepsPalette(mem, before, clut[..], clutBufPtr, swizzle, i);
    }
  }

  /** Storing entry `i` extends a palette loaded up to `i` by that entry. */
  lemma LoadKeepsPalette(mem: array2<bv32>, before: seq<bv32>, after: seq<bv32>, clutBufPtr: U32, swizzle: Swizzle, i: nat)
    requires IsMemoryImage(mem) && i < CLUT_ENTRIES
    requires PaletteLoaded(mem, before, clutBufPtr, swizzle, i)
    requires HalvesAt(after, ClutIndex(i), EntryColor(mem, clutBufPtr, swizzle, i))
    requires OnlySlotChanged(before, after, ClutIndex(i))
    ensures PaletteLoaded(mem, after, clutBufPtr, swizzle, i + 1)
  {
    var slot, color := ClutIndex(i), EntryColor(mem, clutBufPtr, swizzle, i);
    forall j | 0 <= j < i + 1
      ensures SampleClut(after, ClutIndex(j)) == EntryColor(mem, clutBufPtr, swizzle, j)
    {
      if j == i {
        SampleStored(after, slot, color);
      } else {
        ClutStoresDisjoint(i, j);
        SampleOther(before, after, slot, ClutIndex(j));
      }
    }
  }

  // ---------------------------------------------------------------
  // The colour index of an indexed texel
  // ---------------------------------------------------------------

  /**
   * PSMT4 texels pick their colour in the sixteen-entry part of the
   * palette selected by CSA (`g_textureCsa * 16 + pixel`); the renderer
   * keeps CSA to four bits.
   */
  function ColorIndexT4(csa: nat, pixel: nat): (colorIndex: nat)
    requires csa < 16 && pixel < 16
    ensures colorIndex < CLUT_ENTRIES
    ensures colorIndex / 16 == csa && colorIndex % 16 == pixel
  {
    DivModStep(pixel, 16, csa);
    csa * 16 + pixel
  }

  /**
   * After a load, a texel whose colour index is `v` samples the colour of
   * palette entry `ClutIndex(v)`: the loader and the sampler together
   * apply the CSM1 arrangement.
   */
  lemma SampleLoadedPalette(mem: array2<bv32>, clut: seq<bv32>, clutBufPtr: U32, swizzle: Swizzle, v: nat)
    requires IsMemoryImage(mem) && v < CLUT_ENTRIES
    requires PaletteLoaded(mem, clut, clutBufPtr, swizzle, CLUT_ENTRIES)
    ensures ClutIndex(v) < CLUT_ENTRIES
    ensures SampleClut(clut, v) == EntryColor(mem, clutBufPtr, swizzle, ClutIndex(v))
  {
    ClutIndexInvolution(v);
    ClutIndexInvolution(ClutIndex(v));
    assert SampleClut(clut, ClutIndex(ClutIndex(v))) == EntryColor(mem, clutBufPtr, swizzle, ClutIndex(v));
  }
}
