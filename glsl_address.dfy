/**
 * Paged GS-memory addressing as the emitted shaders compute it
 * (`GetPixelAddress_PSMCT32/PSMCT16/PSMT8/PSMT4`), and the position of
 * a transferred pixel inside the transfer rectangle
 * (`Xfer_GetPixelPosition`). All arithmetic is GLSL `uint`: every sum
 * and product wraps modulo 2^32.
 *
 * The swizzle tables (the position of a pixel inside its page) are built
 * from pixel-format tables that are not part of this model; they are a
 * function parameter here, with their two properties as predicates.
 */
module GlslAddress {
  import opened Arith
  import opened GsRegs
  import opened Wrappers

  /** GLSL `uint` arithmetic: the value modulo 2^32. */
  function Wrap32(n: nat): (r: U32)
    ensures n < 0x1_0000_0000 ==> r == n
  {
    n % 0x1_0000_0000
  }

  /** `c_pageSize`: the bytes of one GS memory page. */
  const PAGE_SIZE: nat := 8192

  /** The four page geometries the address helpers know. */
  datatype PageLayout = PageCT32 | PageCT16 | PageT8 | PageT4

  /** `c_pageWidth`, in pixels. */
  function PageWidth(layout: PageLayout): (w: nat)
    ensures w == 64 || w == 128
  {
    match layout
    case PageCT32 => 64
    case PageCT16 => 64
    case PageT8 => 128
    case PageT4 => 128
  }

  /** `c_pageHeight`, in pixels. */
  function PageHeight(layout: PageLayout): (h: nat)
    ensures 32 <= h <= 128
  {
    match layout
    case PageCT32 => 32
    case PageCT16 => 64
    case PageT8 => 64
    case PageT4 => 128
  }

  /** The bits of one pixel in the storage format the layout serves. */
  function PixelBits(layout: PageLayout): (b: nat)
    ensures b == 4 || b == 8 || b == 16 || b == 32
  {
    match layout
    case PageCT32 => 32
    case PageCT16 => 16
    case PageT8 => 8
    case PageT4 => 4
  }

  /** Every page geometry covers exactly one page of memory. */
  lemma PageCoversPageSize(layout: PageLayout)
    ensures PageWidth(layout) * PageHeight(layout) * PixelBits(layout) == PAGE_SIZE * 8
  {
  }

  /** The swizzle image: `imageLoad(swizzleTable, ivec2(x, y)).r`. */
  type Swizzle = (nat, nat) -> U32

  /** Each in-page position has an offset inside the page. */
  predicate SwizzleInPage(swizzle: Swizzle, layout: PageLayout)
  {
    forall x: nat, y: nat :: x < PageWidth(layout) && y < PageHeight(layout) ==> swizzle(x, y) < PAGE_SIZE
  }

  /** Distinct in-page positions have distinct offsets. */
  predicate SwizzleInjective(swizzle: Swizzle, layout: PageLayout)
  {
    forall x1: nat, y1: nat, x2: nat, y2: nat ::
      x1 < PageWidth(layout) && y1 < PageHeight(layout) &&
      x2 < PageWidth(layout) && y2 < PageHeight(layout) &&
      swizzle(x1, y1) == swizzle(x2, y2) ==>
      x1 == x2 && y1 == y2
  }

  /**
   * `pageNum`: the page column plus the page row times the buffer width,
   * divided by the page width after the multiplication, as the GLSL
   * expression associates.
   */
  function PageNumber(layout: PageLayout, bufWidth: U32, x: U32, y: U32): U32
  {
    Wrap32(x / PageWidth(layout) + Wrap32((y / PageHeight(layout)) * bufWidth) / PageWidth(layout))
  }

  /** `GetPixelAddress_<format>`: page base plus the swizzled in-page offset. */
  function PixelAddress(layout: PageLayout, bufAddress: U32, bufWidth: U32, swizzle: Swizzle, x: U32, y: U32): U32
  {
    var pageNum := PageNumber(layout, bufWidth, x, y);
    var pageOffset := swizzle(x % PageWidth(layout), y % PageHeight(layout));
    Wrap32(Wrap32(bufAddress + Wrap32(pageNum * PAGE_SIZE)) + pageOffset)
  }

  /**
   * The ranges the renderer feeds the helpers: a buffer pointer of 14 bits
   * of 256-byte blocks, a width of at most 63 units of 64 pixels, and
   * coordinates of 11 bits.
   */
  predicate InGsRange(bufAddress: U32, bufWidth: U32, x: U32, y: U32)
  {
    bufAddress < 0x40_0000 && bufWidth <= 63 * 64 && x < 2048 && y < 2048
  }

  /**
   * Within those ranges nothing wraps: the address is the buffer pointer,
   * plus whole pages for the page number, plus the in-page offset, so it
   * lies inside that page.
   */
  lemma PixelAddressInPage(layout: PageLayout, bufAddress: U32, bufWidth: U32, swizzle: Swizzle, x: U32, y: U32)
    requires InGsRange(bufAddress, bufWidth, x, y) && SwizzleInPage(swizzle, layout)
    ensures var pageNum := PageNumber(layout, bufWidth, x, y);
            var address := PixelAddress(layout, bufAddress, bufWidth, swizzle, x, y);
            var offset := swizzle(x % PageWidth(layout), y % PageHeight(layout));
            pageNum == x / PageWidth(layout) + ((y / PageHeight(layout)) * bufWidth) / PageWidth(layout) &&
            offset < PAGE_SIZE && address == bufAddress + pageNum * PAGE_SIZE + offset
  {
    var pw, ph := PageWidth(layout), PageHeight(layout);
    var row := y / ph;
    assert row < 64;
    MulMonotone(bufWidth, row, 64);
    assert row * bufWidth < 0x4_0000;
    var pageNum := x / pw + (row * bufWidth) / pw;
    assert pageNum < 0x1_0000;
    assert PageNumber(layout, bufWidth, x, y) == pageNum;
    var offset := swizzle(x % pw, y % ph);
    assert offset < PAGE_SIZE;
  }

  /**
   * Within those ranges, and for a buffer width of whole pages, two pixels
   * of the buffer have the same address only if they are the same pixel.
   */
  lemma PixelAddressInjective(layout: PageLayout, bufAddress: U32, bufWidth: U32, swizzle: Swizzle,
                              x1: U32, y1: U32, x2: U32, y2: U32)
    requires InGsRange(bufAddress, bufWidth, x1, y1) && InGsRange(bufAddress, bufWidth, x2, y2)
    requires bufWidth % PageWidth(layout) == 0 && x1 < bufWidth && x2 < bufWidth
    requires SwizzleInPage(swizzle, layout) && SwizzleInjective(swizzle, layout)
    ensures (PixelAddress(layout, bufAddress, bufWidth, swizzle, x1, y1) ==
             PixelAddress(layout, bufAddress, bufWidth, swizzle, x2, y2)) ==> x1 == x2 && y1 == y2
  {
    var pw, ph := PageWidth(layout), PageHeight(layout);
    if PixelAddress(layout, bufAddress, bufWidth, swizzle, x1, y1) ==
       PixelAddress(layout, bufAddress, bufWidth, swizzle, x2, y2) {
      PixelAddressInPage(layout, bufAddress, bufWidth, swizzle, x1, y1);
      PixelAddressInPage(layout, bufAddress, bufWidth, swizzle, x2, y2);
      var p1, p2 := PageNumber(layout, bufWidth, x1, y1), PageNumber(layout, bufWidth, x2, y2);
      var o1, o2 := swizzle(x1 % pw, y1 % ph), swizzle(x2 % pw, y2 % ph);
      assert o1 + PAGE_SIZE * p1 == o2 + PAGE_SIZE * p2;
      Peel(o1, p1, o2, p2, PAGE_SIZE);
      assert x1 % pw == x2 % pw && y1 % ph == y2 % ph;
      PageDigits(x1, y1, x2, y2, pw, ph, bufWidth);
    }
  }

  /** A pixel is determined by its page number and its in-page position. */
  lemma PageDigits(x1: nat, y1: nat, x2: nat, y2: nat, pw: nat, ph: nat, bufWidth: nat)
    requires pw > 0 && ph > 0 && bufWidth % pw == 0 && x1 < bufWidth && x2 < bufWidth
    requires x1 / pw + ((y1 / ph) * bufWidth) / pw == x2 / pw + ((y2 / ph) * bufWidth) / pw
    requires x1 % pw == x2 % pw && y1 % ph == y2 % ph
    ensures x1 == x2 && y1 == y2
  {
    var m := bufWidth / pw;
    Recompose(bufWidth, pw);
    PageColumn(x1, pw, m);
    PageColumn(x2, pw, m);
    PagePeel(x1 / pw, y1 / ph, x2 / pw, y2 / ph, pw, m);
    Recompose(x1, pw);
    Recompose(x2, pw);
    Recompose(y1, ph);
    Recompose(y2, ph);
  }

  /** Page column and page row are determined by the page number. */
  lemma PagePeel(c1: nat, r1: nat, c2: nat, r2: nat, pw: nat, m: nat)
    requires pw > 0 && c1 < m && c2 < m
    requires c1 + (r1 * (pw * m)) / pw == c2 + (r2 * (pw * m)) / pw
    ensures c1 == c2 && r1 == r2
  {
    PageRow(r1, pw, m);
    PageRow(r2, pw, m);
    Peel(c1, r1, c2, r2, m);
  }

  lemma Recompose(n: nat, d: nat)
    requires d > 0
    ensures n == d * (n / d) + n % d
  {
  }

  /** A whole number of page columns: the division after the product is exact. */
  lemma PageRow(row: nat, pw: nat, m: nat)
    requires pw > 0
    ensures (row * (pw * m)) / pw == m * row
  {
    assert row * (pw * m) == 0 + pw * (m * row);
    DivModStep(0, pw, m * row);
  }

  /** A pixel left of the buffer's right edge lies in one of its page columns. */
  lemma PageColumn(x: nat, pw: nat, m: nat)
    requires pw > 0 && x < pw * m
    ensures x / pw < m
  {
    DivBounds(x, pw);
    MulCancelLess(pw, x / pw, m);
  }

  // ---------------------------------------------------------------
  // Transfer positions
  // ---------------------------------------------------------------

  /** The transfer destination wraps at 2048 pixels in both directions. */
  const XFER_WRAP: nat := 2048

  /**
   * `Xfer_GetPixelPosition`: pixel `i` of a transfer `rrw` pixels wide,
   * offset by the destination corner and wrapped. A zero width makes the
   * `%` and `/` undefined in GLSL: None.
   */
  function XferPixelPosition(rrw: U32, dsax: U32, dsay: U32, pixelIndex: U32): (pos: Option<(nat, nat)>)
    ensures pos.Some? <==> rrw > 0
    ensures pos.Some? ==> pos.value.0 < XFER_WRAP && pos.value.1 < XFER_WRAP
    ensures pos.Some? ==>
              pos.value == ((pixelIndex % rrw + dsax) % XFER_WRAP, (pixelIndex / rrw + dsay) % XFER_WRAP)
  {
    if rrw == 0 then None
    else
      var rrx := pixelIndex % rrw;
      var rry := pixelIndex / rrw;
      WrapKeepsLowBits(rrx + dsax);
      WrapKeepsLowBits(rry + dsay);
      Some((Wrap32(rrx + dsax) % XFER_WRAP, Wrap32(rry + dsay) % XFER_WRAP))
  }

  /** 2048 divides 2^32, so the 32-bit wrap does not change the position. */
  lemma WrapKeepsLowBits(n: nat)
    ensures Wrap32(n) % XFER_WRAP == n % XFER_WRAP
  {
    var q, r := n / 0x1_0000_0000, n % 0x1_0000_0000;
    assert n == r + XFER_WRAP * (0x20_0000 * q);
    DivModStep(r % XFER_WRAP, XFER_WRAP, r / XFER_WRAP + 0x20_0000 * q);
    DivModStep(r % XFER_WRAP, XFER_WRAP, r / XFER_WRAP);
  }

  /**
   * A transfer at most 2048 pixels wide and at most 2048 rows long sends
   * distinct pixels to distinct positions.
   */
  lemma XferPositionsDistinct(rrw: U32, dsax: U32, dsay: U32, i1: U32, i2: U32)
    requires 0 < rrw <= XFER_WRAP && i1 < rrw * XFER_WRAP && i2 < rrw * XFER_WRAP
    requires i1 != i2
    ensures XferPixelPosition(rrw, dsax, dsay, i1) != XferPixelPosition(rrw, dsax, dsay, i2)
  {
    if XferPixelPosition(rrw, dsax, dsay, i1) == XferPixelPosition(rrw, dsax, dsay, i2) {
      OffsetCancels(i1 % rrw, i2 % rrw, dsax);
      RowInRange(i1, rrw);
      RowInRange(i2, rrw);
      OffsetCancels(i1 / rrw, i2 / rrw, dsay);
      Recompose(i1, rrw);
      Recompose(i2, rrw);
    }
  }

  lemma RowInRange(i: nat, rrw: nat)
    requires 0 < rrw && i < rrw * XFER_WRAP
    ensures 0 <= i / rrw < XFER_WRAP
  {
    DivBounds(i, rrw);
    DivNonNegative(i, rrw);
    MulCancelLess(rrw, i / rrw, XFER_WRAP);
  }

  lemma DivNonNegative(n: nat, d: nat)
    requires d > 0
    ensures n / d >= 0
  {
  }

  /** Adding the same offset keeps two values below 2048 apart modulo 2048. */
  lemma OffsetCancels(a: nat, b: nat, d: nat)
    requires a < XFER_WRAP && b < XFER_WRAP
    requires (a + d) % XFER_WRAP == (b + d) % XFER_WRAP
    ensures a == b
  {
    var r := d % XFER_WRAP;
    var q := d / XFER_WRAP;
    assert d == r + XFER_WRAP * q;
    if a + r < XFER_WRAP {
      DivModStep(a + r, XFER_WRAP, q);
    } else {
      assert a + d == (a + r - XFER_WRAP) + XFER_WRAP * (q + 1);
      DivModStep(a + r - XFER_WRAP, XFER_WRAP, q + 1);
    }
    if b + r < XFER_WRAP {
      DivModStep(b + r, XFER_WRAP, q);
    } else {
      assert b + d == (b + r - XFER_WRAP) + XFER_WRAP * (q + 1);
      DivModStep(b + r - XFER_WRAP, XFER_WRAP, q + 1);
    }
  }
}
