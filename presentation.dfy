/**
 * The integer arithmetic of `FlipImpl`: read-circuit selection, the
 * displayed size, and the FILL / FIT / ORIGINAL output viewport, with the
 * unsigned 32-bit wrap-around and the signed reinterpretations of the C++
 * code written out.
 */
module Presentation {
  import opened Arith
  import opened GsRegs

  const U32_MOD: int := 0x1_0000_0000
  const S32_MIN: int := -0x8000_0000
  const S32_LIMIT: int := 0x8000_0000

  /** An `int` stored into an `unsigned int`: reduction modulo 2^32. */
  function ToU32(x: int): (r: nat)
    ensures r < U32_MOD
    ensures 0 <= x < U32_MOD ==> r == x
    ensures -U32_MOD <= x < 0 ==> r == x + U32_MOD
  {
    x % U32_MOD
  }

  /** An `unsigned int` reinterpreted as a two's-complement `int`. */
  function ToS32(w: nat): (r: int)
    requires w < U32_MOD
    ensures S32_MIN <= r < S32_LIMIT
    ensures ToU32(r) == w
    ensures w < S32_LIMIT ==> r == w
  {
    if w < S32_LIMIT then w else w - U32_MOD
  }

  /** C++ signed division by two, which rounds toward zero. */
  function HalfTowardZero(x: int): (r: int)
    ensures x >= 0 ==> 0 <= 2 * r <= x <= 2 * r + 1
    ensures x < 0 ==> 2 * r - 1 <= x <= 2 * r <= 0
  {
    if x >= 0 then x / 2 else -((-x) / 2)
  }

  // ---------------------------------------------------------------
  // Read circuit
  // ---------------------------------------------------------------

  /**
   * `GetCurrentReadCircuit`: circuit 2 only when PMODE enables it alone, or
   * enables both and only DISPFB1 is the null value.
   */
  function CurrentReadCircuit(pmode: nat, dispFb1: nat, dispFb2: nat): (circuit: nat)
    ensures circuit < 2
    ensures circuit == 1 <==> pmode % 4 == 2 || (pmode % 4 == 3 && dispFb1 == 0 && dispFb2 != 0)
  {
    var rcMode := pmode % 4;
    if rcMode == 2 then 1
    else if rcMode == 3 && dispFb1 == 0 && dispFb2 != 0 then 1
    else 0
  }

  // ---------------------------------------------------------------
  // Displayed size
  // ---------------------------------------------------------------

  /** The displayed width: DISPLAY.DW + 1 magnified horizontally by MAGH + 1. */
  function DisplayWidth(display: nat): (width: nat)
    ensures (DisplayMagX(display) + 1) * width <= DisplayW(display) + 1
    ensures DisplayW(display) + 1 < (DisplayMagX(display) + 1) * width + DisplayMagX(display) + 1
    ensures width <= DisplayW(display) + 1
  {
    DivBounds(DisplayW(display) + 1, DisplayMagX(display) + 1);
    (DisplayW(display) + 1) / (DisplayMagX(display) + 1)
  }

  /** The displayed height: DISPLAY.DH + 1, halved for interlaced frame mode. */
  function DisplayHeight(display: nat, halfHeight: bool): (height: nat)
    ensures !halfHeight ==> height == DisplayH(display) + 1
    ensures halfHeight ==> 2 * height <= DisplayH(display) + 1 <= 2 * height + 1
    ensures height <= 0x800
  {
    var h := DisplayH(display) + 1;
    if halfHeight then h / 2 else h
  }

  // ---------------------------------------------------------------
  // Output viewport
  // ---------------------------------------------------------------

  datatype PresentationMode = Fill | Fit | Original

  /** The arguments of the `glViewport` call. */
  datatype Viewport = Viewport(x: int, y: int, width: int, height: int)

  /** An unsigned window extent minus a signed viewport extent, as `int`, halved. */
  function CenteredOffset(window: U32, extent: int): int
  {
    HalfTowardZero(ToS32(ToU32(window - extent)))
  }

  /** FIT candidate 0: full window width, height scaled to the source aspect. */
  function FitCandidate0(windowWidth: U32, sourceWidth: U32, sourceHeight: U32): (int, int)
  {
    (ToS32(windowWidth),
     if sourceWidth != 0 then ToS32(ToU32(windowWidth * sourceHeight) / sourceWidth) else 0)
  }

  /** FIT candidate 1: width scaled to the source aspect, full window height. */
  function FitCandidate1(windowHeight: U32, sourceWidth: U32, sourceHeight: U32): (int, int)
  {
    (if sourceHeight != 0 then ToS32(ToU32(windowHeight * sourceWidth) / sourceHeight) else 0,
     ToS32(windowHeight))
  }

  /** The viewport `FlipImpl` selects for a presentation mode. */
  function OutputViewport(mode: PresentationMode, windowWidth: U32, windowHeight: U32,
                          sourceWidth: U32, sourceHeight: U32): (v: Viewport)
    ensures mode == Fill ==> v == Viewport(0, 0, ToS32(windowWidth), ToS32(windowHeight))
    ensures mode == Original ==> v.width == ToS32(sourceWidth) && v.height == ToS32(sourceHeight)
  {
    match mode
    case Fill => Viewport(0, 0, ToS32(windowWidth), ToS32(windowHeight))
    case Fit =>
      var c0 := FitCandidate0(windowWidth, sourceWidth, sourceHeight);
      var c1 := FitCandidate1(windowHeight, sourceWidth, sourceHeight);
      var useSecond := c0.0 > ToS32(windowWidth) || c0.1 > ToS32(windowHeight);
      var (w, h) := if useSecond then c1 else c0;
      Viewport(CenteredOffset(windowWidth, w), CenteredOffset(windowHeight, h), w, h)
    case Original =>
      Viewport(CenteredOffset(windowWidth, sourceWidth), CenteredOffset(windowHeight, sourceHeight),
               ToS32(sourceWidth), ToS32(sourceHeight))
  }

  /**
   * Cross-multiplication behind the FIT choice: if the window is too short
   * for the width-scaled height, the height-scaled width is not wider than
   * the window.
   */
  lemma FitCrossMultiply(windowWidth: nat, windowHeight: nat, sourceWidth: nat, sourceHeight: nat)
    requires sourceWidth > 0 && sourceHeight > 0
    requires windowHeight < windowWidth * sourceHeight / sourceWidth
    ensures windowHeight * sourceWidth / sourceHeight <= windowWidth
  {
    var n0, n1 := windowWidth * sourceHeight, windowHeight * sourceWidth;
    var q0, q1 := n0 / sourceWidth, n1 / sourceHeight;
    DivBounds(n0, sourceWidth);
    DivBounds(n1, sourceHeight);
    MulMonotone(sourceWidth, windowHeight + 1, q0);
    assert n1 < n0;
    assert sourceHeight * q1 < sourceHeight * windowWidth;
    MulCancelLess(sourceHeight, q1, windowWidth);
  }

  /** Without overflow, the scaled extents are plain quotients bounded by their products. */
  lemma ScaledExtent(a: nat, b: nat, d: nat)
    requires d > 0 && a * b < S32_LIMIT
    ensures ToS32(ToU32(a * b) / d) == a * b / d
  {
    DivBounds(a * b, d);
  }

  /** A viewport extent inside the window is centred to within half a pixel. */
  lemma CenteredOffsetInside(window: U32, extent: int)
    requires 0 <= extent <= window < S32_LIMIT
    ensures 0 <= 2 * CenteredOffset(window, extent) <= window - extent <= 2 * CenteredOffset(window, extent) + 1
  {
  }

  /**
   * The assertion in `FlipImpl`: when FIT candidate 0 overflows the window,
   * candidate 1 fits. With no overflow in the products, the selected
   * viewport lies inside the window, touches it on one side, and is
   * centred to within half a pixel.
   */
  lemma FitViewportInsideWindow(windowWidth: U32, windowHeight: U32, sourceWidth: U32, sourceHeight: U32)
    requires windowWidth < S32_LIMIT && windowHeight < S32_LIMIT
    requires windowWidth * sourceHeight < S32_LIMIT && windowHeight * sourceWidth < S32_LIMIT
    ensures var v := OutputViewport(Fit, windowWidth, windowHeight, sourceWidth, sourceHeight);
            0 <= v.width <= windowWidth && 0 <= v.height <= windowHeight &&
            (v.width == windowWidth || v.height == windowHeight) &&
            0 <= 2 * v.x <= windowWidth - v.width <= 2 * v.x + 1 &&
            0 <= 2 * v.y <= windowHeight - v.height <= 2 * v.y + 1
  {
    var c0 := FitCandidate0(windowWidth, sourceWidth, sourceHeight);
    var c1 := FitCandidate1(windowHeight, sourceWidth, sourceHeight);
    if sourceWidth != 0 {
      ScaledExtent(windowWidth, sourceHeight, sourceWidth);
      DivBounds(windowWidth * sourceHeight, sourceWidth);
    }
    if sourceHeight != 0 {
      ScaledExtent(windowHeight, sourceWidth, sourceHeight);
      DivBounds(windowHeight * sourceWidth, sourceHeight);
    }
    var (w, h) := if c0.1 > windowHeight then c1 else c0;
    if c0.1 > windowHeight && sourceHeight != 0 {
      FitCrossMultiply(windowWidth, windowHeight, sourceWidth, sourceHeight);
    }
    assert 0 <= w <= windowWidth && 0 <= h <= windowHeight;
    CenteredOffsetInside(windowWidth, w);
    CenteredOffsetInside(windowHeight, h);
  }

  /**
   * ORIGINAL centres the source in the window: the offset is half the
   * signed difference rounded toward zero, negative when the source is
   * larger than the window.
   */
  lemma OriginalViewportCentred(windowWidth: U32, windowHeight: U32, sourceWidth: U32, sourceHeight: U32)
    requires windowWidth < S32_LIMIT && windowHeight < S32_LIMIT
    requires sourceWidth < S32_LIMIT && sourceHeight < S32_LIMIT
    ensures var v := OutputViewport(Original, windowWidth, windowHeight, sourceWidth, sourceHeight);
            v.x == HalfTowardZero(windowWidth - sourceWidth) &&
            v.y == HalfTowardZero(windowHeight - sourceHeight) &&
            v.width == sourceWidth && v.height == sourceHeight
  {
  }
}
