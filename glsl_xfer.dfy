/**
 * Host-to-local transfer on the GPU: the emitted compute programs read
 * pixel `i` of the uploaded stream (`XferStream_Read16/8/4`), place it in
 * the transfer rectangle and store it through the paged address into the
 * memory image. The stream is the transfer buffer's bytes, as the shader
 * sees them: little-endian 32-bit words.
 */
module GlslXfer {
  import opened GsRegs
  import opened Wrappers
  import opened GlslMemory
  import opened GlslAddress

  // ---------------------------------------------------------------
  // The uploaded stream
  // ---------------------------------------------------------------

  /** Four bytes of the transfer buffer as one `uint` of `g_data`. */
  function PackWord(b0: bv8, b1: bv8, b2: bv8, b3: bv8): bv32
  {
    (b0 as bv32) | ((b1 as bv32) << 8) | ((b2 as bv32) << 16) | ((b3 as bv32) << 24)
  }

  /** The transfer buffer seen as `uint g_data[]`. */
  function StreamWords(bytes: seq<bv8>): (words: seq<bv32>)
    requires |bytes| % 4 == 0
    ensures |words| == |bytes| / 4
  {
    if |bytes| == 0 then [] else [PackWord(bytes[0], bytes[1], bytes[2], bytes[3])] + StreamWords(bytes[4..])
  }

  /** Word `w` of the stream holds bytes 4w .. 4w+3, lowest first. */
  lemma {:induction false} StreamWordAt(bytes: seq<bv8>, w: nat)
    requires |bytes| % 4 == 0 && w < |bytes| / 4
    ensures StreamWords(bytes)[w] == PackWord(bytes[4 * w], bytes[4 * w + 1], bytes[4 * w + 2], bytes[4 * w + 3])
  {
    if w > 0 {
      StreamWordAt(bytes[4..], w - 1);
    }
  }

  /** Pixel `i` of a 16-bit stream: bytes 2i and 2i+1, little-endian. */
  function Stream16Pixel(bytes: seq<bv8>, i: nat): (p: bv32)
    requires 2 * i + 1 < |bytes|
    ensures p <= 0xFFFF
  {
    LittleEndianHalf(bytes[2 * i], bytes[2 * i + 1])
  }

  /** Two bytes as a 16-bit value, the first one low. */
  function LittleEndianHalf(lo: bv8, hi: bv8): (p: bv32)
    ensures p <= 0xFFFF
  {
    (lo as bv32) | ((hi as bv32) << 8)
  }

  /** Pixel `i` of an 8-bit stream: byte i. */
  function Stream8Pixel(bytes: seq<bv8>, i: nat): (p: bv32)
    requires i < |bytes|
    ensures p <= 0xFF
  {
    bytes[i] as bv32
  }

  /** Pixel `i` of a 4-bit stream: the low nibble of byte i/2 for even i, the high one for odd i. */
  function Stream4Pixel(bytes: seq<bv8>, i: nat): (p: bv32)
    requires i / 2 < |bytes|
    ensures p <= 0xF
  {
    ByteNibble(bytes[i / 2], i % 2 == 1)
  }

  /** The high or the low nibble of a byte. */
  function ByteNibble(b: bv8, high: bool): (p: bv32)
    ensures p <= 0xF
  {
    if high then (b as bv32) >> 4 else (b as bv32) & 0xF
  }

  // ---------------------------------------------------------------
  // XferStream_Read*
  // ---------------------------------------------------------------

  /** `XferStream_Read16`: field (i % 2) of word i / 2. */
  function XferStreamRead16(data: seq<bv32>, pixelIndex: U32): bv32
    requires pixelIndex / 2 < |data|
  {
    WordHalf(data[pixelIndex / 2], pixelIndex % 2)
  }

  /** Halfword `h` of a word, counting from the low end: `(word >> (h * 16)) & 0xFFFF`. */
  function WordHalf(word: bv32, h: nat): (p: bv32)
    requires h < 2
    ensures p <= 0xFFFF
  {
    (word >> ((h * 16) as bv32)) & 0xFFFF
  }

  /** `XferStream_Read8`: field (i % 4) of word i / 4. */
  function XferStreamRead8(data: seq<bv32>, pixelIndex: U32): bv32
    requires pixelIndex / 4 < |data|
  {
    WordByte(data[pixelIndex / 4], pixelIndex % 4)
  }

  /** Byte `k` of a word, counting from the low end: `(word >> (k * 8)) & 0xFF`. */
  function WordByte(word: bv32, k: nat): (p: bv32)
    requires k < 4
    ensures p <= 0xFF
  {
    (word >> ((k * 8) as bv32)) & 0xFF
  }

  /**
   * `XferStream_Read4` as written: word i / 16 and shift (i % 16) * 4.
   * A shift of 32 or more is undefined in GLSL: None.
   */
  function XferStreamRead4AsWritten(data: seq<bv32>, pixelIndex: U32): (p: Option<bv32>)
    requires pixelIndex / 16 < |data|
    ensures p.None? <==> pixelIndex % 16 >= 8
  {
    var srcShift := (pixelIndex % 16) * 4;
    if srcShift >= 32 then None else Some((data[pixelIndex / 16] >> (srcShift as bv32)) & 0xF)
  }

  /** `XferStream_Read4` with the eight nibbles of a word: word i / 8 and shift (i % 8) * 4. */
  function XferStreamRead4(data: seq<bv32>, pixelIndex: U32): (p: bv32)
    requires pixelIndex / 8 < |data|
  {
    WordNibble(data[pixelIndex / 8], pixelIndex % 8)
  }

  /** Nibble `n` of a word, counting from the low end: `(word >> (n * 4)) & 0xF`. */
  function WordNibble(word: bv32, n: nat): (p: bv32)
    requires n < 8
    ensures p <= 0xF
  {
    (word >> ((n * 4) as bv32)) & 0xF
  }

  /** `XferStream_Read16` returns pixel i of the uploaded 16-bit stream. */
  lemma Read16ReturnsPixel(bytes: seq<bv8>, pixelIndex: U32)
    requires |bytes| % 4 == 0 && 2 * pixelIndex + 1 < |bytes|
    ensures pixelIndex / 2 < |StreamWords(bytes)|
    ensures XferStreamRead16(StreamWords(bytes), pixelIndex) == Stream16Pixel(bytes, pixelIndex)
  {
    var w, h := pixelIndex / 2, pixelIndex % 2;
    var words := StreamWords(bytes);
    StreamWordAt(bytes, w);
    var quad := bytes[4 * w .. 4 * w + 4];
    assert words[w] == PackWord(quad[0], quad[1], quad[2], quad[3]);
    assert XferStreamRead16(words, pixelIndex) == WordHalf(words[w], h);
    assert 2 * pixelIndex == 4 * w + 2 * h;
    assert Stream16Pixel(bytes, pixelIndex) == LittleEndianHalf(quad[2 * h], quad[2 * h + 1]);
    PackedHalf(quad, h);
  }

  /** Halfword h of a packed word is bytes 2h and 2h+1. */
  lemma PackedHalf(quad: seq<bv8>, h: nat)
    requires |quad| == 4 && h < 2
    ensures WordHalf(PackWord(quad[0], quad[1], quad[2], quad[3]), h) == LittleEndianHalf(quad[2 * h], quad[2 * h + 1])
  {
    if h == 0 {
      assert (h * 16) as bv32 == 0;
    } else {
      assert (h * 16) as bv32 == 16;
    }
  }

  /** `XferStream_Read8` returns pixel i of the uploaded 8-bit stream. */
  lemma Read8ReturnsPixel(bytes: seq<bv8>, pixelIndex: U32)
    requires |bytes| % 4 == 0 && pixelIndex < |bytes|
    ensures pixelIndex / 4 < |StreamWords(bytes)|
    ensures XferStreamRead8(StreamWords(bytes), pixelIndex) == Stream8Pixel(bytes, pixelIndex)
  {
    var w, k := pixelIndex / 4, pixelIndex % 4;
    var words := StreamWords(bytes);
    StreamWordAt(bytes, w);
    var quad := bytes[4 * w .. 4 * w + 4];
    assert words[w] == PackWord(quad[0], quad[1], quad[2], quad[3]);
    assert XferStreamRead8(words, pixelIndex) == WordByte(words[w], k);
    assert pixelIndex == 4 * w + k;
    assert bytes[pixelIndex] == quad[k];
    PackedByte(quad, k);
  }

  /** Byte k of a packed word is the k-th of the four bytes. */
  lemma PackedByte(quad: seq<bv8>, k: nat)
    requires |quad| == 4 && k < 4
    ensures WordByte(PackWord(quad[0], quad[1], quad[2], quad[3]), k) == quad[k] as bv32
  {
    if k < 2 {
      PackedByteLow(quad, k);
    } else {
      PackedByteHigh(quad, k);
    }
  }

  lemma PackedByteLow(quad: seq<bv8>, k: nat)
    requires |quad| == 4 && k < 2
    ensures WordByte(PackWord(quad[0], quad[1], quad[2], quad[3]), k) == quad[k] as bv32
  {
    if k == 0 {
      assert (k * 8) as bv32 == 0;
    } else {
      assert (k * 8) as bv32 == 8;
    }
  }

  lemma PackedByteHigh(quad: seq<bv8>, k: nat)
    requires |quad| == 4 && 2 <= k < 4
    ensures WordByte(PackWord(quad[0], quad[1], quad[2], quad[3]), k) == quad[k] as bv32
  {
    if k == 2 {
      assert (k * 8) as bv32 == 16;
    } else {
      assert (k * 8) as bv32 == 24;
    }
  }

  /** The eight-nibble `XferStream_Read4` returns pixel i of the uploaded 4-bit stream. */
  lemma Read4ReturnsPixel(bytes: seq<bv8>, pixelIndex: U32)
    requires |bytes| % 4 == 0 && pixelIndex / 2 < |bytes|
    ensures pixelIndex / 8 < |StreamWords(bytes)|
    ensures XferStreamRead4(StreamWords(bytes), pixelIndex) == Stream4Pixel(bytes, pixelIndex)
  {
    var w, n := pixelIndex / 8, pixelIndex % 8;
    var words := StreamWords(bytes);
    StreamWordAt(bytes, w);
    var quad := bytes[4 * w .. 4 * w + 4];
    assert words[w] == PackWord(quad[0], quad[1], quad[2], quad[3]);
    assert XferStreamRead4(words, pixelIndex) == WordNibble(words[w], n);
    assert pixelIndex / 2 == 4 * w + n / 2;
    assert Stream4Pixel(bytes, pixelIndex) == ByteNibble(quad[n / 2], n % 2 == 1);
    PackedNibble(quad, n);
  }

  /** Nibble n of a packed word is nibble n % 2 of byte n / 2. */
  lemma PackedNibble(quad: seq<bv8>, n: nat)
    requires |quad| == 4 && n < 8
    ensures WordNibble(PackWord(quad[0], quad[1], quad[2], quad[3]), n) == ByteNibble(quad[n / 2], n % 2 == 1)
  {
    if n < 4 {
      PackedNibbleLow(quad, n);
    } else {
      PackedNibbleHigh(quad, n);
    }
  }

  /** Nibbles 0..3 of a packed word: both nibbles of bytes 0 and 1. */
  lemma PackedNibbleLow(quad: seq<bv8>, n: nat)
    requires |quad| == 4 && n < 4
    ensures WordNibble(PackWord(quad[0], quad[1], quad[2], quad[3]), n) == ByteNibble(quad[n / 2], n % 2 == 1)
  {
    if n == 0 {
      assert (n * 4) as bv32 == 0;
    } else if n == 1 {
      assert (n * 4) as bv32 == 4;
    } else if n == 2 {
      assert (n * 4) as bv32 == 8;
    } else {
      assert (n * 4) as bv32 == 12;
    }
  }

  /** Nibbles 4..7 of a packed word: both nibbles of bytes 2 and 3. */
  lemma PackedNibbleHigh(quad: seq<bv8>, n: nat)
    requires |quad| == 4 && 4 <= n < 8
    ensures WordNibble(PackWord(quad[0], quad[1], quad[2], quad[3]), n) == ByteNibble(quad[n / 2], n % 2 == 1)
  {
    if n == 4 {
      assert (n * 4) as bv32 == 16;
    } else if n == 5 {
      assert (n * 4) as bv32 == 20;
    } else if n == 6 {
      assert (n * 4) as bv32 == 24;
    } else {
      assert (n * 4) as bv32 == 28;
    }
  }

  /**
   * Where the as-written read is defined it returns the pixel eight
   * times (i / 16) places earlier than i: the word index counts sixteen
   * nibbles per word where a word holds eight.
   */
  lemma Read4AsWrittenReadsEarlierPixel(data: seq<bv32>, pixelIndex: U32)
    requires pixelIndex / 8 < |data| && pixelIndex % 16 < 8
    ensures var earlier := pixelIndex - 8 * (pixelIndex / 16);
            earlier / 8 == pixelIndex / 16 &&
            XferStreamRead4AsWritten(data, pixelIndex) == Some(XferStreamRead4(data, earlier))
  {
    var earlier := pixelIndex - 8 * (pixelIndex / 16);
    assert earlier == 8 * (pixelIndex / 16) + pixelIndex % 16;
    assert earlier / 8 == pixelIndex / 16 && earlier % 8 == pixelIndex % 16;
  }

  /**
   * A stream of three words whose nibble 8 (pixel 8) is 1 and nibble 16
   * (pixel 16) is 2: the as-written read of pixel 16 returns 1.
   */
  lemma Read4AsWrittenMisreadsPixel16()
    ensures var bytes: seq<bv8> := [0, 0, 0, 0, 1, 0, 0, 0, 2, 0, 0, 0];
            Stream4Pixel(bytes, 16) == 2 &&
            XferStreamRead4(StreamWords(bytes), 16) == 2 &&
            XferStreamRead4AsWritten(StreamWords(bytes), 16) == Some(1)
  {
    var bytes: seq<bv8> := [0, 0, 0, 0, 1, 0, 0, 0, 2, 0, 0, 0];
    Read4ReturnsPixel(bytes, 16);
    Read4ReturnsPixel(bytes, 8);
    Read4AsWrittenReadsEarlierPixel(StreamWords(bytes), 16);
  }

  // ---------------------------------------------------------------
  // Transfer parameters
  // ---------------------------------------------------------------

  /** `XFERPARAMS`, the parameter block the renderer uploads (32 bytes). */
  datatype XferParams = XferParams(pixelCount: U32, bufAddress: U32, bufWidth: U32, rrw: U32, dsax: U32, dsay: U32)

  /** The block's `uint` words in memory order, the padding zeroed. */
  function ParamWords(params: XferParams): (words: seq<U32>)
    ensures |words| == 8
  {
    [params.pixelCount, params.bufAddress, params.bufWidth, params.rrw, params.dsax, params.dsay, 0, 0]
  }

  /** The parameters the transfer programs use. */
  datatype ShaderParams = ShaderParams(bufAddress: U32, bufWidth: U32, rrw: U32, dsax: U32, dsay: U32)

  /**
   * The `xferParams` uniform block as written: under std140 its five
   * `uint` members sit at words 0 .. 4.
   */
  function ShaderParamsAsWritten(words: seq<U32>): ShaderParams
    requires |words| >= 5
  {
    ShaderParams(words[0], words[1], words[2], words[3], words[4])
  }

  /**
   * The block as written sees the pixel count as the buffer pointer and
   * every later field one place early.
   */
  lemma ParamsAsWrittenShifted(params: XferParams)
    ensures ShaderParamsAsWritten(ParamWords(params)) ==
            ShaderParams(params.pixelCount, params.bufAddress, params.bufWidth, params.rrw, params.dsax)
    ensures ShaderParamsAsWritten(ParamWords(params)).bufAddress == params.bufAddress <==>
            params.pixelCount == params.bufAddress
  {
  }

  /** A 256-pixel transfer to address 0 is stored at address 256 by the block as written. */
  lemma ParamsAsWrittenMisplaceTransfer()
    ensures var params := XferParams(256, 0, 64, 16, 0, 0);
            ShaderParamsAsWritten(ParamWords(params)).bufAddress == 256 &&
            ShaderParamsAsWritten(ParamWords(params)).rrw == 64
  {
  }

  /** The block with the pixel count declared first, matching `XFERPARAMS`. */
  function ShaderParamsOf(words: seq<U32>): ShaderParams
    requires |words| >= 6
  {
    ShaderParams(words[1], words[2], words[3], words[4], words[5])
  }

  /** With the pixel count declared first every field reads back as uploaded. */
  lemma ParamsRoundTrip(params: XferParams)
    ensures ShaderParamsOf(ParamWords(params)) ==
            ShaderParams(params.bufAddress, params.bufWidth, params.rrw, params.dsax, params.dsay)
  {
  }

  // ---------------------------------------------------------------
  // One invocation of each transfer program
  // ---------------------------------------------------------------

  /** Where pixel `pixelIndex` of the transfer lies in the destination buffer. */
  function XferTarget(params: ShaderParams, pixelIndex: U32): (pos: (U32, U32))
    requires params.rrw > 0
    ensures pos.0 < XFER_WRAP && pos.1 < XFER_WRAP
  {
    XferPixelPosition(params.rrw, params.dsax, params.dsay, pixelIndex).value
  }

  /** The swizzled address of pixel `pixelIndex` for a page layout. */
  function XferAddress(layout: PageLayout, params: ShaderParams, swizzle: Swizzle, pixelIndex: U32): bv32
    requires params.rrw > 0
  {
    var pos := XferTarget(params, pixelIndex);
    PixelAddress(layout, params.bufAddress, params.bufWidth, swizzle, pos.0, pos.1) as bv32
  }

  /**
   * The linear address of the 32-bit texel holding pixel `pixelIndex`
   * in the programs for the formats kept in the upper bits of a CT32 word.
   */
  function XferTexelAddress(params: ShaderParams, pixelIndex: U32): bv32
    requires params.rrw > 0
  {
    var pos := XferTarget(params, pixelIndex);
    Wrap32(Wrap32(params.bufAddress + Wrap32(Wrap32(pos.1 * params.bufWidth) * 4)) + Wrap32(pos.0 * 4)) as bv32
  }

  /** `address + 3`: the byte the upper-bits formats are stored in. */
  function XferTopByteAddress(params: ShaderParams, pixelIndex: U32): bv32
    requires params.rrw > 0
  {
    XferTexelAddress(params, pixelIndex) + 3
  }

  /** `GenerateXferProgramPSMCT32`, one invocation: the stream word goes to the CT32 address. */
  method XferPSMCT32(mem: array2<bv32>, params: ShaderParams, swizzle: Swizzle, data: seq<bv32>, pixelIndex: U32)
    requires IsMemoryImage(mem) && params.rrw > 0 && pixelIndex < |data|
    modifies mem
    ensures var address := XferAddress(PageCT32, params, swizzle, pixelIndex);
            OthersUnchanged(mem, Coords(WordAddress(address))) &&
            (WordAddress(address) < MEMORY_WORDS ==> Read32(mem, address) == data[pixelIndex])
  {
    var pixel := data[pixelIndex];
    var address := XferAddress(PageCT32, params, swizzle, pixelIndex);
    Write32(mem, address, pixel);
  }

  /** `GenerateXferProgramPSMCT16`, one invocation. */
  method XferPSMCT16(mem: array2<bv32>, params: ShaderParams, swizzle: Swizzle, data: seq<bv32>, pixelIndex: U32)
    requires IsMemoryImage(mem) && params.rrw > 0 && pixelIndex / 2 < |data|
    modifies mem
    ensures var address := XferAddress(PageCT16, params, swizzle, pixelIndex);
            OthersUnchanged(mem, Coords(WordAddress(address))) &&
            HalfStored(mem, address, XferStreamRead16(data, pixelIndex))
  {
    var pixel := XferStreamRead16(data, pixelIndex);
    var address := XferAddress(PageCT16, params, swizzle, pixelIndex);
    Write16(mem, address, pixel);
  }

  /** `GenerateXferProgramPSMT8`, one invocation. */
  method XferPSMT8(mem: array2<bv32>, params: ShaderParams, swizzle: Swizzle, data: seq<bv32>, pixelIndex: U32)
    requires IsMemoryImage(mem) && params.rrw > 0 && pixelIndex / 4 < |data|
    modifies mem
    ensures var address := XferAddress(PageT8, params, swizzle, pixelIndex);
            OthersUnchanged(mem, Coords(WordAddress(address))) &&
            ByteStored(mem, address, XferStreamRead8(data, pixelIndex))
  {
    var pixel := XferStreamRead8(data, pixelIndex);
    var address := XferAddress(PageT8, params, swizzle, pixelIndex);
    Write8(mem, address, pixel);
  }

  /**
   * `GenerateXferProgramPSMT4`, one invocation, with the eight-nibble
   * stream read: the nibble selected by the parity of the pixel index.
   */
  method XferPSMT4(mem: array2<bv32>, params: ShaderParams, swizzle: Swizzle, data: seq<bv32>, pixelIndex: U32)
    requires IsMemoryImage(mem) && params.rrw > 0 && pixelIndex / 8 < |data|
    modifies mem
    ensures var address := XferAddress(PageT4, params, swizzle, pixelIndex);
            var nibIndex := (pixelIndex % 2) as bv32;
            OthersUnchanged(mem, Coords(WordAddress(address))) &&
            NibbleStored(mem, address, nibIndex, XferStreamRead4(data, pixelIndex))
  {
    var pixel := XferStreamRead4(data, pixelIndex);
    var address := XferAddress(PageT4, params, swizzle, pixelIndex);
    Write4(mem, address, (pixelIndex % 2) as bv32, pixel);
  }

  /** `GenerateXferProgramPSMT8H`, one invocation: the top byte of the linear CT32 texel. */
  method XferPSMT8H(mem: array2<bv32>, params: ShaderParams, data: seq<bv32>, pixelIndex: U32)
    requires IsMemoryImage(mem) && params.rrw > 0 && pixelIndex / 4 < |data|
    modifies mem
    ensures var address := XferTopByteAddress(params, pixelIndex);
            OthersUnchanged(mem, Coords(WordAddress(address))) &&
            ByteStored(mem, address, XferStreamRead8(data, pixelIndex))
  {
    var pixel := XferStreamRead8(data, pixelIndex);
    var address := XferTopByteAddress(params, pixelIndex);
    Write8(mem, address, pixel);
  }

  /**
   * `GenerateXferProgramPSMT4HL` (`nibIndex` 0) and `PSMT4HH` (`nibIndex`
   * 1), one invocation: a nibble of the top byte of the linear CT32 texel.
   */
  method XferPSMT4H(mem: array2<bv32>, params: ShaderParams, data: seq<bv32>, pixelIndex: U32, nibIndex: bv32)
    requires IsMemoryImage(mem) && params.rrw > 0 && pixelIndex / 8 < |data| && nibIndex < 2
    modifies mem
    ensures var address := XferTopByteAddress(params, pixelIndex);
            OthersUnchanged(mem, Coords(WordAddress(address))) &&
            NibbleStored(mem, address, nibIndex, XferStreamRead4(data, pixelIndex))
  {
    var pixel := XferStreamRead4(data, pixelIndex);
    var address := XferTopByteAddress(params, pixelIndex);
    Write4(mem, address, nibIndex, pixel);
  }
}
