/**
 * The GS local memory as the shaders see it (`GenerateMemoryAccessSection`):
 * a 1024 x 1024 image of 32-bit words, addressed by byte, with 16-, 8- and
 * 4-bit fields read by shifting and masking and written by an atomic AND
 * that clears the field followed by an atomic OR that sets it.
 *
 * Following the OpenGL rules for image access, a load outside the image
 * returns zero and a store outside it has no effect.
 */
module GlslMemory {
  import opened Arith

  /** `c_memorySize`: the image is this many words wide and high. */
  const MEMORY_SIZE: nat := 1024

  /** Number of words the image holds. */
  const MEMORY_WORDS: nat := MEMORY_SIZE * MEMORY_SIZE

  predicate IsMemoryImage(mem: array2<bv32>)
  {
    mem.Length0 == MEMORY_SIZE && mem.Length1 == MEMORY_SIZE
  }

  function WordAddress(address: bv32): nat
  {
    (address / 4) as nat
  }

  /** Image coordinates (column, row) of a word. */
  function Coords(w: nat): (c: (nat, nat))
    ensures c.0 < MEMORY_SIZE
    ensures c.1 < MEMORY_SIZE <==> w < MEMORY_WORDS
  {
    (w % MEMORY_SIZE, w / MEMORY_SIZE)
  }

  /** Distinct words occupy distinct texels. */
  lemma CoordsInjective(w1: nat, w2: nat)
    requires Coords(w1) == Coords(w2)
    ensures w1 == w2
  {
    assert w1 == w1 % MEMORY_SIZE + MEMORY_SIZE * (w1 / MEMORY_SIZE);
    assert w2 == w2 % MEMORY_SIZE + MEMORY_SIZE * (w2 / MEMORY_SIZE);
  }

  // ---------------------------------------------------------------
  // Fields of a word
  // ---------------------------------------------------------------

  /** A field mask with a shift that keeps it inside the word. */
  predicate FieldPlacement(shift: bv32, mask: bv32)
  {
    (mask == 0xFFFF_FFFF && shift == 0) ||
    (mask == 0xFFFF && (shift == 0 || shift == 16)) ||
    (mask == 0xFF && (shift == 0 || shift == 8 || shift == 16 || shift == 24)) ||
    (mask == 0xF && (shift == 0 || shift == 4 || shift == 8 || shift == 12 ||
                     shift == 16 || shift == 20 || shift == 24 || shift == 28))
  }

  /** The field read back: shift down, then mask. */
  function Field(word: bv32, shift: bv32, mask: bv32): bv32
    requires shift < 32
  {
    (word >> shift) & mask
  }

  /** The bits of a word outside the field: the mask the writes AND with. */
  function KeepMask(shift: bv32, mask: bv32): bv32
    requires shift < 32
  {
    0xFFFF_FFFF ^ (mask << shift)
  }

  /** The word after the AND that clears the field and the OR that sets it. */
  function Merge(word: bv32, shift: bv32, mask: bv32, value: bv32): bv32
    requires shift < 32
  {
    (word & KeepMask(shift, mask)) | (value << shift)
  }

  /**
   * A value that fits the field reads back from it, and every bit
   * outside the field keeps its old value.
   */
  lemma MergeThenField(word: bv32, shift: bv32, mask: bv32, value: bv32)
    requires FieldPlacement(shift, mask) && value & mask == value
    ensures Field(Merge(word, shift, mask, value), shift, mask) == value
    ensures Merge(word, shift, mask, value) & KeepMask(shift, mask) == word & KeepMask(shift, mask)
  {
    if shift == 0 {
    } else if shift == 4 {
    } else if shift == 8 {
    } else if shift == 12 {
    } else if shift == 16 {
    } else if shift == 20 {
    } else if shift == 24 {
    } else {
    }
  }

  /**
   * Storing one halfword of a word leaves the other halfword as it was.
   * (Each case names the literal shifts so the solver evaluates them.)
   */
  lemma DisjointHalves(word: bv32, shift: bv32, other: bv32, value: bv32)
    requires FieldPlacement(shift, 0xFFFF) && other == shift ^ 16
    ensures Field(Merge(word, shift, 0xFFFF, value & 0xFFFF), other, 0xFFFF) == Field(word, other, 0xFFFF)
  {
    if shift == 0 {
      assert Merge(word, shift, 0xFFFF, value & 0xFFFF) == Merge(word, 0, 0xFFFF, value & 0xFFFF);
      assert Field(Merge(word, 0, 0xFFFF, value & 0xFFFF), other, 0xFFFF) == Field(Merge(word, 0, 0xFFFF, value & 0xFFFF), 16, 0xFFFF);
      assert Field(word, other, 0xFFFF) == Field(word, 16, 0xFFFF);
    } else {
      assert Merge(word, shift, 0xFFFF, value & 0xFFFF) == Merge(word, 16, 0xFFFF, value & 0xFFFF);
      assert Field(Merge(word, 16, 0xFFFF, value & 0xFFFF), other, 0xFFFF) == Field(Merge(word, 16, 0xFFFF, value & 0xFFFF), 0, 0xFFFF);
      assert Field(word, other, 0xFFFF) == Field(word, 0, 0xFFFF);
    }
  }

  /** Storing one nibble of a byte leaves the other nibble of that byte as it was. */
  lemma SiblingNibbles(word: bv32, shift: bv32, other: bv32, value: bv32)
    requires FieldPlacement(shift, 0xF) && other == shift ^ 4
    ensures Field(Merge(word, shift, 0xF, value & 0xF), other, 0xF) == Field(word, other, 0xF)
  {
    if shift == 0 {
      assert Merge(word, shift, 0xF, value & 0xF) == Merge(word, 0, 0xF, value & 0xF);
      assert Field(Merge(word, 0, 0xF, value & 0xF), other, 0xF) == Field(Merge(word, 0, 0xF, value & 0xF), 4, 0xF);
      assert Field(word, other, 0xF) == Field(word, 4, 0xF);
    } else if shift == 4 {
      assert Merge(word, shift, 0xF, value & 0xF) == Merge(word, 4, 0xF, value & 0xF);
      assert Field(Merge(word, 4, 0xF, value & 0xF), other, 0xF) == Field(Merge(word, 4, 0xF, value & 0xF), 0, 0xF);
      assert Field(word, other, 0xF) == Field(word, 0, 0xF);
    } else if shift == 8 {
      assert Merge(word, shift, 0xF, value & 0xF) == Merge(word, 8, 0xF, value & 0xF);
      assert Field(Merge(word, 8, 0xF, value & 0xF), other, 0xF) == Field(Merge(word, 8, 0xF, value & 0xF), 12, 0xF);
      assert Field(word, other, 0xF) == Field(word, 12, 0xF);
    } else if shift == 12 {
      assert Merge(word, shift, 0xF, value & 0xF) == Merge(word, 12, 0xF, value & 0xF);
      assert Field(Merge(word, 12, 0xF, value & 0xF), other, 0xF) == Field(Merge(word, 12, 0xF, value & 0xF), 8, 0xF);
      assert Field(word, other, 0xF) == Field(word, 8, 0xF);
    } else if shift == 16 {
      assert Merge(word, shift, 0xF, value & 0xF) == Merge(word, 16, 0xF, value & 0xF);
      assert Field(Merge(word, 16, 0xF, value & 0xF), other, 0xF) == Field(Merge(word, 16, 0xF, value & 0xF), 20, 0xF);
      assert Field(word, other, 0xF) == Field(word, 20, 0xF);
    } else if shift == 20 {
      assert Merge(word, shift, 0xF, value & 0xF) == Merge(word, 20, 0xF, value & 0xF);
      assert Field(Merge(word, 20, 0xF, value & 0xF), other, 0xF) == Field(Merge(word, 20, 0xF, value & 0xF), 16, 0xF);
      assert Field(word, other, 0xF) == Field(word, 16, 0xF);
    } else if shift == 24 {
      assert Merge(word, shift, 0xF, value & 0xF) == Merge(word, 24, 0xF, value & 0xF);
      assert Field(Merge(word, 24, 0xF, value & 0xF), other, 0xF) == Field(Merge(word, 24, 0xF, value & 0xF), 28, 0xF);
      assert Field(word, other, 0xF) == Field(word, 28, 0xF);
    } else {
      assert Merge(word, shift, 0xF, value & 0xF) == Merge(word, 28, 0xF, value & 0xF);
      assert Field(Merge(word, 28, 0xF, value & 0xF), other, 0xF) == Field(Merge(word, 28, 0xF, value & 0xF), 24, 0xF);
      assert Field(word, other, 0xF) == Field(word, 24, 0xF);
    }
  }

  // ---------------------------------------------------------------
  // Shift amounts
  // ---------------------------------------------------------------

  function Shift16(address: bv32): (s: bv32)
    ensures FieldPlacement(s, 0xFFFF)
  {
    (address & 2) * 8
  }

  function Shift8(address: bv32): (s: bv32)
    ensures FieldPlacement(s, 0xFF)
  {
    (address & 3) * 8
  }

  /** Shift of nibble `nibIndex` (0 low, 1 high) of the addressed byte. */
  function Shift4(address: bv32, nibIndex: bv32): (s: bv32)
    requires nibIndex < 2
    ensures FieldPlacement(s, 0xF)
    ensures s / 8 == Shift8(address) / 8 && s % 8 == nibIndex * 4
  {
    ((address & 3) * 2 + nibIndex) * 4
  }

  // ---------------------------------------------------------------
  // Reads
  // ---------------------------------------------------------------

  /** `imageLoad` of a word; zero outside the image. */
  function LoadWord(mem: array2<bv32>, w: nat): bv32
    requires IsMemoryImage(mem)
    reads mem
  {
    var c := Coords(w);
    if c.1 < MEMORY_SIZE then mem[c.0, c.1] else 0
  }

  function Read32(mem: array2<bv32>, address: bv32): bv32
    requires IsMemoryImage(mem)
    reads mem
  {
    LoadWord(mem, WordAddress(address))
  }

  function Read16(mem: array2<bv32>, address: bv32): (r: bv32)
    requires IsMemoryImage(mem)
    reads mem
    ensures r <= 0xFFFF
  {
    Field(LoadWord(mem, WordAddress(address)), Shift16(address), 0xFFFF)
  }

  function Read8(mem: array2<bv32>, address: bv32): (r: bv32)
    requires IsMemoryImage(mem)
    reads mem
    ensures r <= 0xFF
  {
    Field(LoadWord(mem, WordAddress(address)), Shift8(address), 0xFF)
  }

  function Read4(mem: array2<bv32>, address: bv32, nibIndex: bv32): (r: bv32)
    requires IsMemoryImage(mem) && nibIndex < 2
    reads mem
    ensures r <= 0xF
  {
    Field(LoadWord(mem, WordAddress(address)), Shift4(address, nibIndex), 0xF)
  }

  // ---------------------------------------------------------------
  // Writes
  // ---------------------------------------------------------------

  /** Every texel other than the one at `c` is unchanged. */
  twostate predicate OthersUnchanged(mem: array2<bv32>, c: (nat, nat))
    reads mem
  {
    forall x, y :: 0 <= x < mem.Length0 && 0 <= y < mem.Length1 && (x, y) != c ==>
      mem[x, y] == old(mem[x, y])
  }

  /**
   * A halfword store took effect: if the word is in the image, the
   * halfword reads back and the other halfword of the word is kept.
   */
  twostate predicate HalfStored(mem: array2<bv32>, address: bv32, value: bv32)
    requires IsMemoryImage(mem)
    reads mem
  {
    WordAddress(address) < MEMORY_WORDS ==>
      Read16(mem, address) == value && Read16(mem, address ^ 2) == old(Read16(mem, address ^ 2))
  }

  /** A byte store took effect: the byte reads back and the bits outside it are kept. */
  twostate predicate ByteStored(mem: array2<bv32>, address: bv32, value: bv32)
    requires IsMemoryImage(mem)
    reads mem
  {
    WordAddress(address) < MEMORY_WORDS ==>
      Read8(mem, address) == value &&
      Read32(mem, address) & KeepMask(Shift8(address), 0xFF) == old(Read32(mem, address)) & KeepMask(Shift8(address), 0xFF)
  }

  /** A nibble store took effect: the nibble reads back and its sibling in the byte is kept. */
  twostate predicate NibbleStored(mem: array2<bv32>, address: bv32, nibIndex: bv32, value: bv32)
    requires IsMemoryImage(mem) && nibIndex < 2
    reads mem
  {
    WordAddress(address) < MEMORY_WORDS ==>
      Read4(mem, address, nibIndex) == value &&
      Read4(mem, address, 1 - nibIndex) == old(Read4(mem, address, 1 - nibIndex))
  }

  /** `Memory_Write32`: stores the whole word. */
  method Write32(mem: array2<bv32>, address: bv32, value: bv32)
    requires IsMemoryImage(mem)
    modifies mem
    ensures OthersUnchanged(mem, Coords(WordAddress(address)))
    ensures WordAddress(address) < MEMORY_WORDS ==> Read32(mem, address) == value
    ensures WordAddress(address) >= MEMORY_WORDS ==> unchanged(mem)
  {
    var c := Coords(WordAddress(address));
    if c.1 < MEMORY_SIZE {
      mem[c.0, c.1] := value;
    }
  }

  /**
   * A store through the AND/OR pair into the field `mask << shift` of
   * word `w`: the other texels and the bits outside the field are kept.
   */
  method WriteField(mem: array2<bv32>, w: nat, shift: bv32, mask: bv32, value: bv32)
    requires IsMemoryImage(mem) && shift < 32
    modifies mem
    ensures OthersUnchanged(mem, Coords(w))
    ensures w < MEMORY_WORDS ==> LoadWord(mem, w) == Merge(old(LoadWord(mem, w)), shift, mask, value)
    ensures w >= MEMORY_WORDS ==> unchanged(mem)
  {
    var c := Coords(w);
    if c.1 < MEMORY_SIZE {
      mem[c.0, c.1] := mem[c.0, c.1] & (0xFFFF_FFFF ^ (mask << shift));
      mem[c.0, c.1] := mem[c.0, c.1] | (value << shift);
    }
  }

  /** `Memory_Write16`: the halfword selected by bit 1 of the address. */
  method Write16(mem: array2<bv32>, address: bv32, value: bv32)
    requires IsMemoryImage(mem)
    modifies mem
    ensures OthersUnchanged(mem, Coords(WordAddress(address)))
    ensures WordAddress(address) < MEMORY_WORDS ==>
              Read32(mem, address) == Merge(old(Read32(mem, address)), Shift16(address), 0xFFFF, value)
    ensures value <= 0xFFFF ==> HalfStored(mem, address, value)
  {
    ghost var before := Read32(mem, address);
    SiblingAddress(address, 2);
    if value <= 0xFFFF {
      Store16(before, address, value);
    }
    WriteField(mem, WordAddress(address), Shift16(address), 0xFFFF, value);
  }

  /** The word-level effect of `Memory_Write16` on both halfwords. */
  lemma Store16(word: bv32, address: bv32, value: bv32)
    requires value <= 0xFFFF
    ensures Field(Merge(word, Shift16(address), 0xFFFF, value), Shift16(address), 0xFFFF) == value
    ensures Field(Merge(word, Shift16(address), 0xFFFF, value), Shift16(address ^ 2), 0xFFFF) ==
            Field(word, Shift16(address ^ 2), 0xFFFF)
  {
    assert value & 0xFFFF == value;
    if address & 2 == 0 {
      assert Shift16(address) == 0;
      assert Shift16(address ^ 2) == 16;
      MergeThenField(word, 0, 0xFFFF, value);
      DisjointHalves(word, 0, 16, value);
    } else {
      assert Shift16(address) == 16;
      assert Shift16(address ^ 2) == 0;
      MergeThenField(word, 16, 0xFFFF, value);
      DisjointHalves(word, 16, 0, value);
    }
  }

  /** `Memory_Write8`: the byte selected by the low two address bits. */
  method Write8(mem: array2<bv32>, address: bv32, value: bv32)
    requires IsMemoryImage(mem)
    modifies mem
    ensures OthersUnchanged(mem, Coords(WordAddress(address)))
    ensures WordAddress(address) < MEMORY_WORDS ==>
              Read32(mem, address) == Merge(old(Read32(mem, address)), Shift8(address), 0xFF, value)
    ensures value <= 0xFF ==> ByteStored(mem, address, value)
  {
    ghost var before := Read32(mem, address);
    if value <= 0xFF {
      Store8(before, address, value);
    }
    WriteField(mem, WordAddress(address), Shift8(address), 0xFF, value);
  }

  /** The word-level effect of `Memory_Write8`. */
  lemma Store8(word: bv32, address: bv32, value: bv32)
    requires value <= 0xFF
    ensures Field(Merge(word, Shift8(address), 0xFF, value), Shift8(address), 0xFF) == value
    ensures Merge(word, Shift8(address), 0xFF, value) & KeepMask(Shift8(address), 0xFF) == word & KeepMask(Shift8(address), 0xFF)
  {
    assert value & 0xFF == value;
    MergeThenField(word, Shift8(address), 0xFF, value);
  }

  /** `Memory_Write4`: nibble `nibIndex` of the addressed byte. */
  method Write4(mem: array2<bv32>, address: bv32, nibIndex: bv32, value: bv32)
    requires IsMemoryImage(mem) && nibIndex < 2
    modifies mem
    ensures OthersUnchanged(mem, Coords(WordAddress(address)))
    ensures WordAddress(address) < MEMORY_WORDS ==>
              Read32(mem, address) == Merge(old(Read32(mem, address)), Shift4(address, nibIndex), 0xF, value)
    ensures value <= 0xF ==> NibbleStored(mem, address, nibIndex, value)
  {
    ghost var before := Read32(mem, address);
    if value <= 0xF {
      Store4(before, address, nibIndex, value);
    }
    WriteField(mem, WordAddress(address), Shift4(address, nibIndex), 0xF, value);
  }

  /** The word-level effect of `Memory_Write4` on both nibbles of the byte. */
  lemma Store4(word: bv32, address: bv32, nibIndex: bv32, value: bv32)
    requires nibIndex < 2 && value <= 0xF
    ensures Field(Merge(word, Shift4(address, nibIndex), 0xF, value), Shift4(address, nibIndex), 0xF) == value
    ensures Field(Merge(word, Shift4(address, nibIndex), 0xF, value), Shift4(address, 1 - nibIndex), 0xF) ==
            Field(word, Shift4(address, 1 - nibIndex), 0xF)
  {
    var k := address & 3;
    assert k < 4;
    if nibIndex == 0 {
      Store4Nibble(word, address, nibIndex, value, k * 2);
    } else {
      Store4Nibble(word, address, nibIndex, value, k * 2 + 1);
    }
  }

  /** `Store4` for one nibble position `n` (counting nibbles from the low end). */
  lemma Store4Nibble(word: bv32, address: bv32, nibIndex: bv32, value: bv32, n: bv32)
    requires nibIndex < 2 && value <= 0xF && n < 8 && n == (address & 3) * 2 + nibIndex
    ensures Field(Merge(word, Shift4(address, nibIndex), 0xF, value), Shift4(address, nibIndex), 0xF) == value
    ensures Field(Merge(word, Shift4(address, nibIndex), 0xF, value), Shift4(address, 1 - nibIndex), 0xF) ==
            Field(word, Shift4(address, 1 - nibIndex), 0xF)
  {
    assert value & 0xF == value;
    assert Shift4(address, nibIndex) == n * 4;
    assert Shift4(address, 1 - nibIndex) == (n ^ 1) * 4;
    if n == 0 {
      MergeThenField(word, 0, 0xF, value);
      SiblingNibbles(word, 0, 4, value);
    } else if n == 1 {
      MergeThenField(word, 4, 0xF, value);
      SiblingNibbles(word, 4, 0, value);
    } else if n == 2 {
      MergeThenField(word, 8, 0xF, value);
      SiblingNibbles(word, 8, 12, value);
    } else if n == 3 {
      MergeThenField(word, 12, 0xF, value);
      SiblingNibbles(word, 12, 8, value);
    } else if n == 4 {
      MergeThenField(word, 16, 0xF, value);
      SiblingNibbles(word, 16, 20, value);
    } else if n == 5 {
      MergeThenField(word, 20, 0xF, value);
      SiblingNibbles(word, 20, 16, value);
    } else if n == 6 {
      MergeThenField(word, 24, 0xF, value);
      SiblingNibbles(word, 24, 28, value);
    } else {
      MergeThenField(word, 28, 0xF, value);
      SiblingNibbles(word, 28, 24, value);
    }
  }

  /** Flipping a bit below 4 stays within the same word. */
  lemma SiblingAddress(address: bv32, bit: bv32)
    requires bit == 1 || bit == 2
    ensures WordAddress(address ^ bit) == WordAddress(address)
  {
    assert (address ^ bit) / 4 == address / 4;
  }
}
