/** The five-byte block the driver reads from the touch-status register onwards, and the
    decoding of a coordinate from its high/low register pair. */
module Registers {
  import opened Machine

  /** Byte 0 is the number of detected touch points; bytes 1-2 hold X and bytes 3-4 hold Y,
      each as a high register (upper bits of the coordinate) followed by a low register. */
  datatype TouchRegs = TouchRegs(count: bv8, xHigh: bv8, xLow: bv8, yHigh: bv8, yLow: bv8)

  /** The masks applied to the high and to the low register. The driver ands them with a
      `uint8_t`, so only their low eight bits can matter. */
  datatype Masks = Masks(msb: bv8, lsb: bv8)

  /** Masks that select a 12-bit coordinate: the low nibble of the high register and the
      whole low register. */
  const TwelveBitMasks := Masks(0x0F, 0xFF)

  /** The 16-bit word `((high & MSB) << 8) | (low & LSB)`. */
  function Word(m: Masks, high: bv8, low: bv8): bv16
  {
    (((high & m.msb) as bv16) << 8) | ((low & m.lsb) as bv16)
  }

  /** Placing one byte above another in a word is the same as `hi * 256 + lo`. */
  lemma ShiftOrIsSum(hi: bv8, lo: bv8)
    ensures (((hi as bv16) << 8) | (lo as bv16)) as int == hi as int * 0x100 + lo as int
  {
    var w := ((hi as bv16) << 8) | (lo as bv16);
    assert w == (hi as bv16) * 0x100 + (lo as bv16);
  }

  /** The driver's expression `((high & MSB) << 8) | (low & LSB)`, evaluated in `int` and
      stored into an `int16_t` field: the masked high register times 256 plus the masked low
      register, wrapped. When the high mask leaves bit 7 clear the value always fits and is
      stored unchanged. */
  function DecodeCoord(m: Masks, high: bv8, low: bv8): (c: Int16)
    ensures c == ToInt16((high & m.msb) as int * 0x100 + (low & m.lsb) as int)
    ensures (m.msb & 0x80) == 0 ==> c == (high & m.msb) as int * 0x100 + (low & m.lsb) as int
  {
    WordIsSum(m, high, low);
    MaskedHighBelow(high, m.msb);
    ToInt16(Word(m, high, low) as int)
  }

  /** The 16-bit word read as an integer is the masked high byte times 256 plus the
      masked low byte: the arithmetic form `DecodeCoord` states. */
  lemma WordIsSum(m: Masks, high: bv8, low: bv8)
    ensures Word(m, high, low) as int == (high & m.msb) as int * 0x100 + (low & m.lsb) as int
  {
    ShiftOrIsSum(high & m.msb, low & m.lsb);
  }

  /** A mask without bit 7 keeps the high register below 0x80. */
  lemma MaskedHighBelow(high: bv8, msb: bv8)
    ensures (msb & 0x80) == 0 ==> (high & msb) as int < 0x80
  {
  }

  /** The register pair a 12-bit coordinate is reported in: upper four bits in the high
      register, lower eight bits in the low register. */
  function EncodeCoord(c: bv16): (hl: (bv8, bv8))
    requires c < 0x1000
    ensures ((hl.0 as bv16) << 8) | (hl.1 as bv16) == c
    ensures hl.0 & 0xF0 == 0
  {
    ((c >> 8) as bv8, (c & 0xFF) as bv8)
  }

  /** Decoding with 12-bit masks recovers every coordinate the chip can report. */
  lemma DecodeEncode(c: bv16)
    requires c < 0x1000
    ensures DecodeCoord(TwelveBitMasks, EncodeCoord(c).0, EncodeCoord(c).1) == c as int
  {
    WordOfEncoded(c);
    SmallWord(c);
  }

  /** With 12-bit masks every register pair decodes into 0..0xFFF: the 16-bit word itself. */
  lemma DecodeTwelveBit(high: bv8, low: bv8)
    ensures Word(TwelveBitMasks, high, low) < 0x1000
    ensures DecodeCoord(TwelveBitMasks, high, low) == Word(TwelveBitMasks, high, low) as int
    ensures 0 <= DecodeCoord(TwelveBitMasks, high, low) < 0x1000
  {
    TwelveBitWord(high, low);
    SmallWord(Word(TwelveBitMasks, high, low));
  }

  /** Only the masked bits count: a decoded 12-bit word re-encodes to the register pair
      with the high register's upper nibble cleared. */
  lemma EncodeDecode(high: bv8, low: bv8)
    ensures Word(TwelveBitMasks, high, low) < 0x1000
    ensures EncodeCoord(Word(TwelveBitMasks, high, low)) == (high & 0x0F, low)
  {
    TwelveBitWord(high, low);
  }

  /** Re-joining an encoded pair with 12-bit masks gives back the word: the bit-level
      half of `DecodeEncode`. */
  lemma WordOfEncoded(c: bv16)
    requires c < 0x1000
    ensures Word(TwelveBitMasks, EncodeCoord(c).0, EncodeCoord(c).1) == c
  {
  }

  /** With 12-bit masks the word is below 0x1000 and splits back into the high register's
      low nibble and the low register: the bit-level half of `EncodeDecode`. */
  lemma TwelveBitWord(high: bv8, low: bv8)
    ensures Word(TwelveBitMasks, high, low) < 0x1000
    ensures var w := Word(TwelveBitMasks, high, low); ((w >> 8) as bv8, (w & 0xFF) as bv8) == (high & 0x0F, low)
  {
  }

  /** Carries the bit-vector bound `c < 0x1000` over to the integer value of `c`, so the
      int16 store leaves a 12-bit coordinate unchanged. */
  lemma SmallWord(c: bv16)
    requires c < 0x1000
    ensures c as int < 0x1000
  {
  }

  /** Example: high register 0x03 and low register 0xFF give 0x3FF. */
  lemma DecodeExample()
    ensures DecodeCoord(TwelveBitMasks, 0x03, 0xFF) == 0x3FF
  {
  }

  /** The X coordinate of a register block. */
  function RawX(m: Masks, r: TouchRegs): Int16
  {
    DecodeCoord(m, r.xHigh, r.xLow)
  }

  /** The Y coordinate of a register block: the same decoding on bytes 3 and 4. */
  function RawY(m: Masks, r: TouchRegs): Int16
  {
    DecodeCoord(m, r.yHigh, r.yLow)
  }
}
