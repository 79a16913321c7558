/**
 * Register-level framing of the ADIS16000 driver: the words regWrite packs and
 * the bytes it clocks out, and the value regRead rebuilds from two bytes.
 *
 * C's uint8_t, uint16_t and int16_t are the subset types Byte, Word and Int16.
 * The C masks and ORs are Bits.And and Bits.Or; a shift left by 8 is a
 * multiplication by 0x100 and a shift right by 8 a division by 0x100.
 * Conversions to the narrow C types are written out as ToByte and ToInt16.
 */
module Frame {
  import opened Bits

  type Byte = x: int | 0 <= x < 0x100
  type Word = x: int | 0 <= x < 0x10000
  type Int16 = x: int | -0x8000 <= x < 0x8000

  /** A conversion to uint8_t: C reduces modulo 2^8. */
  function ToByte(x: nat): (b: Byte)
  {
    x % 0x100
  }

  /** A conversion to int16_t: modulo 2^16 into the signed range (implementation-defined before C++20, modular in practice). */
  function ToInt16(x: nat): (v: Int16)
  {
    var w := x % 0x10000;
    if w < 0x8000 then w else w - 0x10000
  }

  /** The 16-bit two's-complement pattern of an int16_t. */
  function Pattern(v: Int16): (w: Word)
  {
    if v < 0 then v + 0x10000 else v
  }

  // ---------------------------------------------------------------------------
  // regWrite (lib/ADIS16000.cpp:123-144)
  // ---------------------------------------------------------------------------

  /** The address byte of both words, `(regAddr & 0x7F) | 0x80`. */
  function WriteAddress(regAddr: Byte): (a: nat)
  {
    Or(And(regAddr, 0x7F), 0x80)
  }

  /** `addr`, the address byte shifted into the upper half of a word. */
  function AddrField(regAddr: Byte): (addr: nat)
  {
    WriteAddress(regAddr) * 0x100
  }

  /** `lowWord = addr | (regData & 0xFF)`. */
  function LowWord(regAddr: Byte, regData: Word): (lowWord: nat)
  {
    Or(AddrField(regAddr), And(regData, 0xFF))
  }

  /** `highWord = (addr | 0x100) | ((regData >> 8) & 0xFF)`. */
  function HighWord(regAddr: Byte, regData: Word): (highWord: nat)
  {
    Or(Or(AddrField(regAddr), 0x100), And(regData / 0x100, 0xFF))
  }

  /** The two bytes regWrite puts on the bus, in order: `(uint8_t)lowWord` then `(uint8_t)highWord`. */
  function WireBytes(regAddr: Byte, regData: Word): (bytes: seq<Byte>)
  {
    [ToByte(LowWord(regAddr, regData)), ToByte(HighWord(regAddr, regData))]
  }

  /** The write flag (bit 7) is always set and only the seven low bits of the address survive. */
  lemma WriteAddressLayout(regAddr: Byte)
    ensures WriteAddress(regAddr) == 0x80 + regAddr % 0x80
    ensures WriteAddress(regAddr) / 0x80 == 1
  {
    Mask7(regAddr);
    SetBit7(regAddr % 0x80);
  }

  /**
   * lowWord fits in its uint16_t; its upper byte is the address byte and its
   * lower byte is the low byte of the datum.
   */
  lemma LowWordLayout(regAddr: Byte, regData: Word)
    ensures LowWord(regAddr, regData) < 0x10000
    ensures LowWord(regAddr, regData) / 0x100 == 0x80 + regAddr % 0x80
    ensures LowWord(regAddr, regData) % 0x100 == regData % 0x100
  {
    WriteAddressLayout(regAddr);
    Mask8(regData);
    JoinBytes(WriteAddress(regAddr), regData % 0x100);
  }

  /** The value of highWord: the address byte with bit 0 set, above the high byte of the datum. */
  lemma HighWordValue(regAddr: Byte, regData: Word)
    ensures Or(WriteAddress(regAddr), 1) < 0x100
    ensures HighWord(regAddr, regData) == Or(WriteAddress(regAddr), 1) * 0x100 + regData / 0x100
  {
    var a := WriteAddress(regAddr);
    var hi := regData / 0x100;
    var flagged := Or(a, 1);
    WriteAddressLayout(regAddr);
    OrOne(a);
    FlaggedIsByte(a, flagged);
    assert Or(AddrField(regAddr), 0x100) == flagged * 0x100 by {
      SetBit8(a);
    }
    HighByte(regData);
    assert And(hi, 0xFF) == hi by {
      MaskByte(hi);
    }
    JoinBytes(flagged, hi);
  }

  /** Setting bit 0 of a byte keeps it a byte. */
  lemma FlaggedIsByte(a: nat, flagged: nat)
    requires a < 0x100 && flagged == if a % 2 == 0 then a + 1 else a
    ensures flagged < 0x100
  {
  }

  /** The high byte of a 16-bit word is a byte. */
  lemma HighByte(w: Word)
    ensures w / 0x100 < 0x100
  {
  }

  /**
   * highWord fits in its uint16_t; its upper byte is the upper byte of lowWord
   * with bit 0 set and its lower byte is the high byte of the datum.
   */
  lemma HighWordLayout(regAddr: Byte, regData: Word)
    ensures HighWord(regAddr, regData) < 0x10000
    ensures HighWord(regAddr, regData) / 0x100 == Or(LowWord(regAddr, regData) / 0x100, 1)
    ensures HighWord(regAddr, regData) % 0x100 == regData / 0x100
  {
    HighWordValue(regAddr, regData);
    LowWordLayout(regAddr, regData);
    WriteAddressLayout(regAddr);
  }

  /**
   * Setting bit 0 is "address + 1" exactly when the masked address is even;
   * for an odd address the high word names the same address as the low word.
   */
  lemma HighAddressIsSuccessorIffEven(regAddr: Byte, regData: Word)
    ensures HighWord(regAddr, regData) / 0x100 == LowWord(regAddr, regData) / 0x100 + 1
            <==> (regAddr % 0x80) % 2 == 0
    ensures (regAddr % 0x80) % 2 == 1 ==>
              HighWord(regAddr, regData) / 0x100 == LowWord(regAddr, regData) / 0x100
  {
    var lo, hi := LowWord(regAddr, regData) / 0x100, HighWord(regAddr, regData) / 0x100;
    LowWordLayout(regAddr, regData);
    HighWordLayout(regAddr, regData);
    OrOne(lo);
    ParityStep(regAddr % 0x80, lo, hi);
  }

  /** Setting bit 0 of `0x80 + r` adds one exactly when r is even. */
  lemma ParityStep(r: nat, lo: nat, hi: nat)
    requires lo == 0x80 + r && hi == if lo % 2 == 0 then lo + 1 else lo
    ensures hi == lo + 1 <==> r % 2 == 0
    ensures r % 2 == 1 ==> hi == lo
  {
  }

  /**
   * The bytes on the bus are the datum, low byte first, and nothing of the
   * register address: a write of one datum to any register looks the same.
   */
  lemma WireBytesAreDatum(regAddr: Byte, regData: Word)
    ensures WireBytes(regAddr, regData) == [regData % 0x100, regData / 0x100]
    ensures WireBytes(regAddr, regData)[0] as int + 0x100 * WireBytes(regAddr, regData)[1] as int == regData
    ensures forall other: Byte :: WireBytes(other, regData) == WireBytes(regAddr, regData)
  {
    forall other: Byte ensures WireBytes(other, regData) == [regData % 0x100, regData / 0x100] {
      LowWordLayout(other, regData);
      HighWordLayout(other, regData);
    }
  }

  // ---------------------------------------------------------------------------
  // regRead (lib/ADIS16000.cpp:84-114)
  // ---------------------------------------------------------------------------

  /** `_dataOut = (_msbData << 8) | (_lsbData & 0xFF)`, stored in an int16_t. */
  function Decode(msb: Byte, lsb: Byte): (dataOut: Int16)
  {
    ToInt16(Or(msb * 0x100, And(lsb, 0xFF)))
  }

  /** The two bytes, most significant first, in which the device sends an int16_t. */
  function Split(v: Int16): (bytes: (Byte, Byte))
  {
    (Pattern(v) / 0x100, Pattern(v) % 0x100)
  }

  /** Reading a 16-bit pattern as an int16_t keeps the pattern; the top bit is the sign. */
  lemma ToInt16Pattern(w: Word)
    ensures Pattern(ToInt16(w)) == w
    ensures ToInt16(w) < 0 <==> w >= 0x8000
  {
  }

  /** The MSB above the LSB is a 16-bit word whose top bit is the top bit of the MSB. */
  lemma JoinedWord(msb: Byte, lsb: Byte)
    ensures msb * 0x100 + lsb < 0x10000
    ensures msb * 0x100 + lsb >= 0x8000 <==> msb >= 0x80
  {
  }

  /** The 16-bit two's-complement pattern of the value read is the MSB above the LSB. */
  lemma DecodePattern(msb: Byte, lsb: Byte)
    ensures Pattern(Decode(msb, lsb)) == msb * 0x100 + lsb
    ensures Decode(msb, lsb) < 0 <==> msb >= 0x80
  {
    JoinedWord(msb, lsb);
    var w: Word := msb * 0x100 + lsb;
    assert And(lsb, 0xFF) == lsb by {
      MaskByte(lsb);
    }
    assert Or(msb * 0x100, lsb) == w by {
      JoinBytes(msb, lsb);
    }
    ToInt16Pattern(w);
  }

  /** Splitting a value and decoding its bytes gives the value back. */
  lemma DecodeSplit(v: Int16)
    ensures Decode(Split(v).0, Split(v).1) == v
  {
    var (msb, lsb) := Split(v);
    DecodePattern(msb, lsb);
  }

  /** Decoding two bytes and splitting the result gives the bytes back. */
  lemma SplitDecode(msb: Byte, lsb: Byte)
    ensures Split(Decode(msb, lsb)) == (msb, lsb)
  {
    DecodePattern(msb, lsb);
  }
}
