/** Byte-level encodings of the MS5611 bus: a calibration (PROM) word arrives as two
    bytes and a conversion (ADC) result as three, both most significant byte first. */
module Bytes {

  newtype uint8 = x: int | 0 <= x < 0x100
  newtype uint16 = x: int | 0 <= x < 0x1_0000

  /** 2^24: every conversion result is below it. */
  const AdcLimit := 0x100_0000

  /** The three bytes of one conversion result, in the order the device sends them. */
  datatype AdcBytes = AdcBytes(msb: uint8, mid: uint8, lsb: uint8)

  /** A calibration word assembled as `first << 8 | second`: the first byte on the bus is
      the high byte. */
  function Word(first: uint8, second: uint8): (w: uint16)
    ensures w as int / 0x100 == first as int
    ensures w as int % 0x100 == second as int
  {
    (first as int * 0x100 + second as int) as uint16
  }

  /** The two bytes the device sends for the word `w`, high byte first. */
  function WordBytes(w: uint16): (uint8, uint8)
  {
    ((w as int / 0x100) as uint8, (w as int % 0x100) as uint8)
  }

  /** A conversion result assembled as `msb << 16 | mid << 8 | lsb`. */
  function Pack24(b: AdcBytes): (v: int)
    ensures 0 <= v < AdcLimit
    ensures v / 0x1_0000 == b.msb as int
    ensures v / 0x100 % 0x100 == b.mid as int
    ensures v % 0x100 == b.lsb as int
  {
    b.msb as int * 0x1_0000 + b.mid as int * 0x100 + b.lsb as int
  }

  /** The three bytes the device sends for a 24-bit result `v`. */
  function Unpack24(v: int): AdcBytes
    requires 0 <= v < AdcLimit
  {
    AdcBytes((v / 0x1_0000) as uint8, (v / 0x100 % 0x100) as uint8, (v % 0x100) as uint8)
  }

  /** Splitting a word into its bus bytes and packing them again gives the word back. */
  lemma WordRoundTrip(w: uint16)
    ensures Word(WordBytes(w).0, WordBytes(w).1) == w
  {
  }

  /** Packing two bytes and splitting the word gives the bytes back. */
  lemma WordBytesRoundTrip(first: uint8, second: uint8)
    ensures WordBytes(Word(first, second)) == (first, second)
  {
  }

  /** Packing three bytes and splitting the result gives the bytes back, and every
      24-bit value is the packing of its own bytes. */
  lemma Pack24RoundTrip(b: AdcBytes, v: int)
    requires 0 <= v < AdcLimit
    ensures Unpack24(Pack24(b)) == b
    ensures Pack24(Unpack24(v)) == v
  {
  }
}
