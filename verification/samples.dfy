/**
  Assembling a signed 16-bit axis sample from its two output registers.

  The driver has two ways to do it.  The discrete read fetches the high byte
  into an `int16_t`, shifts it left by 8 and ORs the low byte in.  The burst
  read fetches the low byte into a `uint16_t`, ORs the high byte shifted by 8
  on top and returns the result as `int16_t`.  Both are modelled on 16-bit
  patterns with the C operators, and both are proved equal to the reference
  value below: the two's-complement reading of `high * 256 + low`.
 */
module Samples {
  import opened Bytes

  /** The sample a (high, low) register pair holds, as a number. */
  function SampleValue(high: Byte, low: Byte): Int16
  {
    var u := high as int * 0x100 + low as int;
    if u < 0x8000 then u else u - 0x10000
  }

  /** The signed reading of the pattern `(high << 8) | low` is the sample. */
  lemma SignedJoin(high: Byte, low: Byte)
    ensures Signed16(Join(high, low)) == SampleValue(high, low)
    ensures Signed16(Join(high, low)) == Signed8(high) * 0x100 + low as int
  {
    var w := Join(high, low);
    assert HighOf(w) == high && LowOf(w) == low;
    assert high < 0x80 <==> high as int < 0x80;
  }

  /** The discrete read's arithmetic: `x = high; x <<= 8; x |= low;` on an
      `int16_t`.  The shift is taken modulo 2^16 (the wrap-around the target
      compiler gives, not undefined behaviour). */
  function AssembleDiscrete(high: Byte, low: Byte): (v: Int16)
    ensures v == SampleValue(high, low)
    ensures v == Signed8(high) * 0x100 + low as int
  {
    var x: Word := high as Word;
    var x := x << 8;
    var x := x | (low as Word);
    assert x == Join(high, low);
    SignedJoin(high, low);
    Signed16(x)
  }

  /** The burst read's arithmetic: `x = low; x |= (high << 8);` on a
      `uint16_t`, returned as `int16_t`. */
  function AssembleBurst(low: Byte, high: Byte): (v: Int16)
    ensures v == SampleValue(high, low)
  {
    var x: Word := low as Word;
    var x := x | ((high as Word) << 8);
    assert x == Join(high, low);
    SignedJoin(high, low);
    Signed16(x)
  }

  /** The high register byte of a sample: `(v >> 8) & 0xFF`. */
  function HighByte(v: Int16): Byte
  {
    HighOf(Pattern16(v))
  }

  /** The low register byte of a sample: `v & 0xFF`. */
  function LowByte(v: Int16): Byte
  {
    LowOf(Pattern16(v))
  }

  /** Splitting a sample into its register bytes and assembling them again,
      by either protocol, gives back the sample. */
  lemma SampleRoundTrip(v: Int16)
    ensures AssembleDiscrete(HighByte(v), LowByte(v)) == v
    ensures AssembleBurst(LowByte(v), HighByte(v)) == v
  {
  }

  /** Conversely, the bytes of an assembled sample are the bytes it was
      assembled from. */
  lemma SampleBytesRoundTrip(high: Byte, low: Byte)
    ensures HighByte(SampleValue(high, low)) == high
    ensures LowByte(SampleValue(high, low)) == low
  {
    var w := Join(high, low);
    SignedJoin(high, low);
    PatternOfSigned(w);
  }

  /** The two protocols agree on the same byte pair. */
  lemma ProtocolsAgree(high: Byte, low: Byte)
    ensures AssembleDiscrete(high, low) == AssembleBurst(low, high)
  {
  }

  /** Worked values: sign extension of the high byte. */
  lemma DiscreteExamples()
    ensures AssembleDiscrete(0x01, 0x00) == 256
    ensures AssembleDiscrete(0xFF, 0xFF) == -1
    ensures AssembleDiscrete(0x80, 0x00) == -32768
  {
  }

  /** Worked values: low byte captured first. */
  lemma BurstExamples()
    ensures AssembleBurst(0x34, 0x12) == 0x1234
    ensures AssembleBurst(0xFF, 0xFF) == -1
  {
  }
}
