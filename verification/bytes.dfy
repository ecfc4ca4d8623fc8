/**
  Bytes, 16-bit patterns and their two's-complement readings.

  The driver moves unsigned 8-bit values over the bus (`uint8_t`), assembles
  16-bit register pairs (`uint16_t` / `int16_t`) and hands single high bytes
  back as `int8_t`.  Bit patterns are bit-vectors here; the signed C types are
  integer ranges, and every conversion between the two is written out.
 */
module Bytes {

  /** One bus byte, as the transfer primitive sends and returns it. */
  type Byte = bv8

  /** A 16-bit register pair as a raw bit pattern. */
  type Word = bv16

  /** The values of C's `int8_t`. */
  type Int8 = x: int | -0x80 <= x < 0x80

  /** The values of C's `int16_t`. */
  type Int16 = x: int | -0x8000 <= x < 0x8000

  /** 2 to the power n, as an independent reference for the bit masks. */
  function Pow2(n: nat): nat
  {
    if n == 0 then 1 else 2 * Pow2(n - 1)
  }

  /** `BITn` of the header: the byte whose only set bit is bit n. */
  function Bit(n: nat): (m: Byte)
    requires n < 8
    ensures m != 0
  {
    (1 as Byte) << n
  }

  /** Each mask `BITn` is the number 2 to the power n. */
  lemma BitIsPow2(n: nat)
    requires n < 8
    ensures Bit(n) as int == Pow2(n)
  {
  }

  /** The eight masks never share a bit. */
  lemma BitsDisjoint(i: nat, j: nat)
    requires i < 8 && j < 8 && i != j
    ensures Bit(i) & Bit(j) == 0
  {
  }

  /** The reading of a byte as `int8_t`, the conversion a C assignment of a
      `uint8_t` to an `int8_t` performs on two's-complement targets. */
  function Signed8(b: Byte): (v: Int8)
    ensures 0 <= v <==> b < 0x80
    ensures 0 <= v ==> v == b as int
    ensures v < 0 ==> v + 0x100 == b as int
  {
    if b < 0x80 then b as int else b as int - 0x100
  }

  /** Bits 15..8 of a 16-bit pattern. */
  function HighOf(w: Word): Byte
  {
    (w >> 8) as Byte
  }

  /** Bits 7..0 of a 16-bit pattern. */
  function LowOf(w: Word): Byte
  {
    (w & 0xFF) as Byte
  }

  /** The pattern `(high << 8) | low`. */
  function Join(high: Byte, low: Byte): (w: Word)
    ensures HighOf(w) == high && LowOf(w) == low
  {
    ((high as Word) << 8) | (low as Word)
  }

  /** Every pattern is the join of its two bytes. */
  lemma JoinOfBytes(w: Word)
    ensures Join(HighOf(w), LowOf(w)) == w
  {
  }

  /** The reading of a 16-bit pattern as `int16_t`: the high byte carries the
      sign, the low byte counts unsigned. */
  function Signed16(w: Word): (v: Int16)
    ensures 0 <= v <==> HighOf(w) < 0x80
    ensures (v + 0x10000) % 0x100 == LowOf(w) as int
  {
    Signed8(HighOf(w)) * 0x100 + LowOf(w) as int
  }

  /** The byte whose unsigned value is k, counted up from zero. */
  function ByteOf(k: int): (b: Byte)
    requires 0 <= k < 0x100
    ensures b as int == k
  {
    if k == 0 then 0 else ByteOf(k - 1) + 1
  }

  /** The two's-complement bit pattern of an `int16_t`. */
  function Pattern16(v: Int16): (w: Word)
    ensures Signed16(w) == v
  {
    var u := v + 0x10000;
    var high, low := u / 0x100 % 0x100, u % 0x100;
    assert v == (if high < 0x80 then high else high - 0x100) * 0x100 + low;
    Join(ByteOf(high), ByteOf(low))
  }

  /** Reading a pattern as signed and writing it back loses nothing. */
  lemma PatternOfSigned(w: Word)
    ensures Pattern16(Signed16(w)) == w
  {
    var h, l := HighOf(w), LowOf(w);
    var u := Signed16(w) + 0x10000;
    if h < 0x80 {
      assert u == 0x10000 + h as int * 0x100 + l as int;
    } else {
      assert u == 0x10000 + (h as int - 0x100) * 0x100 + l as int;
    }
    assert u / 0x100 % 0x100 == h as int;
    assert u % 0x100 == l as int;
    ByteOfUnsigned(h);
    ByteOfUnsigned(l);
    JoinOfBytes(w);
  }

  /** A byte is the byte of its own unsigned value. */
  lemma ByteOfUnsigned(b: Byte)
    ensures ByteOf(b as int) == b
  {
  }
}
