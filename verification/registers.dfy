/**
  The register map of the LIS3LV02 and the flag bits of the address byte.

  Every register sits at a fixed 6-bit address.  The first byte of a bus
  transaction is that address with two flag bits on top: bit 7 asks for a
  read, bit 6 asks the device to advance its address after every data byte.
 */
module Registers {
  import opened Bytes
  import opened Wrappers

  datatype Register =
    | WhoAmI
    | OffsetX | OffsetY | OffsetZ
    | GainX | GainY | GainZ
    | CtrlReg1 | CtrlReg2 | CtrlReg3
    | HpFilterReset
    | StatusReg
    | OutXL | OutXH | OutYL | OutYH | OutZL | OutZH
    | FfWuCfg | FfWuSrc | FfWuAck | FfWuThsL | FfWuThsH | FfWuDuration
    | DdCfg | DdSrc | DdAck | DdThsiL | DdThsiH | DdThseL | DdThseH

  /** Address-byte flag: the transaction reads. */
  const ReadFlag: Byte := 0x80

  /** Address-byte flag: the device auto-increments the address. */
  const AutoIncrementFlag: Byte := 0x40

  /** The bits of the address byte that name the register. */
  const AddressMask: Byte := 0x3F

  /** The value `WHO_AM_I` holds on a genuine LIS3LV02. */
  const DeviceId: Byte := 0x3A

  /** The header's address table. */
  function Address(r: Register): (a: Byte)
    ensures a & AddressMask == a
  {
    match r
    case WhoAmI => 0x0F
    case OffsetX => 0x16
    case OffsetY => 0x17
    case OffsetZ => 0x18
    case GainX => 0x19
    case GainY => 0x1A
    case GainZ => 0x1B
    case CtrlReg1 => 0x20
    case CtrlReg2 => 0x21
    case CtrlReg3 => 0x22
    case HpFilterReset => 0x23
    case StatusReg => 0x27
    case OutXL => 0x28
    case OutXH => 0x29
    case OutYL => 0x2A
    case OutYH => 0x2B
    case OutZL => 0x2C
    case OutZH => 0x2D
    case FfWuCfg => 0x30
    case FfWuSrc => 0x31
    case FfWuAck => 0x32
    case FfWuThsL => 0x34
    case FfWuThsH => 0x35
    case FfWuDuration => 0x36
    case DdCfg => 0x38
    case DdSrc => 0x39
    case DdAck => 0x3A
    case DdThsiL => 0x3C
    case DdThsiH => 0x3D
    case DdThseL => 0x3E
    case DdThseH => 0x3F
  }

  /** The register the device answers to at address a, if any. */
  function RegisterAt(a: Byte): (r: Option<Register>)
    ensures r.Some? ==> Address(r.value) == a
  {
    if a == 0x0F then Some(WhoAmI)
    else if a == 0x16 then Some(OffsetX)
    else if a == 0x17 then Some(OffsetY)
    else if a == 0x18 then Some(OffsetZ)
    else if a == 0x19 then Some(GainX)
    else if a == 0x1A then Some(GainY)
    else if a == 0x1B then Some(GainZ)
    else if a == 0x20 then Some(CtrlReg1)
    else if a == 0x21 then Some(CtrlReg2)
    else if a == 0x22 then Some(CtrlReg3)
    else if a == 0x23 then Some(HpFilterReset)
    else if a == 0x27 then Some(StatusReg)
    else if a == 0x28 then Some(OutXL)
    else if a == 0x29 then Some(OutXH)
    else if a == 0x2A then Some(OutYL)
    else if a == 0x2B then Some(OutYH)
    else if a == 0x2C then Some(OutZL)
    else if a == 0x2D then Some(OutZH)
    else if a == 0x30 then Some(FfWuCfg)
    else if a == 0x31 then Some(FfWuSrc)
    else if a == 0x32 then Some(FfWuAck)
    else if a == 0x34 then Some(FfWuThsL)
    else if a == 0x35 then Some(FfWuThsH)
    else if a == 0x36 then Some(FfWuDuration)
    else if a == 0x38 then Some(DdCfg)
    else if a == 0x39 then Some(DdSrc)
    else if a == 0x3A then Some(DdAck)
    else if a == 0x3C then Some(DdThsiL)
    else if a == 0x3D then Some(DdThsiH)
    else if a == 0x3E then Some(DdThseL)
    else if a == 0x3F then Some(DdThseH)
    else None
  }

  /** Looking up a register's own address finds that register. */
  lemma RegisterAtAddress(r: Register)
    ensures RegisterAt(Address(r)) == Some(r)
  {
  }

  /** No two registers share an address. */
  lemma AddressesDistinct(r1: Register, r2: Register)
    ensures Address(r1) == Address(r2) ==> r1 == r2
  {
  }

  /** The address byte of a single-register write: both flags clear. */
  function WriteAddress(r: Register): (a: Byte)
    ensures a & AddressMask == Address(r)
    ensures a & ReadFlag == 0 && a & AutoIncrementFlag == 0
  {
    Address(r)
  }

  /** The address byte of a single-register read: `register | 0x80`. */
  function ReadAddress(r: Register): (a: Byte)
    ensures a & AddressMask == Address(r)
    ensures a & ReadFlag == ReadFlag && a & AutoIncrementFlag == 0
  {
    Address(r) | ReadFlag
  }

  /** The address byte of an auto-increment read: `register | 0x80 | 0x40`. */
  function BurstReadAddress(r: Register): (a: Byte)
    ensures a & AddressMask == Address(r)
    ensures a & ReadFlag == ReadFlag && a & AutoIncrementFlag == AutoIncrementFlag
  {
    Address(r) | ReadFlag | AutoIncrementFlag
  }

  /** The three axes of the sensor. */
  datatype Axis = X | Y | Z

  /** The register holding the low byte of an axis sample: the output
      registers start at 0x28, one low/high pair per axis in x, y, z order. */
  function OutLow(axis: Axis): (r: Register)
    ensures 0x28 <= Address(r) <= 0x2C && Address(r) % 2 == 0
    ensures axis == X <==> Address(r) == 0x28
    ensures axis == Y <==> Address(r) == 0x2A
    ensures axis == Z <==> Address(r) == 0x2C
  {
    match axis
    case X => OutXL
    case Y => OutYL
    case Z => OutZL
  }

  /** The register holding the high byte of an axis sample; it sits right
      after the low byte, which is what the burst read relies on. */
  function OutHigh(axis: Axis): (r: Register)
    ensures Address(r) == Address(OutLow(axis)) + 1
    ensures r != OutLow(axis)
  {
    match axis
    case X => OutXH
    case Y => OutYH
    case Z => OutZH
  }

  /** The address bytes the x, y and z getters put on the bus. */
  lemma AxisAddressBytes()
    ensures ReadAddress(OutHigh(X)) == 0xA9 && ReadAddress(OutLow(X)) == 0xA8
    ensures ReadAddress(OutHigh(Y)) == 0xAB && ReadAddress(OutLow(Y)) == 0xAA
    ensures ReadAddress(OutHigh(Z)) == 0xAD && ReadAddress(OutLow(Z)) == 0xAC
    ensures BurstReadAddress(OutLow(X)) == 0xE8
    ensures BurstReadAddress(OutLow(Y)) == 0xEA
    ensures BurstReadAddress(OutLow(Z)) == 0xEC
  {
  }
}
