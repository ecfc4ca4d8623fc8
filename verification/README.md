# LIS3LV02 register codec, modelled in Dafny

This project models the driver for the LIS3LV02 three-axis accelerometer
(`src/lis3lv02.c`, `src/lis3lv02.h`). The driver talks to the sensor over a
bit-banged SPI bus through three primitives: `ClearCSSWSPI` selects the
device, `WriteSWSPI` exchanges one byte, and `SetCSSWSPI` releases the device.
On top of these it offers:

- three configuration setters, each encoding a tuple of enumerated options
  into one control-register byte (CTRL_REG1, CTRL_REG2, CTRL_REG3);
- an identity read (`lis3_getID`) and the bring-up check built on it
  (`lis3_begin`);
- a filter reset and a status read;
- two ways of reading a signed 16-bit axis sample. The discrete way reads the
  high and the low output register in two transactions. The burst way reads
  both in one auto-increment transaction, low byte first.

The model is functional. Bus bytes are `bv8`. A bus (`Spi.Bus`) records what
the driver does as a trace of `Select | Xfer(out) | Deselect` events and
counts the byte exchanges. The device's side is a scripted response stream
`miso` (`Spi.Responses`): the k-th byte exchange is answered with `miso(k)`.
Each driver function stands for one C function, or for its three x, y and z
copies. Two shared helpers, `Driver.ReadRegister` and `Driver.WriteRegister`,
stand for the single-register read and write that the C functions spell out
inline. Each driver function takes a bus and the response stream, and
returns the bus with its events appended.
Its contract gives:

- the exact events. The fixed registers' address bytes appear as literals
  (0x8F, 0x20, 0xA3, …). The axis getters give theirs in terms of the axis,
  and `Driver.AxisReadsOnTheBus` spells them out for x, y and z;
- which responses form the result;
- that a properly framed trace stays properly framed.

Each encoder has a decoder. The round trip in both directions proves that the
bit layout is the one stated and that the encoder is injective. Both sample
protocols are modelled with the C operators on 16-bit patterns. Both are
proved equal to one reference value: the two's-complement reading of
`high * 256 + low`. Splitting any `int16_t` into its register bytes and
reading them back gives the value again.

Modules: `Wrappers` (the optional value), `Bytes` (bytes, 16-bit patterns,
signed readings, `BITn`),
`Registers` (address table, flag bits, axes), `Settings` (option enums),
`Encoders` (the three control-register encoders and their decoders), `Spi`
(bus primitives, framing, transaction parsing), `Samples` (sample assembly)
and `Driver` (the driver's operations).

Choices where the sources disagree or leave a gap:

- The header declares a five-argument prototype for the CTRL_REG2 setter
  (`src/lis3lv02.h:183`). The `.c` defines a six-argument version with an
  alignment option (`src/lis3lv02.c:65`). The model follows the `.c`. The
  alignment type is declared nowhere, so it is defined here as
  `Data12R | Data16L`, in that order. `Data16L` sets bit 0.
- The discrete read shifts an `int16_t` holding an unsigned byte left by 8.
  The model takes this as two's-complement wrap-around to 16 bits.
- The filter reset sends `HP_FILTER_RESET | 0x80`, with the read flag set.
  The model keeps this exactly. `Driver.ResetFilterIsRead` shows that on
  the bus the reset is a one-byte read of that register.
- The x, y and z getters are three copies that differ only in the register
  addresses. Each is modelled once, with an `Axis` parameter. The rows below
  cite the x copy. The y copies are at `src/lis3lv02.c:226-264` and 325-333,
  and the z copies at 269-307 and 338-346.

## Model

| member | source | states |
|---|---|---|
| Bytes.BitIsPow2 | src/lis3lv02.h:48-55 | each mask `BITn` is the number 2^n, for n in 0..7 |
| Bytes.BitsDisjoint | src/lis3lv02.h:48-55 | two different masks `BITi`, `BITj` share no bit |
| Bytes.Signed8 | src/lis3lv02.c:202-208 | a byte stored into an `int8_t` is negative exactly when bit 7 is set; otherwise it keeps its value, and if negative it is the value minus 256 |
| Bytes.Signed16 | src/lis3lv02.c:312-320 | a 16-bit pattern read as `int16_t` is negative exactly when the high byte's top bit is set, and agrees with the low byte modulo 256 |
| Bytes.PatternOfSigned | src/lis3lv02.c:312-320 | reading a 16-bit pattern as signed and taking its pattern back loses nothing |
| Registers.Address | src/lis3lv02.h:15-45 | every register address fits in the 6 address bits (below 0x40), so masking with 0x3F leaves it unchanged |
| Registers.RegisterAt | src/lis3lv02.h:15-45 | the register found at an address has that address |
| Registers.RegisterAtAddress | src/lis3lv02.h:15-45 | looking up any register's own address finds that register |
| Registers.AddressesDistinct | src/lis3lv02.h:15-45 | no two registers share an address |
| Registers.WriteAddress | src/lis3lv02.c:53 | a write's address byte has both flag bits clear and the register in bits 5:0 |
| Registers.ReadAddress | src/lis3lv02.c:17 | OR-ing 0x80 into the address sets the read flag, leaves auto-increment clear and keeps the address bits recoverable with 0x3F |
| Registers.BurstReadAddress | src/lis3lv02.c:315 | OR-ing 0x80 and 0x40 into the address sets both flags and keeps the address bits recoverable with 0x3F |
| Registers.OutLow | src/lis3lv02.h:27-32 | the low output registers are OUTX_L 0x28, OUTY_L 0x2A and OUTZ_L 0x2C, one per axis and each at an even address in 0x28..0x2C |
| Registers.AxisAddressBytes | src/lis3lv02.c:186-193 | the x, y and z getters send 0xA9/0xA8, 0xAB/0xAA and 0xAD/0xAC for their high/low reads, and 0xE8, 0xEA and 0xEC for their burst reads |
| Registers.OutHigh | src/lis3lv02.h:27-32 | each axis's high output register sits at the low register's address plus one |
| Settings.DataRateOrdinal | src/lis3lv02.h:68-74 | a data rate's C value is below 4 |
| Settings.DataRateWithOrdinal | src/lis3lv02.h:68-74 | every value 0..3 is the C value of some data rate |
| Settings.DataRateOrdinalBijective | src/lis3lv02.h:68-74 | the data rates and the values 0..3 correspond one to one |
| Settings.FilterFreqOrdinal | src/lis3lv02.h:147-153 | a cut-off step's C value is below 4 |
| Settings.FilterFreqWithOrdinal | src/lis3lv02.h:147-153 | every value 0..3 is the C value of some cut-off step |
| Settings.FilterFreqOrdinalBijective | src/lis3lv02.h:147-153 | the cut-off steps and the values 0..3 correspond one to one |
| Encoders.PowerDataRateByte | src/lis3lv02.c:34-51 | the CTRL_REG1 byte has bits 2:0 set and bits 7 and 3 clear; bit 6 is set iff power is on; bits 5:4 hold the data rate's C value |
| Encoders.DecodePowerDataRate | src/lis3lv02.c:34-51 | a byte names a CTRL_REG1 option pair exactly when bits 2:0 are set and bits 7 and 3 are clear |
| Encoders.PowerDataRateRoundTrip | src/lis3lv02.c:34-51 | decoding the CTRL_REG1 byte gives back the power and rate it was built from |
| Encoders.PowerDataRateDecodeSound | src/lis3lv02.c:34-51 | every byte the CTRL_REG1 decoder accepts is the encoding of the options it returns |
| Encoders.PowerDataRateInjective | src/lis3lv02.c:34-51 | the 8 power/rate combinations give 8 different bytes |
| Encoders.PowerDataRateIsUnion | src/lis3lv02.c:34-51 | the byte is the OR of what the power choice and the rate choice contribute on their own |
| Encoders.ScaleUpdateByte | src/lis3lv02.c:65-103 | in the CTRL_REG2 byte, bit 0 is set iff 16-bit left alignment, bit 1 iff 3-wire SPI, bit 2 iff data-ready on, bit 3 iff interrupt on, bit 6 iff block update, bit 7 iff ±6 g; bits 5:4 are always clear |
| Encoders.DecodeScaleUpdate | src/lis3lv02.c:65-103 | a byte names a CTRL_REG2 option tuple exactly when bits 5:4 are clear |
| Encoders.ScaleUpdateRoundTrip | src/lis3lv02.c:65-103 | decoding the CTRL_REG2 byte gives back the six options |
| Encoders.ScaleUpdateDecodeSound | src/lis3lv02.c:65-103 | every byte the CTRL_REG2 decoder accepts is the encoding of the options it returns |
| Encoders.ScaleUpdateInjective | src/lis3lv02.c:65-103 | distinct CTRL_REG2 option tuples give distinct bytes |
| Encoders.ScaleUpdateIsUnion | src/lis3lv02.c:65-103 | the byte is the OR of the six options' individual contributions, the other options left at their first member |
| Encoders.FilterOptionsByte | src/lis3lv02.c:117-152 | in the CTRL_REG3 byte, bit 7 is set iff the clock is the external pad; bits 6, 5, 4 iff the direction-detection, free-fall and data filters are enabled; bits 3:2 are clear; bits 1:0 hold the cut-off step's C value |
| Encoders.DecodeFilterOptions | src/lis3lv02.c:117-152 | a byte names a CTRL_REG3 option tuple exactly when bits 3:2 are clear |
| Encoders.FilterOptionsRoundTrip | src/lis3lv02.c:117-152 | decoding the CTRL_REG3 byte gives back the five options |
| Encoders.FilterOptionsDecodeSound | src/lis3lv02.c:117-152 | every byte the CTRL_REG3 decoder accepts is the encoding of the options it returns |
| Encoders.FilterOptionsInjective | src/lis3lv02.c:117-152 | distinct CTRL_REG3 option tuples give distinct bytes |
| Encoders.FilterOptionsIsUnion | src/lis3lv02.c:117-152 | the byte is the OR of the five options' individual contributions |
| Spi.Frame | src/lis3lv02.c:16-19 | a transaction is a select, one transfer event per byte in order, then a release |
| Spi.FramedConcat | src/lis3lv02.c:185-195 | a framed trace followed by another framed trace is framed: transactions may follow each other |
| Spi.FrameCountConcat | src/lis3lv02.c:185-195 | transaction counts add up when traces are concatenated |
| Spi.XfersThenRelease | src/lis3lv02.c:17-19 | once the device is selected, any run of transfers followed by a release is framed and opens no transaction |
| Spi.FrameIsOneTransaction | src/lis3lv02.c:16-19 | a select/transfers/release sequence is framed and counts as exactly one transaction |
| Spi.AppendFrame | src/lis3lv02.c:52-55 | appending a transaction to a framed trace keeps it framed and adds one transaction |
| Spi.ParseFrame | src/lis3lv02.c:16-19 | a trace parsed as an access starts with a select and ends with a release |
| Spi.ParseFrameOfFrame | src/lis3lv02.c:16-19 | the device reads a transaction's first byte as read flag (bit 7), auto-increment flag (bit 6) and register (bits 5:0), and the remaining bytes as data |
| Samples.SignedJoin | src/lis3lv02.c:190-194 | the pattern high << 8 OR low, read as `int16_t` is the reference sample, which is also `int8(high) * 256 + low` |
| Samples.AssembleDiscrete | src/lis3lv02.c:187-194 | the discrete read's shift-and-OR arithmetic gives the reference sample, which is `int8(high) * 256 + low` |
| Samples.AssembleBurst | src/lis3lv02.c:316-319 | the burst read's low OR (high << 8), returned as `int16_t` gives the reference sample |
| Samples.SampleRoundTrip | src/lis3lv02.c:312-320 | for every `int16_t` v, assembling v's own high and low bytes by either protocol gives back v |
| Samples.SampleBytesRoundTrip | src/lis3lv02.c:183-197 | the high and low bytes of an assembled sample are the bytes it was assembled from |
| Samples.ProtocolsAgree | src/lis3lv02.c:312-320 | on the same byte pair the discrete and burst assemblies give the same value |
| Samples.DiscreteExamples | src/lis3lv02.c:183-197 | (0x01,0x00) gives 256, (0xFF,0xFF) gives -1, (0x80,0x00) gives -32768 |
| Samples.BurstExamples | src/lis3lv02.c:312-320 | low 0x34 then high 0x12 gives 0x1234; low 0xFF then high 0xFF gives -1 |
| Driver.ReadRegister | src/lis3lv02.c:171-178 | a single-register read is one transaction of the read address and a filler byte, and returns the answer to the filler unchanged; a framed trace stays framed and gains one transaction |
| Driver.WriteRegister | src/lis3lv02.c:52-55 | a single-register write is one transaction of the write address and the data byte; a framed trace stays framed and gains one transaction |
| Driver.GetId | src/lis3lv02.c:14-21 | the identity read emits exactly select, 0x8F, 0x00, release, uses two answers and returns the answer to the second transfer |
| Driver.Begin | src/lis3lv02.c:26-28 | bring-up succeeds iff the identity answer is 0x3A, and fails for every other byte; it emits the identity transaction and nothing else, so a framed trace stays framed and gains one transaction |
| Driver.SetPowerDataRate | src/lis3lv02.c:34-56 | the CTRL_REG1 setter emits exactly select, 0x20, the encoded byte, release, and keeps a framed trace framed |
| Driver.SetScaleUpdate | src/lis3lv02.c:65-108 | the CTRL_REG2 setter emits exactly select, 0x21, the encoded byte, release, and keeps a framed trace framed |
| Driver.SetFilterOptions | src/lis3lv02.c:117-157 | the CTRL_REG3 setter emits exactly select, 0x22, the encoded byte, release, and keeps a framed trace framed |
| Driver.ResetFilter | src/lis3lv02.c:161-166 | the filter reset emits exactly select, 0xA3, 0x00, release |
| Driver.ReadStatus | src/lis3lv02.c:171-178 | the status read emits exactly select, 0xA7, 0x00, release, and returns the second answer unchanged |
| Driver.ReadAcc | src/lis3lv02.c:183-197 | the discrete read emits two transactions, the high register's read first and then the low register's; it returns the reference sample of (answer 2, answer 4) |
| Driver.ReadAccHigh | src/lis3lv02.c:202-209 | the high-byte read is one transaction on the high register and returns the answer read as `int8_t` |
| Driver.ReadAccLow | src/lis3lv02.c:214-221 | the low-byte read is one transaction on the low register and returns the answer unsigned |
| Driver.ReadAccBurst | src/lis3lv02.c:312-320 | the burst read is one transaction: the low register's burst address and two fillers; it returns the reference sample with the second answer as the high byte and the first as the low byte |
| Driver.AxisReadsOnTheBus | src/lis3lv02.c:312-320 | for each axis, the discrete, high, low and burst reads emit exactly the transactions with that axis's literal address bytes (OUTX_L OR 0x80 OR 0x40 is 0xE8, and so on) |
| Driver.ReadAccIsHighThenLow | src/lis3lv02.c:183-221 | the discrete read emits the same events as the high-byte read followed by the low-byte read, and returns `high * 256 + low` of their results |
| Driver.BurstAgreesWithDiscrete | src/lis3lv02.c:312-320 | when the device answers the same register pair, the burst read and the discrete read return the same sample |
| Driver.ReadRecoversSample | src/lis3lv02.c:183-197 | a device whose output registers hold the bytes of any `int16_t` v is read back as v by both protocols |
| Driver.PowerDataRateReachesDevice | src/lis3lv02.c:34-55 | the CTRL_REG1 setter's transaction is a write with no flag bits to CTRL_REG1; its one data byte decodes to exactly the power and rate passed in |
| Driver.ScaleUpdateReachesDevice | src/lis3lv02.c:65-107 | the CTRL_REG2 setter's transaction is a write with no flag bits to CTRL_REG2; its one data byte decodes to exactly the six options passed in |
| Driver.FilterOptionsReachDevice | src/lis3lv02.c:117-156 | the CTRL_REG3 setter's transaction is a write with no flag bits to CTRL_REG3; its one data byte decodes to exactly the five options passed in |
| Driver.ReadRegisterIsRead | src/lis3lv02.c:14-21 | a single-register read (identity, status, high byte, low byte) parses as an access with the read flag set, auto-increment clear, the register's address and one filler byte |
| Driver.ResetFilterIsRead | src/lis3lv02.c:161-166 | the filter reset parses as a one-byte read of HP_FILTER_RESET |
| Driver.BurstReadIsAutoIncrement | src/lis3lv02.c:312-320 | the burst read parses as an access with read and auto-increment flags set, addressing the low output register, with two filler bytes |

## Left out

- The bus primitives `ClearCSSWSPI`, `SetCSSWSPI` and `WriteSWSPI` belong to
  `sw_spi.h`, which is not part of this model. They appear only as trace
  events and a response stream. Bit timing, pin handling and the full-duplex
  clocking are not modelled.
- The response stream is a parameter. The model says nothing about what a
  real device answers, beyond the stated conditions in the lemmas.
- The cut-off formula `f_cutoff = (0.318/HPC)*(ODRx/2)` is left out. It is a
  floating-point comment, not code.
- The offset/gain, free-fall/wake-up and direction-detection registers are
  only entries in the address table. No operation uses them.
- The commented-out FIFO and filter-mode enums are left out.
- The five-argument CTRL_REG2 prototype and the `lis3_set_ctrl_regN` macro
  aliases are left out. The six-argument definition is modelled instead.
- C's undefined or implementation-defined behaviour is not modelled. Two
  signed-`int` shifts are taken as two's-complement wrap-around to 16 bits:
  the discrete read's `x <<= 8` (`src/lis3lv02.c:190`, 233, 276), and the
  burst read's `WriteSWSPI(0x00) << 8` (`src/lis3lv02.c:317`, 330, 343), which
  can overflow on a target whose `int` is 16 bits. The narrowing conversions
  to `int8_t` and `int16_t` are taken the same way.
- `WriteSWSPI` is taken to return `uint8_t`. Its declaration in `sw_spi.h` is
  not part of this model. If it returned a signed `char`, both sample reads
  would sign-extend the low byte before OR-ing it in, and the results would
  differ from the model for low bytes of 0x80 and above.
- Out-of-range enum values, which C would accept as plain integers, cannot
  be expressed. Every option is a closed datatype.
- Whether the filter reset's framing is right for the hardware is a
  datasheet question. The model only records what the code sends.
