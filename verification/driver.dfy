/**
  The driver's operations, each a fixed sequence of bus primitives.  The x,
  y and z copies of each axis getter are one function with an `Axis`
  parameter, and the single-register read and write every operation spells
  out are shared helpers.  Every operation takes the bus as it finds it and
  returns it with the operation's events appended and its transfers answered
  from the response stream.  The contracts state the exact events (with
  literal address bytes for the fixed registers; `AxisReadsOnTheBus` gives
  them for each axis), which responses make up the result, and that a
  properly framed trace stays properly framed.
 */
module Driver {
  import opened Bytes
  import opened Wrappers
  import opened Registers
  import opened Settings
  import opened Encoders
  import opened Spi
  import opened Samples

  /** The single-register read every getter spells out: select, the
      register's address with the read flag, one filler byte whose answer is
      the register's content, release. */
  function ReadRegister(bus: Bus, miso: Responses, reg: Register): (r: Reply<Byte>)
    ensures r.bus.trace == bus.trace + Frame([ReadAddress(reg), 0x00])
    ensures r.value == miso(bus.sent + 1)
    ensures r.bus.sent == bus.sent + 2
    ensures WellFramed(bus.trace) ==> WellFramed(r.bus.trace)
    ensures FrameCount(r.bus.trace) == FrameCount(bus.trace) + 1
  {
    AppendFrame(bus.trace, [ReadAddress(reg), 0x00]);
    FrameOfTwo(ReadAddress(reg), 0x00);
    var b := ClearCS(bus);
    var b := Write(b, miso, ReadAddress(reg)).bus;
    var rdata := Write(b, miso, 0x00);
    Reply(rdata.value, SetCS(rdata.bus))
  }

  /** The single-register write every setter spells out: select, the
      register's address with both flags clear, the data byte, release. */
  function WriteRegister(bus: Bus, miso: Responses, reg: Register, wdata: Byte): (b: Bus)
    ensures b.trace == bus.trace + Frame([WriteAddress(reg), wdata])
    ensures b.sent == bus.sent + 2
    ensures WellFramed(bus.trace) ==> WellFramed(b.trace)
    ensures FrameCount(b.trace) == FrameCount(bus.trace) + 1
  {
    AppendFrame(bus.trace, [WriteAddress(reg), wdata]);
    FrameOfTwo(WriteAddress(reg), wdata);
    var b := ClearCS(bus);
    var b := Write(b, miso, WriteAddress(reg)).bus;
    var b := Write(b, miso, wdata).bus;
    SetCS(b)
  }

  // ---------------------------------------------------------------------
  // Identity and bring-up
  // ---------------------------------------------------------------------

  /** `lis3_getID`: read WHO_AM_I in one transaction. */
  function GetId(bus: Bus, miso: Responses): (r: Reply<Byte>)
    ensures r.bus.trace == bus.trace + Frame([0x8F, 0x00])
    ensures r.value == miso(bus.sent + 1)
    ensures r.bus.sent == bus.sent + 2
    ensures WellFramed(bus.trace) ==> WellFramed(r.bus.trace)
    ensures FrameCount(r.bus.trace) == FrameCount(bus.trace) + 1
  {
    ReadRegister(bus, miso, WhoAmI)
  }

  /** `lis3_begin`: the device is there exactly when WHO_AM_I reads 0x3A. */
  function Begin(bus: Bus, miso: Responses): (r: Reply<bool>)
    ensures r.value <==> miso(bus.sent + 1) == 0x3A
    ensures r.bus.trace == bus.trace + Frame([0x8F, 0x00])
    ensures r.bus.sent == bus.sent + 2
    ensures WellFramed(bus.trace) ==> WellFramed(r.bus.trace)
    ensures FrameCount(r.bus.trace) == FrameCount(bus.trace) + 1
  {
    var id := GetId(bus, miso);
    Reply(id.value == DeviceId, id.bus)
  }

  // ---------------------------------------------------------------------
  // Configuration setters
  // ---------------------------------------------------------------------

  /** `lis3_set_power_datarate`: write CTRL_REG1 (0x20). */
  function SetPowerDataRate(bus: Bus, miso: Responses, power: Power, rate: DataRate): (b: Bus)
    ensures b.trace == bus.trace + Frame([0x20, PowerDataRateByte(power, rate)])
    ensures b.sent == bus.sent + 2
    ensures WellFramed(bus.trace) ==> WellFramed(b.trace)
    ensures FrameCount(b.trace) == FrameCount(bus.trace) + 1
  {
    var wdata := PowerDataRateByte(power, rate);
    assert WriteAddress(CtrlReg1) == 0x20;
    WriteRegister(bus, miso, CtrlReg1, wdata)
  }

  /** `lis3_set_scale_update_int_drdy_spimode_alignment`: write CTRL_REG2
      (0x21). */
  function SetScaleUpdate(bus: Bus, miso: Responses, scale: Scale, update: BlockUpdate, inte: IntEnable,
                          drdy: DrdyEnable, spimode: SpiMode, alignment: Alignment): (b: Bus)
    ensures b.trace == bus.trace
                       + Frame([0x21, ScaleUpdateByte(scale, update, inte, drdy, spimode, alignment)])
    ensures b.sent == bus.sent + 2
    ensures WellFramed(bus.trace) ==> WellFramed(b.trace)
    ensures FrameCount(b.trace) == FrameCount(bus.trace) + 1
  {
    var wdata := ScaleUpdateByte(scale, update, inte, drdy, spimode, alignment);
    assert WriteAddress(CtrlReg2) == 0x21;
    WriteRegister(bus, miso, CtrlReg2, wdata)
  }

  /** `lis3_set_filter_options`: write CTRL_REG3 (0x22). */
  function SetFilterOptions(bus: Bus, miso: Responses, clock: Clock, dirdet: FilterEnable, freefall: FilterEnable,
                            data: FilterEnable, freq: FilterFreq): (b: Bus)
    ensures b.trace == bus.trace
                       + Frame([0x22, FilterOptionsByte(clock, dirdet, freefall, data, freq)])
    ensures b.sent == bus.sent + 2
    ensures WellFramed(bus.trace) ==> WellFramed(b.trace)
    ensures FrameCount(b.trace) == FrameCount(bus.trace) + 1
  {
    var wdata := FilterOptionsByte(clock, dirdet, freefall, data, freq);
    assert WriteAddress(CtrlReg3) == 0x22;
    WriteRegister(bus, miso, CtrlReg3, wdata)
  }

  // ---------------------------------------------------------------------
  // Filter reset and status
  // ---------------------------------------------------------------------

  /** `lis3_reset_filter`: one transaction on HP_FILTER_RESET whose address
      byte carries the read flag, followed by a zero byte. */
  function ResetFilter(bus: Bus, miso: Responses): (b: Bus)
    ensures b.trace == bus.trace + Frame([0xA3, 0x00])
    ensures b.sent == bus.sent + 2
    ensures WellFramed(bus.trace) ==> WellFramed(b.trace)
    ensures FrameCount(b.trace) == FrameCount(bus.trace) + 1
  {
    AppendFrame(bus.trace, [0xA3, 0x00]);
    FrameOfTwo(0xA3, 0x00);
    var b := ClearCS(bus);
    var b := Write(b, miso, ReadAddress(HpFilterReset)).bus;
    var b := Write(b, miso, 0x00).bus;
    SetCS(b)
  }

  /** `lis3_read_status_reg`: read STATUS_REG, returned uninterpreted. */
  function ReadStatus(bus: Bus, miso: Responses): (r: Reply<Byte>)
    ensures r.bus.trace == bus.trace + Frame([0xA7, 0x00])
    ensures r.value == miso(bus.sent + 1)
    ensures r.bus.sent == bus.sent + 2
    ensures WellFramed(bus.trace) ==> WellFramed(r.bus.trace)
    ensures FrameCount(r.bus.trace) == FrameCount(bus.trace) + 1
  {
    assert ReadAddress(StatusReg) == 0xA7;
    ReadRegister(bus, miso, StatusReg)
  }

  // ---------------------------------------------------------------------
  // Axis samples
  // ---------------------------------------------------------------------

  /** `lis3_get_acc_x/y/z`: two transactions, the high register first, then
      the low one; the sample is the high answer sign-extended, shifted by 8,
      with the low answer ORed in. */
  function ReadAcc(bus: Bus, miso: Responses, axis: Axis): (r: Reply<Int16>)
    ensures r.bus.trace == bus.trace + Frame([ReadAddress(OutHigh(axis)), 0x00])
                                     + Frame([ReadAddress(OutLow(axis)), 0x00])
    ensures r.value == SampleValue(miso(bus.sent + 1), miso(bus.sent + 3))
    ensures r.bus.sent == bus.sent + 4
    ensures WellFramed(bus.trace) ==> WellFramed(r.bus.trace)
    ensures FrameCount(r.bus.trace) == FrameCount(bus.trace) + 2
  {
    var high := ReadRegister(bus, miso, OutHigh(axis));
    var low := ReadRegister(high.bus, miso, OutLow(axis));
    assert high.bus.sent == bus.sent + 2;
    assert low.value == miso(bus.sent + 3);
    Reply(AssembleDiscrete(high.value, low.value), low.bus)
  }

  /** `lis3_get_acc_x_h/y_h/z_h`: the high register alone, as `int8_t`. */
  function ReadAccHigh(bus: Bus, miso: Responses, axis: Axis): (r: Reply<Int8>)
    ensures r.bus.trace == bus.trace + Frame([ReadAddress(OutHigh(axis)), 0x00])
    ensures r.value >= 0 ==> r.value == miso(bus.sent + 1) as int
    ensures r.value < 0 ==> r.value + 0x100 == miso(bus.sent + 1) as int
    ensures r.bus.sent == bus.sent + 2
    ensures WellFramed(bus.trace) ==> WellFramed(r.bus.trace)
    ensures FrameCount(r.bus.trace) == FrameCount(bus.trace) + 1
  {
    var high := ReadRegister(bus, miso, OutHigh(axis));
    assert high.value == miso(bus.sent + 1);
    Reply(Signed8(high.value), high.bus)
  }

  /** `lis3_get_acc_x_l/y_l/z_l`: the low register alone, unsigned. */
  function ReadAccLow(bus: Bus, miso: Responses, axis: Axis): (r: Reply<Byte>)
    ensures r.bus.trace == bus.trace + Frame([ReadAddress(OutLow(axis)), 0x00])
    ensures r.value == miso(bus.sent + 1)
    ensures r.bus.sent == bus.sent + 2
    ensures WellFramed(bus.trace) ==> WellFramed(r.bus.trace)
    ensures FrameCount(r.bus.trace) == FrameCount(bus.trace) + 1
  {
    ReadRegister(bus, miso, OutLow(axis))
  }

  /** `lis3_get_acc_x16/y16/z16`: one auto-increment transaction on the low
      register; the first answer is the low byte, the second the high byte. */
  function ReadAccBurst(bus: Bus, miso: Responses, axis: Axis): (r: Reply<Int16>)
    ensures r.bus.trace == bus.trace + Frame([BurstReadAddress(OutLow(axis)), 0x00, 0x00])
    ensures r.value == SampleValue(miso(bus.sent + 2), miso(bus.sent + 1))
    ensures r.bus.sent == bus.sent + 3
    ensures WellFramed(bus.trace) ==> WellFramed(r.bus.trace)
    ensures FrameCount(r.bus.trace) == FrameCount(bus.trace) + 1
  {
    AppendFrame(bus.trace, [BurstReadAddress(OutLow(axis)), 0x00, 0x00]);
    FrameOfThree(BurstReadAddress(OutLow(axis)), 0x00, 0x00);
    var b := ClearCS(bus);
    var b := Write(b, miso, BurstReadAddress(OutLow(axis))).bus;
    var low := Write(b, miso, 0x00);
    var high := Write(low.bus, miso, 0x00);
    Reply(AssembleBurst(low.value, high.value), SetCS(high.bus))
  }

  // ---------------------------------------------------------------------
  // Properties relating the operations
  // ---------------------------------------------------------------------

  /** The discrete sample read is the high-byte read followed by the
      low-byte read, and its value is `high * 256 + low` of their results. */
  lemma ReadAccIsHighThenLow(bus: Bus, miso: Responses, axis: Axis)
    ensures var h := ReadAccHigh(bus, miso, axis);
            var l := ReadAccLow(h.bus, miso, axis);
            && ReadAcc(bus, miso, axis).bus.trace == l.bus.trace
            && ReadAcc(bus, miso, axis).value == h.value * 0x100 + l.value as int
  {
  }

  /** On the same pair of register bytes the burst read and the discrete
      read return the same sample. */
  lemma BurstAgreesWithDiscrete(burst: Bus, mb: Responses, discrete: Bus, md: Responses, axis: Axis)
    requires mb(burst.sent + 1) == md(discrete.sent + 3)
    requires mb(burst.sent + 2) == md(discrete.sent + 1)
    ensures ReadAccBurst(burst, mb, axis).value == ReadAcc(discrete, md, axis).value
  {
  }

  /** A device whose output registers hold the bytes of sample v is read
      back as v by both protocols. */
  lemma ReadRecoversSample(bus: Bus, miso: Responses, axis: Axis, v: Int16)
    ensures miso(bus.sent + 1) == HighByte(v) && miso(bus.sent + 3) == LowByte(v)
            ==> ReadAcc(bus, miso, axis).value == v
    ensures miso(bus.sent + 1) == LowByte(v) && miso(bus.sent + 2) == HighByte(v)
            ==> ReadAccBurst(bus, miso, axis).value == v
  {
    SampleRoundTrip(v);
  }

  /** The suffix an operation appended to the trace. */
  function Appended(before: Bus, after: Bus): seq<Event>
    requires |before.trace| <= |after.trace|
  {
    after.trace[|before.trace|..]
  }

  /** What the device sees from the CTRL_REG1 setter: a write (no flag
      bits) of CTRL_REG1 whose one data byte decodes to the options passed. */
  lemma PowerDataRateReachesDevice(bus: Bus, miso: Responses, o: Ctrl1Options)
    ensures var f := ParseFrame(Appended(bus, SetPowerDataRate(bus, miso, o.power, o.rate)));
            && f.Some? && !f.value.read && !f.value.autoIncrement
            && f.value.register == Address(CtrlReg1) && |f.value.data| == 1
            && DecodePowerDataRate(f.value.data[0]) == Some(o)
  {
    var w := PowerDataRateByte(o.power, o.rate);
    assert Appended(bus, SetPowerDataRate(bus, miso, o.power, o.rate)) == Frame([0x20] + [w]);
    ParseFrameOfFrame(0x20, [w]);
    PowerDataRateRoundTrip(o.power, o.rate);
  }

  /** What the device sees from the CTRL_REG2 setter: a write of CTRL_REG2
      whose one data byte decodes to the options passed. */
  lemma ScaleUpdateReachesDevice(bus: Bus, miso: Responses, o: Ctrl2Options)
    ensures var f := ParseFrame(Appended(bus, SetScaleUpdate(bus, miso, o.scale, o.update, o.inte,
                                                             o.drdy, o.spimode, o.alignment)));
            && f.Some? && !f.value.read && !f.value.autoIncrement
            && f.value.register == Address(CtrlReg2) && |f.value.data| == 1
            && DecodeScaleUpdate(f.value.data[0]) == Some(o)
  {
    var w := ScaleUpdateByte(o.scale, o.update, o.inte, o.drdy, o.spimode, o.alignment);
    assert Appended(bus, SetScaleUpdate(bus, miso, o.scale, o.update, o.inte, o.drdy, o.spimode, o.alignment))
        == Frame([0x21] + [w]);
    ParseFrameOfFrame(0x21, [w]);
    ScaleUpdateRoundTrip(o.scale, o.update, o.inte, o.drdy, o.spimode, o.alignment);
  }

  /** What the device sees from the CTRL_REG3 setter: a write of CTRL_REG3
      whose one data byte decodes to the options passed. */
  lemma FilterOptionsReachDevice(bus: Bus, miso: Responses, o: Ctrl3Options)
    ensures var f := ParseFrame(Appended(bus, SetFilterOptions(bus, miso, o.clock, o.dirdet, o.freefall,
                                                               o.data, o.freq)));
            && f.Some? && !f.value.read && !f.value.autoIncrement
            && f.value.register == Address(CtrlReg3) && |f.value.data| == 1
            && DecodeFilterOptions(f.value.data[0]) == Some(o)
  {
    var w := FilterOptionsByte(o.clock, o.dirdet, o.freefall, o.data, o.freq);
    assert Appended(bus, SetFilterOptions(bus, miso, o.clock, o.dirdet, o.freefall, o.data, o.freq))
        == Frame([0x22] + [w]);
    ParseFrameOfFrame(0x22, [w]);
    FilterOptionsRoundTrip(o.clock, o.dirdet, o.freefall, o.data, o.freq);
  }

  /** What the device sees from a single-register read (identity, status,
      high byte, low byte): the read flag set, auto-increment clear, the
      register addressed, one filler byte. */
  lemma ReadRegisterIsRead(bus: Bus, miso: Responses, reg: Register)
    ensures ParseFrame(Appended(bus, ReadRegister(bus, miso, reg).bus))
         == Some(Access(true, false, Address(reg), [0x00]))
  {
    var a := ReadAddress(reg);
    assert Appended(bus, ReadRegister(bus, miso, reg).bus) == Frame([a] + [0x00]);
    ParseFrameOfFrame(a, [0x00]);
  }

  /** The filter reset looks to the device exactly like a one-byte read of
      HP_FILTER_RESET. */
  lemma ResetFilterIsRead(bus: Bus, miso: Responses)
    ensures ParseFrame(Appended(bus, ResetFilter(bus, miso)))
         == Some(Access(true, false, Address(HpFilterReset), [0x00]))
  {
    assert Appended(bus, ResetFilter(bus, miso)) == Frame([0xA3] + [0x00]);
    ParseFrameOfFrame(0xA3, [0x00]);
  }

  /** What the device sees from a burst read: both flags set, the low
      output register addressed once, two filler bytes. */
  lemma BurstReadIsAutoIncrement(bus: Bus, miso: Responses, axis: Axis)
    ensures ParseFrame(Appended(bus, ReadAccBurst(bus, miso, axis).bus))
         == Some(Access(true, true, Address(OutLow(axis)), [0x00, 0x00]))
  {
    var a := BurstReadAddress(OutLow(axis));
    assert Appended(bus, ReadAccBurst(bus, miso, axis).bus) == Frame([a] + [0x00, 0x00]);
    ParseFrameOfFrame(a, [0x00, 0x00]);
  }

  /** The events of the x, y and z getters with their literal address
      bytes: OUTx_H is 0x29, OUTx_L 0x28, OUTy_H 0x2B, OUTy_L 0x2A, OUTz_H
      0x2D, OUTz_L 0x2C, each with the read flag, and the burst reads add the
      auto-increment flag to the low register. */
  lemma AxisReadsOnTheBus(bus: Bus, miso: Responses)
    ensures ReadAcc(bus, miso, X).bus.trace == bus.trace + Frame([0xA9, 0x00]) + Frame([0xA8, 0x00])
    ensures ReadAcc(bus, miso, Y).bus.trace == bus.trace + Frame([0xAB, 0x00]) + Frame([0xAA, 0x00])
    ensures ReadAcc(bus, miso, Z).bus.trace == bus.trace + Frame([0xAD, 0x00]) + Frame([0xAC, 0x00])
    ensures ReadAccHigh(bus, miso, X).bus.trace == bus.trace + Frame([0xA9, 0x00])
    ensures ReadAccHigh(bus, miso, Y).bus.trace == bus.trace + Frame([0xAB, 0x00])
    ensures ReadAccHigh(bus, miso, Z).bus.trace == bus.trace + Frame([0xAD, 0x00])
    ensures ReadAccLow(bus, miso, X).bus.trace == bus.trace + Frame([0xA8, 0x00])
    ensures ReadAccLow(bus, miso, Y).bus.trace == bus.trace + Frame([0xAA, 0x00])
    ensures ReadAccLow(bus, miso, Z).bus.trace == bus.trace + Frame([0xAC, 0x00])
    ensures ReadAccBurst(bus, miso, X).bus.trace == bus.trace + Frame([0xE8, 0x00, 0x00])
    ensures ReadAccBurst(bus, miso, Y).bus.trace == bus.trace + Frame([0xEA, 0x00, 0x00])
    ensures ReadAccBurst(bus, miso, Z).bus.trace == bus.trace + Frame([0xEC, 0x00, 0x00])
  {
    AxisAddressBytes();
  }
}
