/**
  The three control-register encoders.  Each turns a tuple of option choices
  into one byte by OR-ing fixed bit positions onto a base value, switch by
  switch, in the order the driver does it.  Each comes with a decoder that
  reads the choices back out of a byte, so that the encoders are proved
  injective and their bit layout is checked against an independent reading.
 */
module Encoders {
  import opened Bytes
  import opened Wrappers
  import opened Settings

  // ---------------------------------------------------------------------
  // CTRL_REG1: power mode, data rate, axis enables
  // ---------------------------------------------------------------------

  datatype Ctrl1Options = Ctrl1Options(power: Power, rate: DataRate)

  /** The byte `lis3_set_power_datarate` writes: the three axis-enable bits
      always on, bit 6 for power-on, the rate's C value in bits 5:4. */
  function PowerDataRateByte(power: Power, rate: DataRate): (b: Byte)
    ensures b & 0x07 == 0x07
    ensures b & Bit(3) == 0 && b & Bit(7) == 0
    ensures (b & Bit(6) != 0) <==> power == PowerOn
    ensures ((b >> 4) & 0x03) as int == DataRateOrdinal(rate)
  {
    var w: Byte := 0x07;
    var w := match power
      case PowerDown => w
      case PowerOn => w | (0x01 << 6);
    match rate
    case Rate40Hz => w
    case Rate160Hz => w | (0x01 << 4)
    case Rate640Hz => w | (0x02 << 4)
    case Rate2560Hz => w | (0x03 << 4)
  }

  /** The options a CTRL_REG1 byte selects, if the byte is one the encoder
      can produce (axes enabled, bits 7 and 3 clear). */
  function DecodePowerDataRate(b: Byte): (r: Option<Ctrl1Options>)
    ensures r.Some? <==> b & 0x8F == 0x07
  {
    if b & 0x8F != 0x07 then None
    else
      var power := if b & Bit(6) != 0 then PowerOn else PowerDown;
      Some(Ctrl1Options(power, DataRateWithOrdinal(((b >> 4) & 0x03) as int)))
  }

  /** Decoding an encoded CTRL_REG1 byte gives back the options. */
  lemma PowerDataRateRoundTrip(power: Power, rate: DataRate)
    ensures DecodePowerDataRate(PowerDataRateByte(power, rate)) == Some(Ctrl1Options(power, rate))
  {
  }

  /** Every byte the decoder accepts is the encoding of what it returns. */
  lemma PowerDataRateDecodeSound(b: Byte)
    ensures DecodePowerDataRate(b).Some? ==>
      var o := DecodePowerDataRate(b).value;
      PowerDataRateByte(o.power, o.rate) == b
  {
  }

  /** The eight option pairs give eight different bytes. */
  lemma PowerDataRateInjective(p1: Power, r1: DataRate, p2: Power, r2: DataRate)
    ensures PowerDataRateByte(p1, r1) == PowerDataRateByte(p2, r2) ==> p1 == p2 && r1 == r2
  {
  }

  /** Each option contributes its bits independently of the other. */
  lemma PowerDataRateIsUnion(power: Power, rate: DataRate)
    ensures PowerDataRateByte(power, rate)
         == PowerDataRateByte(power, Rate40Hz) | PowerDataRateByte(PowerDown, rate)
  {
  }

  // ---------------------------------------------------------------------
  // CTRL_REG2: scale, block update, interrupt, data ready, SPI mode, alignment
  // ---------------------------------------------------------------------

  datatype Ctrl2Options = Ctrl2Options(
    scale: Scale, update: BlockUpdate, inte: IntEnable,
    drdy: DrdyEnable, spimode: SpiMode, alignment: Alignment)

  /** The byte `lis3_set_scale_update_int_drdy_spimode_alignment` writes:
      one bit per option, bits 5:4 never set. */
  function ScaleUpdateByte(scale: Scale, update: BlockUpdate, inte: IntEnable,
                           drdy: DrdyEnable, spimode: SpiMode, alignment: Alignment): (b: Byte)
    ensures (b & Bit(0) != 0) <==> alignment == Data16L
    ensures (b & Bit(1) != 0) <==> spimode == Spi3W
    ensures (b & Bit(2) != 0) <==> drdy == DrdyEnabled
    ensures (b & Bit(3) != 0) <==> inte == IntEnabled
    ensures (b & Bit(6) != 0) <==> update == Blocked
    ensures (b & Bit(7) != 0) <==> scale == Scale6G
    ensures b & (Bit(4) | Bit(5)) == 0
  {
    var w: Byte := 0x00;
    var w := match alignment
      case Data12R => w
      case Data16L => 0x01;
    var w := match scale
      case Scale2G => w
      case Scale6G => w | (0x01 << 7);
    var w := match update
      case Continuous => w
      case Blocked => w | (0x01 << 6);
    var w := match inte
      case IntDisabled => w
      case IntEnabled => w | (0x01 << 3);
    var w := match drdy
      case DrdyDisabled => w
      case DrdyEnabled => w | (0x01 << 2);
    match spimode
    case Spi4W => w
    case Spi3W => w | (0x01 << 1)
  }

  /** The options a CTRL_REG2 byte selects, if bits 5:4 are clear. */
  function DecodeScaleUpdate(b: Byte): (r: Option<Ctrl2Options>)
    ensures r.Some? <==> b & 0x30 == 0
  {
    if b & 0x30 != 0 then None
    else
      Some(Ctrl2Options(
        if b & Bit(7) != 0 then Scale6G else Scale2G,
        if b & Bit(6) != 0 then Blocked else Continuous,
        if b & Bit(3) != 0 then IntEnabled else IntDisabled,
        if b & Bit(2) != 0 then DrdyEnabled else DrdyDisabled,
        if b & Bit(1) != 0 then Spi3W else Spi4W,
        if b & Bit(0) != 0 then Data16L else Data12R))
  }

  /** Decoding an encoded CTRL_REG2 byte gives back the options. */
  lemma ScaleUpdateRoundTrip(scale: Scale, update: BlockUpdate, inte: IntEnable,
                             drdy: DrdyEnable, spimode: SpiMode, alignment: Alignment)
    ensures DecodeScaleUpdate(ScaleUpdateByte(scale, update, inte, drdy, spimode, alignment))
         == Some(Ctrl2Options(scale, update, inte, drdy, spimode, alignment))
  {
  }

  /** Every byte the decoder accepts is the encoding of what it returns. */
  lemma ScaleUpdateDecodeSound(b: Byte)
    ensures DecodeScaleUpdate(b).Some? ==>
      var o := DecodeScaleUpdate(b).value;
      ScaleUpdateByte(o.scale, o.update, o.inte, o.drdy, o.spimode, o.alignment) == b
  {
  }

  /** Distinct option tuples give distinct CTRL_REG2 bytes. */
  lemma ScaleUpdateInjective(o1: Ctrl2Options, o2: Ctrl2Options)
    ensures ScaleUpdateByte(o1.scale, o1.update, o1.inte, o1.drdy, o1.spimode, o1.alignment)
         == ScaleUpdateByte(o2.scale, o2.update, o2.inte, o2.drdy, o2.spimode, o2.alignment)
         ==> o1 == o2
  {
  }

  /** The byte is the OR of what each option contributes on its own, every
      other option left at its first (bit-free) member. */
  lemma ScaleUpdateIsUnion(scale: Scale, update: BlockUpdate, inte: IntEnable,
                           drdy: DrdyEnable, spimode: SpiMode, alignment: Alignment)
    ensures ScaleUpdateByte(scale, update, inte, drdy, spimode, alignment)
         == ScaleUpdateByte(scale, Continuous, IntDisabled, DrdyDisabled, Spi4W, Data12R)
          | ScaleUpdateByte(Scale2G, update, IntDisabled, DrdyDisabled, Spi4W, Data12R)
          | ScaleUpdateByte(Scale2G, Continuous, inte, DrdyDisabled, Spi4W, Data12R)
          | ScaleUpdateByte(Scale2G, Continuous, IntDisabled, drdy, Spi4W, Data12R)
          | ScaleUpdateByte(Scale2G, Continuous, IntDisabled, DrdyDisabled, spimode, Data12R)
          | ScaleUpdateByte(Scale2G, Continuous, IntDisabled, DrdyDisabled, Spi4W, alignment)
  {
  }

  // ---------------------------------------------------------------------
  // CTRL_REG3: high-pass filter options
  // ---------------------------------------------------------------------

  datatype Ctrl3Options = Ctrl3Options(
    clock: Clock, dirdet: FilterEnable, freefall: FilterEnable,
    data: FilterEnable, freq: FilterFreq)

  /** The byte `lis3_set_filter_options` writes: clock source in bit 7, the
      three filter enables in bits 6, 5, 4, the cut-off step in bits 1:0. */
  function FilterOptionsByte(clock: Clock, dirdet: FilterEnable, freefall: FilterEnable,
                             data: FilterEnable, freq: FilterFreq): (b: Byte)
    ensures (b & Bit(7) != 0) <==> clock == ExternalPad
    ensures (b & Bit(6) != 0) <==> dirdet == FilterEnabled
    ensures (b & Bit(5) != 0) <==> freefall == FilterEnabled
    ensures (b & Bit(4) != 0) <==> data == FilterEnabled
    ensures b & (Bit(3) | Bit(2)) == 0
    ensures (b & 0x03) as int == FilterFreqOrdinal(freq)
  {
    var w: Byte := 0x00;
    var w := match clock
      case InternalOsc => w
      case ExternalPad => w | (0x01 << 7);
    var w := match dirdet
      case FilterBypassed => w
      case FilterEnabled => w | (0x01 << 6);
    var w := match freefall
      case FilterBypassed => w
      case FilterEnabled => w | (0x01 << 5);
    var w := match data
      case FilterBypassed => w
      case FilterEnabled => w | (0x01 << 4);
    match freq
    case Hpc512 => w
    case Hpc1024 => w | 0x01
    case Hpc2048 => w | 0x02
    case Hpc4096 => w | 0x03
  }

  function EnableOf(b: Byte, n: nat): FilterEnable
    requires n < 8
  {
    if b & Bit(n) != 0 then FilterEnabled else FilterBypassed
  }

  /** The options a CTRL_REG3 byte selects, if bits 3:2 are clear. */
  function DecodeFilterOptions(b: Byte): (r: Option<Ctrl3Options>)
    ensures r.Some? <==> b & 0x0C == 0
  {
    if b & 0x0C != 0 then None
    else
      Some(Ctrl3Options(
        if b & Bit(7) != 0 then ExternalPad else InternalOsc,
        EnableOf(b, 6), EnableOf(b, 5), EnableOf(b, 4),
        FilterFreqWithOrdinal((b & 0x03) as int)))
  }

  /** Decoding an encoded CTRL_REG3 byte gives back the options. */
  lemma FilterOptionsRoundTrip(clock: Clock, dirdet: FilterEnable, freefall: FilterEnable,
                               data: FilterEnable, freq: FilterFreq)
    ensures DecodeFilterOptions(FilterOptionsByte(clock, dirdet, freefall, data, freq))
         == Some(Ctrl3Options(clock, dirdet, freefall, data, freq))
  {
  }

  /** Every byte the decoder accepts is the encoding of what it returns. */
  lemma FilterOptionsDecodeSound(b: Byte)
    ensures DecodeFilterOptions(b).Some? ==>
      var o := DecodeFilterOptions(b).value;
      FilterOptionsByte(o.clock, o.dirdet, o.freefall, o.data, o.freq) == b
  {
  }

  /** Distinct option tuples give distinct CTRL_REG3 bytes. */
  lemma FilterOptionsInjective(o1: Ctrl3Options, o2: Ctrl3Options)
    ensures FilterOptionsByte(o1.clock, o1.dirdet, o1.freefall, o1.data, o1.freq)
         == FilterOptionsByte(o2.clock, o2.dirdet, o2.freefall, o2.data, o2.freq)
         ==> o1 == o2
  {
  }

  /** The byte is the OR of what each option contributes on its own. */
  lemma FilterOptionsIsUnion(clock: Clock, dirdet: FilterEnable, freefall: FilterEnable,
                             data: FilterEnable, freq: FilterFreq)
    ensures FilterOptionsByte(clock, dirdet, freefall, data, freq)
         == FilterOptionsByte(clock, FilterBypassed, FilterBypassed, FilterBypassed, Hpc512)
          | FilterOptionsByte(InternalOsc, dirdet, FilterBypassed, FilterBypassed, Hpc512)
          | FilterOptionsByte(InternalOsc, FilterBypassed, freefall, FilterBypassed, Hpc512)
          | FilterOptionsByte(InternalOsc, FilterBypassed, FilterBypassed, data, Hpc512)
          | FilterOptionsByte(InternalOsc, FilterBypassed, FilterBypassed, FilterBypassed, freq)
  {
  }
}
