/**
  The closed option sets the configuration setters take.  Each enum of the
  header becomes a datatype with its members in declaration order, so the
  first constructor is the C enumerator with value 0.
 */
module Settings {

  datatype Power = PowerDown | PowerOn

  datatype DataRate = Rate40Hz | Rate160Hz | Rate640Hz | Rate2560Hz

  datatype Scale = Scale2G | Scale6G

  datatype BlockUpdate = Continuous | Blocked

  datatype IntEnable = IntDisabled | IntEnabled

  datatype DrdyEnable = DrdyDisabled | DrdyEnabled

  datatype SpiMode = Spi4W | Spi3W

  /** Output alignment: 12 bits right-justified or 16 bits left-justified.
      The header never declares this type; the setter of control register 2
      names its two members. */
  datatype Alignment = Data12R | Data16L

  datatype Clock = InternalOsc | ExternalPad

  datatype FilterEnable = FilterBypassed | FilterEnabled

  /** High-pass cut-off step; the member names carry the HPC divisor. */
  datatype FilterFreq = Hpc512 | Hpc1024 | Hpc2048 | Hpc4096

  /** The C value of a data-rate enumerator. */
  function DataRateOrdinal(d: DataRate): (n: nat)
    ensures n < 4
  {
    match d
    case Rate40Hz => 0
    case Rate160Hz => 1
    case Rate640Hz => 2
    case Rate2560Hz => 3
  }

  /** The data-rate enumerator with C value n. */
  function DataRateWithOrdinal(n: nat): (d: DataRate)
    requires n < 4
    ensures DataRateOrdinal(d) == n
  {
    if n == 0 then Rate40Hz
    else if n == 1 then Rate160Hz
    else if n == 2 then Rate640Hz
    else Rate2560Hz
  }

  /** The four data rates are exactly the values 0..3. */
  lemma DataRateOrdinalBijective(d: DataRate)
    ensures DataRateWithOrdinal(DataRateOrdinal(d)) == d
  {
  }

  /** The C value of a filter-frequency enumerator. */
  function FilterFreqOrdinal(f: FilterFreq): (n: nat)
    ensures n < 4
  {
    match f
    case Hpc512 => 0
    case Hpc1024 => 1
    case Hpc2048 => 2
    case Hpc4096 => 3
  }

  /** The filter-frequency enumerator with C value n. */
  function FilterFreqWithOrdinal(n: nat): (f: FilterFreq)
    requires n < 4
    ensures FilterFreqOrdinal(f) == n
  {
    if n == 0 then Hpc512
    else if n == 1 then Hpc1024
    else if n == 2 then Hpc2048
    else Hpc4096
  }

  /** The four filter frequencies are exactly the values 0..3. */
  lemma FilterFreqOrdinalBijective(f: FilterFreq)
    ensures FilterFreqWithOrdinal(FilterFreqOrdinal(f)) == f
  {
  }
}
