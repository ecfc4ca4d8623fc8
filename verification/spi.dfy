/**
  The software-SPI transport, seen from the driver.

  The driver uses three primitives: drive chip select low (select the
  device), exchange one byte, drive chip select high (release it).  The bus
  here records what the driver does as a trace of events and counts the byte
  exchanges.  The device's side is a scripted response stream: the k-th byte
  exchange on the bus (counting from 0) returns `miso(k)`.  The bus never
  checks anything; whether a trace is properly framed is a separate
  predicate.
 */
module Spi {
  import opened Bytes
  import opened Wrappers

  datatype Event = Select | Xfer(out: Byte) | Deselect

  /** Trace so far and number of transfers so far. */
  datatype Bus = Bus(trace: seq<Event>, sent: nat)

  /** The device's answers: the byte clocked in during the k-th transfer. */
  type Responses = nat -> Byte

  /** What an operation hands back: its result and the bus after it. */
  datatype Reply<+T> = Reply(value: T, bus: Bus)

  /** `ClearCSSWSPI`: select the device. */
  function ClearCS(bus: Bus): (b: Bus)
  {
    bus.(trace := bus.trace + [Select])
  }

  /** `SetCSSWSPI`: release the device. */
  function SetCS(bus: Bus): (b: Bus)
  {
    bus.(trace := bus.trace + [Deselect])
  }

  /** `WriteSWSPI`: send one byte and take the byte clocked in with it. */
  function Write(bus: Bus, miso: Responses, out: Byte): (r: Reply<Byte>)
  {
    Reply(miso(bus.sent), Bus(bus.trace + [Xfer(out)], bus.sent + 1))
  }

  /** One transfer event per byte, in order. */
  function Xfers(outs: seq<Byte>): (e: seq<Event>)
    ensures |e| == |outs|
    ensures forall i :: 0 <= i < |outs| ==> e[i] == Xfer(outs[i])
  {
    if |outs| == 0 then [] else [Xfer(outs[0])] + Xfers(outs[1..])
  }

  /** One transaction: select, the given bytes, release. */
  function Frame(outs: seq<Byte>): (f: seq<Event>)
    ensures |f| == |outs| + 2
    ensures f[0] == Select && f[|f| - 1] == Deselect
    ensures forall i :: 0 <= i < |outs| ==> f[i + 1] == Xfer(outs[i])
  {
    [Select] + Xfers(outs) + [Deselect]
  }

  /** A two-byte transaction, spelled out. */
  lemma FrameOfTwo(a: Byte, d: Byte)
    ensures Frame([a, d]) == [Select, Xfer(a), Xfer(d), Deselect]
  {
  }

  /** A three-byte transaction, spelled out. */
  lemma FrameOfThree(a: Byte, d1: Byte, d2: Byte)
    ensures Frame([a, d1, d2]) == [Select, Xfer(a), Xfer(d1), Xfer(d2), Deselect]
  {
  }

  /** Whether the rest t of a trace is properly framed, given whether the
      device is selected when it starts: select only when released, transfer
      and release only when selected, released at the end. */
  predicate FramedFrom(t: seq<Event>, selected: bool)
  {
    if |t| == 0 then !selected
    else
      match t[0]
      case Select => !selected && FramedFrom(t[1..], true)
      case Xfer(_) => selected && FramedFrom(t[1..], true)
      case Deselect => selected && FramedFrom(t[1..], false)
  }

  /** A whole trace is properly framed: every transfer happens inside one
      select/release pair and pairs never nest. */
  predicate WellFramed(t: seq<Event>)
  {
    FramedFrom(t, false)
  }

  /** The number of transactions in a trace: its select events. */
  function FrameCount(t: seq<Event>): nat
  {
    if |t| == 0 then 0
    else (if t[0] == Select then 1 else 0) + FrameCount(t[1..])
  }

  /** Framing composes: a framed trace followed by a framed trace is framed. */
  lemma {:induction false} FramedConcat(a: seq<Event>, b: seq<Event>, selected: bool)
    requires FramedFrom(a, selected) && WellFramed(b)
    ensures FramedFrom(a + b, selected)
  {
    if |a| == 0 {
      assert a + b == b;
    } else {
      assert (a + b)[0] == a[0];
      assert (a + b)[1..] == a[1..] + b;
      match a[0]
      case Select => FramedConcat(a[1..], b, true);
      case Xfer(_) => FramedConcat(a[1..], b, true);
      case Deselect => FramedConcat(a[1..], b, false);
    }
  }

  /** Transaction counts add up over concatenation. */
  lemma {:induction false} FrameCountConcat(a: seq<Event>, b: seq<Event>)
    ensures FrameCount(a + b) == FrameCount(a) + FrameCount(b)
  {
    if |a| == 0 {
      assert a + b == b;
    } else {
      assert (a + b)[0] == a[0];
      assert (a + b)[1..] == a[1..] + b;
      FrameCountConcat(a[1..], b);
    }
  }

  /** Transfers followed by a release are framed once selected, and hold no
      select event. */
  lemma {:induction false} XfersThenRelease(outs: seq<Byte>)
    ensures FramedFrom(Xfers(outs) + [Deselect], true)
    ensures FrameCount(Xfers(outs) + [Deselect]) == 0
  {
    var t := Xfers(outs) + [Deselect];
    if |outs| == 0 {
      assert t == [Deselect];
      assert t[1..] == [];
    } else {
      assert t[0] == Xfer(outs[0]);
      assert t[1..] == Xfers(outs[1..]) + [Deselect];
      XfersThenRelease(outs[1..]);
    }
  }

  /** A single transaction is framed and counts as one. */
  lemma FrameIsOneTransaction(outs: seq<Byte>)
    ensures WellFramed(Frame(outs))
    ensures FrameCount(Frame(outs)) == 1
  {
    var f := Frame(outs);
    assert f[0] == Select;
    assert f[1..] == Xfers(outs) + [Deselect];
    XfersThenRelease(outs);
  }

  /** Appending a transaction to a framed trace keeps it framed and adds
      one to the count. */
  lemma AppendFrame(t: seq<Event>, outs: seq<Byte>)
    ensures WellFramed(t) ==> WellFramed(t + Frame(outs))
    ensures FrameCount(t + Frame(outs)) == FrameCount(t) + 1
  {
    FrameIsOneTransaction(outs);
    if WellFramed(t) {
      FramedConcat(t, Frame(outs), false);
    }
    FrameCountConcat(t, Frame(outs));
  }

  /** What a transaction asks of the device: its address byte split into
      the read flag, the auto-increment flag and the register address, and
      the bytes that follow it. */
  datatype Access = Access(read: bool, autoIncrement: bool, register: Byte, data: seq<Byte>)

  /** The access a single transaction performs, if the events form one. */
  function ParseFrame(f: seq<Event>): (r: Option<Access>)
    ensures r.Some? ==> |f| >= 3 && f[0] == Select && f[|f| - 1] == Deselect
  {
    if |f| >= 3 && f[0] == Select && f[|f| - 1] == Deselect
       && (forall i :: 1 <= i < |f| - 1 ==> f[i].Xfer?)
    then
      var a := f[1].out;
      Some(Access(a & 0x80 != 0, a & 0x40 != 0, a & 0x3F,
                  seq(|f| - 3, i requires 0 <= i < |f| - 3 => f[i + 2].out)))
    else None
  }

  /** A transaction built from an address byte and data bytes parses back
      into them. */
  lemma ParseFrameOfFrame(a: Byte, data: seq<Byte>)
    ensures ParseFrame(Frame([a] + data))
         == Some(Access(a & 0x80 != 0, a & 0x40 != 0, a & 0x3F, data))
  {
    var outs := [a] + data;
    var f := Frame(outs);
    assert |f| == |data| + 3;
    assert forall i :: 1 <= i < |f| - 1 ==> f[i] == Xfer(outs[i - 1]);
    var d := seq(|f| - 3, i requires 0 <= i < |f| - 3 => f[i + 2].out);
    assert d == data;
  }
}
