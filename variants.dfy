/** The two variants side by side.  They frame nibbles alike and lay text out
    alike, so on a transport that accepts every frame the Pico variant writes
    exactly what the ESP32 variant writes to the same address, with the same
    result; their delays differ, and their power-on sequences differ in the
    font and entry-mode options.  On a failing transport the Pico variant
    stops where the ESP32 variant carries on. */
module Variants {
  import opened Commands
  import opened Framing
  import opened Layout
  import Pico = PicoLcd
  import Esp = EspLcd

  /** The Pico variant clears R/W explicitly; the ESP32 variant never sets it:
      the frames are the same. */
  lemma FramesAgree(nibble: bv8, rs: bool)
    ensures Pico.Frame(nibble, rs) == Esp.Frame(nibble, rs)
  {
  }

  /** The two writes that carry a byte to the device at 0x27. */
  function ByteWrites(b: bv8, rs: bool): seq<Event>
  {
    [Write(Pico.DeviceAddress, Pico.Frame(High(b), rs)), Write(Pico.DeviceAddress, Pico.Frame(Low(b), rs))]
  }

  /** The four wake-up writes, the same in both variants. */
  function WakeWrites(): seq<Event>
  {
    [Write(Pico.DeviceAddress, Pico.Frame(0x30, false)), Write(Pico.DeviceAddress, Pico.Frame(0x30, false)),
     Write(Pico.DeviceAddress, Pico.Frame(0x30, false)), Write(Pico.DeviceAddress, Pico.Frame(0x20, false))]
  }

  /** Both halves written, with a delay after each. */
  lemma HalvesWrites(w0: Event, d0: Event, w1: Event, d1: Event)
    requires w0.Write? && w1.Write? && d0.Delay? && d1.Delay?
    ensures Writes([w0] + [d0] + [w1] + [d1]) == [w0, w1]
  {
    WritesAppend([w0] + [d0] + [w1], [d1]);
    WritesAppend([w0] + [d0], [w1]);
    WritesAppend([w0], [d0]);
    WritesOne(w0);
    WritesOne(d0);
    WritesOne(w1);
    WritesOne(d1);
  }

  /** A Pico command whose two writes succeed writes the byte. */
  lemma PicoCommandWrites(bus: nat -> int, k: nat, cmd: bv8)
    requires bus(k) == 2 && bus(k + 1) == 2
    ensures var r := Pico.CommandRun(bus, k, cmd);
      r.used == 2 && r.status == 0 && Writes(r.events) == ByteWrites(cmd, false)
  {
    HalvesWrites(Write(Pico.DeviceAddress, Pico.Frame(High(cmd), false)), Delay(2),
                 Write(Pico.DeviceAddress, Pico.Frame(Low(cmd), false)), Delay(2));
  }

  /** A Pico character whose two writes succeed writes the byte. */
  lemma PicoCharWrites(bus: nat -> int, k: nat, c: bv8)
    requires bus(k) == 2 && bus(k + 1) == 2
    ensures var r := Pico.CharRun(bus, k, c);
      r.used == 2 && r.status == 0 && Writes(r.events) == ByteWrites(c, true)
  {
    HalvesWrites(Write(Pico.DeviceAddress, Pico.Frame(High(c), true)), Delay(2),
                 Write(Pico.DeviceAddress, Pico.Frame(Low(c), true)), Delay(2));
  }

  /** An ESP32 command or character to the device at 0x27 writes the byte. */
  lemma EspByteWrites(b: bv8, rs: bool)
    ensures Writes(Esp.ByteEvents(Pico.DeviceAddress, b, rs)) == ByteWrites(b, rs)
  {
    var w0 := Write(Pico.DeviceAddress, Esp.Frame(High(b), rs));
    var w1 := Write(Pico.DeviceAddress, Esp.Frame(Low(b), rs));
    FramesAgree(High(b), rs);
    FramesAgree(Low(b), rs);
    WritesAppend([w0, Delay(2)] + [Delay(2)] + [w1, Delay(2)], [Delay(2)]);
    WritesAppend([w0, Delay(2)] + [Delay(2)], [w1, Delay(2)]);
    WritesAppend([w0, Delay(2)], [Delay(2)]);
    HalvesWrites(w0, Delay(2), w1, Delay(2));
    assert [w0, Delay(2)] == [w0] + [Delay(2)] && [w1, Delay(2)] == [w1] + [Delay(2)];
    WritesAppend([w0] + [Delay(2)], [w1] + [Delay(2)]);
    WritesOne(Delay(2));
  }

  /** A step of a layout plan, on a reliable transport, writes the same in
      both variants. */
  lemma StepWritesAgree(bus: nat -> int, k: nat, st: Step)
    requires Pico.Reliable(bus)
    ensures var r := Pico.StepRun(bus, k, st);
      r.status && r.used == 2 && Writes(r.events) == Writes(Esp.StepEvents(Pico.DeviceAddress, st))
  {
    assert bus(k) == 2 && bus(k + 1) == 2;
    match st
    case Put(c) =>
      PicoCharWrites(bus, k, c);
      EspByteWrites(c, true);
    case Wrap =>
      var c := Pico.CommandRun(bus, k, DdramAddress(0, 1));
      PicoCommandWrites(bus, k, DdramAddress(0, 1));
      WritesAppend(c.events, [Delay(10)]);
      WritesOne(Delay(10));
      EspByteWrites(DdramAddress(0, 1), false);
  }

  /** A whole plan, on a reliable transport, writes the same in both
      variants, two writes per step. */
  lemma {:induction false} PlanWritesAgree(bus: nat -> int, k: nat, p: seq<Step>)
    requires Pico.Reliable(bus)
    ensures var r := Pico.Carry(bus, k, p);
      r.status && r.used == 2 * |p| && Writes(r.events) == Writes(Esp.PlanEvents(Pico.DeviceAddress, p))
    decreases |p|
  {
    if p != [] {
      var r := Pico.StepRun(bus, k, p[0]);
      StepWritesAgree(bus, k, p[0]);
      PlanWritesAgree(bus, k + 2, p[1..]);
      WritesAppend(r.events, Pico.Carry(bus, k + 2, p[1..]).events);
      WritesAppend(Esp.StepEvents(Pico.DeviceAddress, p[0]), Esp.PlanEvents(Pico.DeviceAddress, p[1..]));
    }
  }

  /** The clear command writes the same in both variants. */
  lemma ClearWritesAgree(bus: nat -> int, k: nat)
    requires Pico.Reliable(bus)
    ensures var c := Pico.ClearRun(bus, k);
      && c.used == 2 && Writes(c.events) == ByteWrites(ClearScreen, false)
      && Writes(c.events) == Writes(Esp.ClearEvents(Pico.DeviceAddress))
  {
    assert bus(k) == 2 && bus(k + 1) == 2;
    PicoCommandWrites(bus, k, ClearScreen);
    WritesAppend(Pico.CommandRun(bus, k, ClearScreen).events, [Delay(10)]);
    EspByteWrites(ClearScreen, false);
    WritesAppend(Esp.ByteEvents(Pico.DeviceAddress, ClearScreen, false), [Delay(10)]);
    WritesOne(Delay(10));
  }

  /** `lcd_1602_send_string` on a transport that accepts every frame: the
      Pico variant writes exactly what the ESP32 variant writes to 0x27, in
      the same order, and both return the same result. */
  lemma StringWritesAgree(bus: nat -> int, k: nat, s: Text)
    requires Pico.Reliable(bus)
    ensures var a := Pico.StringRun(bus, k, s);
      var b := Esp.StringRun(Pico.DeviceAddress, s);
      && Writes(a.events) == Writes(b.events) && a.used == b.used
      && (a.status == Pico.Finished <==> b.status == Esp.Finished)
      && (a.status == Pico.Interrupted <==> b.status == Esp.Interrupted)
      && a.status != Pico.FailedSend
  {
    var p := Layout.Layout(s);
    var c := Pico.ClearRun(bus, k);
    Pico.StringFollowsLayout(bus, k, s);
    Esp.StringFollowsLayout(Pico.DeviceAddress, s);
    ClearWritesAgree(bus, k);
    PlanWritesAgree(bus, k + 2, p.steps);
    WritesAppend(c.events, Pico.Carry(bus, k + 2, p.steps).events);
    WritesAppend(Esp.ClearEvents(Pico.DeviceAddress), Esp.PlanEvents(Pico.DeviceAddress, p.steps));
  }

  /** A transport that makes every write fail. */
  ghost predicate Failing(bus: nat -> int)
  {
    forall j: nat :: bus(j) != 2
  }

  /** On a transport that fails every write, a string whose first byte is
      neither a newline nor the terminator is where the variants part: the
      Pico variant gives up after two writes (the high nibble of the clear
      command and of the character) and reports FAILED_SEND, while the
      ESP32 variant sends the whole layout and reports what it would on a
      working transport. */
  lemma FailingString(bus: nat -> int, k: nat, s: Text)
    requires Failing(bus)
    requires Layout.Layout(s).steps != [] && Layout.Layout(s).steps[0].Put?
    ensures var a := Pico.StringRun(bus, k, s);
      a.status == Pico.FailedSend && a.used == 2
    ensures var b := Esp.StringRun(Pico.DeviceAddress, s);
      && b.used == 2 + 2 * |Layout.Layout(s).steps|
      && b.status == if Layout.Layout(s).stop == Overflow then Esp.Interrupted else Esp.Finished
  {
    assert bus(k) != 2 && bus(k + 1) != 2;
    Pico.StringFollowsLayout(bus, k, s);
    Esp.StringFollowsLayout(Pico.DeviceAddress, s);
  }

  /** A nibble transfer and the delay after it: one write. */
  lemma NibbleWrites(w: Event, d: Event)
    requires w.Write? && d.Delay?
    ensures Writes([w] + [d]) == [w]
  {
    WritesAppend([w], [d]);
    WritesOne(w);
    WritesOne(d);
  }

  /** The Pico wake-up writes the four wake-up nibbles. */
  lemma PicoWakeWrites()
    ensures Writes(Pico.WakeUp) == WakeWrites()
  {
    var w0 := Write(Pico.DeviceAddress, Pico.Frame(0x30, false));
    var w1 := Write(Pico.DeviceAddress, Pico.Frame(0x20, false));
    var x0 := [Delay(50)];
    var x1 := x0 + ([w0] + [Delay(5)]);
    var x2 := x1 + ([w0] + [Delay(5)]);
    var x3 := x2 + ([w0] + [Delay(5)]);
    assert Pico.WakeUp == x3 + ([w1] + [Delay(5)]);
    WritesOne(Delay(50));
    NibbleWrites(w0, Delay(5));
    NibbleWrites(w1, Delay(5));
    WritesAppend(x0, [w0] + [Delay(5)]);
    WritesAppend(x1, [w0] + [Delay(5)]);
    WritesAppend(x2, [w0] + [Delay(5)]);
    WritesAppend(x3, [w1] + [Delay(5)]);
  }

  /** The ESP32 wake-up to 0x27 writes the same four nibbles. */
  lemma EspWakeWrites()
    ensures Writes(Esp.WakeUp(Pico.DeviceAddress)) == WakeWrites()
  {
    var a := Pico.DeviceAddress;
    FramesAgree(0x30, false);
    FramesAgree(0x20, false);
    var n0 := Esp.NibbleEvents(a, 0x30, false);
    var n1 := Esp.NibbleEvents(a, 0x20, false);
    assert n0 == [Write(a, Esp.Frame(0x30, false))] + [Delay(2)];
    assert n1 == [Write(a, Esp.Frame(0x20, false))] + [Delay(2)];
    NibbleWrites(Write(a, Esp.Frame(0x30, false)), Delay(2));
    NibbleWrites(Write(a, Esp.Frame(0x20, false)), Delay(2));
    var x0 := [Delay(15)];
    var x1 := x0 + n0;
    var x2 := x1 + [Delay(5)];
    var x3 := x2 + n0;
    var x4 := x3 + [Delay(2)];
    var x5 := x4 + n0;
    var x6 := x5 + [Delay(2)];
    assert Esp.WakeUp(a) == x6 + n1;
    WritesOne(Delay(15));
    WritesOne(Delay(5));
    WritesOne(Delay(2));
    WritesAppend(x0, n0);
    WritesAppend(x1, [Delay(5)]);
    WritesAppend(x2, n0);
    WritesAppend(x3, [Delay(2)]);
    WritesAppend(x4, n0);
    WritesAppend(x5, [Delay(2)]);
    WritesAppend(x6, n1);
  }

  /** Pico `lcd_1602_init` on a reliable transport: the wake-up, then
      function set 0x28, display control 0x0C, clear 0x01 and entry mode
      0x06. */
  lemma PicoInitWrites(bus: nat -> int, k: nat)
    requires Pico.Reliable(bus)
    ensures Writes(Pico.InitRun(bus, k).events)
      == WakeWrites() + ByteWrites(0x28, false) + ByteWrites(0x0C, false)
         + ByteWrites(0x01, false) + ByteWrites(0x06, false)
  {
    StandardSettings();
    assert FunctionSet(DataLen4Bit, Commands.TwoRows, Pico.Font5x8) == 0x28;
    assert bus(k + 4) == 2 && bus(k + 5) == 2 && bus(k + 6) == 2 && bus(k + 7) == 2;
    assert bus(k + 10) == 2 && bus(k + 11) == 2;
    var f := Pico.CommandRun(bus, k + 4, 0x28);
    var d := Pico.CommandRun(bus, k + 6, 0x0C);
    var c := Pico.ClearRun(bus, k + 8);
    var e := Pico.CommandRun(bus, k + 10, 0x06);
    PicoCommandWrites(bus, k + 4, 0x28);
    PicoCommandWrites(bus, k + 6, 0x0C);
    ClearWritesAgree(bus, k + 8);
    PicoCommandWrites(bus, k + 10, 0x06);
    assert Pico.InitRun(bus, k).events == Pico.WakeUp + f.events + d.events + c.events + e.events;
    PicoWakeWrites();
    WritesAppend(Pico.WakeUp, f.events);
    WritesAppend(Pico.WakeUp + f.events, d.events);
    WritesAppend(Pico.WakeUp + f.events + d.events, c.events);
    WritesAppend(Pico.WakeUp + f.events + d.events + c.events, e.events);
  }

  /** ESP32 `lcd_1602_init` to 0x27: the wake-up, then function set 0x2C,
      display control 0x0C, clear 0x01 and entry mode 0x07. */
  lemma EspInitWrites()
    ensures Writes(Esp.InitEvents(Pico.DeviceAddress))
      == WakeWrites() + ByteWrites(0x2C, false) + ByteWrites(0x0C, false)
         + ByteWrites(0x01, false) + ByteWrites(0x07, false)
  {
    var a := Pico.DeviceAddress;
    Esp.InitCommands(a);
    var x0 := Esp.WakeUp(a);
    var x1 := x0 + Esp.ByteEvents(a, 0x2C, false);
    var x2 := x1 + Esp.ByteEvents(a, 0x0C, false);
    var x3 := x2 + Esp.ByteEvents(a, 0x01, false);
    var x4 := x3 + [Delay(10)];
    EspWakeWrites();
    EspByteWrites(0x2C, false);
    EspByteWrites(0x0C, false);
    EspByteWrites(0x01, false);
    EspByteWrites(0x07, false);
    WritesOne(Delay(10));
    WritesAppend(x0, Esp.ByteEvents(a, 0x2C, false));
    WritesAppend(x1, Esp.ByteEvents(a, 0x0C, false));
    WritesAppend(x2, Esp.ByteEvents(a, 0x01, false));
    WritesAppend(x3, [Delay(10)]);
    WritesAppend(x4, Esp.ByteEvents(a, 0x07, false));
  }

  /** The power-on sequences write the same twelve frames but two: the low
      nibble of function set (write 5: 0x8 with the 5x8 font on the Pico,
      0xC with the 5x10 font on the ESP32) and of entry mode (write 11: 0x6
      without, 0x7 with the move-on-write option). */
  lemma InitsDiffer(bus: nat -> int, k: nat)
    requires Pico.Reliable(bus)
    ensures var a := Writes(Pico.InitRun(bus, k).events);
      var b := Writes(Esp.InitEvents(Pico.DeviceAddress));
      && |a| == 12 && |b| == 12
      && (forall j :: 0 <= j < 12 && j != 5 && j != 11 ==> a[j] == b[j])
      && a[5] == Write(Pico.DeviceAddress, Pico.Frame(0x80, false))
      && b[5] == Write(Pico.DeviceAddress, Pico.Frame(0xC0, false))
      && a[11] == Write(Pico.DeviceAddress, Pico.Frame(0x60, false))
      && b[11] == Write(Pico.DeviceAddress, Pico.Frame(0x70, false))
      && a[5] != b[5] && a[11] != b[11]
  {
    PicoInitWrites(bus, k);
    EspInitWrites();
  }
}
