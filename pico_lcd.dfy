/** The Raspberry Pi Pico variant of the driver (main/src/lcd_1602.c): every
    helper reports the status of its last transfer, `send_command` and
    `send_char` give up after a failed first nibble, and
    `lcd_1602_send_string` stops at the first character that fails.

    The I2C transport is an oracle: `bus(k)` is what `i2c_write_blocking`
    returns for the k-th write of the driver (the number of bytes written, or
    a negative error code), and a write succeeds exactly when that is the
    frame length 2.  Each operation is specified by a function of the oracle
    and the number of writes issued before it, giving the events it records,
    how many writes it issues and what it returns. */
module PicoLcd {
  import opened Commands
  import opened Framing
  import opened Layout

  const DeviceAddress: bv8 := 0x27   // DEVICE_ADDRESS

  /** The font option passed at power-on.  LCD_1602_FONT_5X8 is defined in no
      header of the repository; 0x00 is assumed, the 5x8 font the controller
      uses when the font bit is clear. */
  const Font5x8: bv8 := 0x00

  /** LCD_WRITE_STATUS of the Pico variant, with LCD_WRITE_FAILED_SEND. */
  datatype WriteStatus = Finished | NotFinished | Interrupted | TooLongString | FailedSend

  /** `i2c_write_data` for a two-byte frame: 0 when all bytes went out, else 1. */
  function TransferStatus(reply: int): (err: bv8)
    ensures err <= 1
    ensures err == 0 <==> reply == 2
  {
    if reply == 2 then 0 else 1
  }

  /** The frame `write_nibble` builds for a nibble and register-select flag. */
  function Frame(nibble: bv8, rs: bool): seq<bv8>
  {
    var data := ((nibble & 0xF0) | (if rs then RegisterSelect else 0) | Backlight) & !ReadWrite;
    [data | Enable, data & !Enable]
  }

  /** `write_nibble` sends two bytes that differ only in the enable bit: the
      nibble in bits 7-4, backlight on, R/W clear, RS as requested, enable
      set in the first byte and clear in the second. */
  lemma FrameIsWellFramed(nibble: bv8, rs: bool)
    ensures WellFramed(Frame(nibble, rs), nibble, rs)
    ensures Frame(nibble, rs)[0] == Frame(nibble, rs)[1] | Enable
    ensures Frame(nibble, rs)[1] == Frame(nibble, rs)[0] & !Enable
  {
  }

  /** `write_nibble` keeps only the high four bits of its argument: nibbles
      that agree there give the same frame. */
  lemma FrameIgnoresLowBits(n: bv8, m: bv8, rs: bool)
    requires n & 0xF0 == m & 0xF0
    ensures Frame(n, rs) == Frame(m, rs)
  {
    FrameIsWellFramed(n, rs);
    FrameIsWellFramed(m, rs);
    WellFramedUnique(Frame(n, rs), Frame(m, rs), n, m, rs);
  }

  // Specification of each helper, started after `k` writes

  function NibbleRun(bus: nat -> int, k: nat, nibble: bv8, rs: bool): Run<bv8>
  {
    Run([Write(DeviceAddress, Frame(nibble, rs))], 1, TransferStatus(bus(k)))
  }

  /** `send_command`: a failed high nibble is returned at once, with neither
      the low nibble nor any delay. */
  function CommandRun(bus: nat -> int, k: nat, cmd: bv8): Run<bv8>
  {
    var hi := NibbleRun(bus, k, High(cmd), false);
    if hi.status != 0 then hi
    else
      var lo := NibbleRun(bus, k + 1, Low(cmd), false);
      Run(hi.events + [Delay(2)] + lo.events + [Delay(2)], 2, lo.status)
  }

  /** `send_char`: like a command with RS set, except that the 2 ms delay
      after the high nibble comes before its status is looked at. */
  function CharRun(bus: nat -> int, k: nat, c: bv8): Run<bv8>
  {
    var hi := NibbleRun(bus, k, High(c), true);
    if hi.status != 0 then Run(hi.events + [Delay(2)], 1, hi.status)
    else
      var lo := NibbleRun(bus, k + 1, Low(c), true);
      Run(hi.events + [Delay(2)] + lo.events + [Delay(2)], 2, lo.status)
  }

  function ClearRun(bus: nat -> int, k: nat): Run<bv8>
  {
    var c := CommandRun(bus, k, ClearScreen);
    Run(c.events + [Delay(10)], c.used, c.status)
  }

  function GotoRun(bus: nat -> int, k: nat, x: bv8, y: bv8): Run<bv8>
  {
    var c := CommandRun(bus, k, DdramAddress(x, y));
    Run(c.events + [Delay(10)], c.used, c.status)
  }

  /** One step of the layout plan; the status says whether the loop goes on.
      A wrap's own status is discarded. */
  function StepRun(bus: nat -> int, k: nat, st: Step): Run<bool>
  {
    match st
    case Put(c) =>
      var r := CharRun(bus, k, c);
      Run(r.events, r.used, r.status == 0)
    case Wrap =>
      var r := GotoRun(bus, k, 0, 1);
      Run(r.events, r.used, true)
  }

  /** The steps of a plan carried out one after the other, up to the first
      that fails: that one is the last carried out, and the status of the
      whole is false. */
  function Carry(bus: nat -> int, k: nat, p: seq<Step>): Run<bool>
    decreases |p|
  {
    if p == [] then Run([], 0, true)
    else
      var r := StepRun(bus, k, p[0]);
      if !r.status then r
      else
        var rest := Carry(bus, k + r.used, p[1..]);
        Run(r.events + rest.events, r.used + rest.used, rest.status)
  }

  /** A layout plan carried out from `k` writes on, up to the first step
      that fails: FAILED_SEND when one does, else INTERRUPTED when the plan
      runs out of rows, else FINISHED. */
  function Planned(bus: nat -> int, k: nat, p: Plan): Run<WriteStatus>
  {
    var r := Carry(bus, k, p.steps);
    Run(r.events, r.used, if !r.status then FailedSend else if p.stop == Overflow then Interrupted else Finished)
  }

  /** `lcd_1602_send_string`: the clear command (its status discarded), then
      the loop over the string. */
  function StringRun(bus: nat -> int, k: nat, s: Text): Run<WriteStatus>
  {
    var c := ClearRun(bus, k);
    var r := Loop(bus, k + c.used, s, 0, 0, 0);
    Run(c.events + r.events, c.used + r.used, r.status)
  }

  /** The loop of `lcd_1602_send_string` from position `i` of the string,
      with `column` characters on the current row and `row` wraps done,
      started after `k` writes: it ends at the terminator, else it makes a
      pass. */
  function Loop(bus: nat -> int, k: nat, s: Text, i: nat, column: nat, row: nat): Run<WriteStatus>
    decreases |s| - i, 1
  {
    if i >= |s| || s[i] == Terminator then Run([], 0, Finished)
    else Pass(bus, k, s, i, column, row)
  }

  /** One pass of the loop and the rest of the loop after it.  A wrap's own
      status is discarded. */
  function Pass(bus: nat -> int, k: nat, s: Text, i: nat, column: nat, row: nat): Run<WriteStatus>
    requires i < |s|
    decreases |s| - i, 0
  {
    if IsTrigger(s[i], column) then
      if row < MaxRows then
        var g := GotoRun(bus, k, 0, 1);
        var r := Loop(bus, k + g.used, s, i + 1, 0, row + 1);
        Run(g.events + r.events, g.used + r.used, r.status)
      else Run([], 0, Interrupted)
    else
      var c := CharRun(bus, k, s[i]);
      if c.status != 0 then Run(c.events, c.used, FailedSend)
      else
        var r := Loop(bus, k + c.used, s, i + 1, column + 1, row);
        Run(c.events + r.events, c.used + r.used, r.status)
  }

  /** What is still to come of the loop, after the trace `t` and `w`
      writes, ends with the trace `tEnd`, `wEnd` writes and `status`. */
  predicate Pending(bus: nat -> int, s: Text, i: nat, column: nat, row: nat,
                    t: seq<Event>, w: nat, tEnd: seq<Event>, wEnd: nat, status: WriteStatus)
  {
    var r := Loop(bus, w, s, i, column, row);
    t + r.events == tEnd && w + r.used == wEnd && r.status == status
  }

  /** A pass of the loop that wraps. */
  lemma WrapPass(bus: nat -> int, s: Text, i: nat, column: nat, row: nat, t: seq<Event>, t': seq<Event>,
                 w: nat, w': nat, tEnd: seq<Event>, wEnd: nat, status: WriteStatus)
    requires i < |s| && s[i] != Terminator && IsTrigger(s[i], column) && row < MaxRows
    requires Pending(bus, s, i, column, row, t, w, tEnd, wEnd, status)
    requires t' == t + GotoRun(bus, w, 0, 1).events && w' == w + GotoRun(bus, w, 0, 1).used
    ensures Pending(bus, s, i + 1, 0, row + 1, t', w', tEnd, wEnd, status)
  {
    assert Loop(bus, w, s, i, column, row) == Pass(bus, w, s, i, column, row);
    AppendAssoc(t, GotoRun(bus, w, 0, 1).events, Loop(bus, w', s, i + 1, 0, row + 1).events);
  }

  /** A pass of the loop that sends its character. */
  lemma PutPass(bus: nat -> int, s: Text, i: nat, column: nat, row: nat, t: seq<Event>, t': seq<Event>,
                w: nat, w': nat, tEnd: seq<Event>, wEnd: nat, status: WriteStatus)
    requires i < |s| && s[i] != Terminator && !IsTrigger(s[i], column) && CharRun(bus, w, s[i]).status == 0
    requires Pending(bus, s, i, column, row, t, w, tEnd, wEnd, status)
    requires t' == t + CharRun(bus, w, s[i]).events && w' == w + CharRun(bus, w, s[i]).used
    ensures Pending(bus, s, i + 1, column + 1, row, t', w', tEnd, wEnd, status)
  {
    assert Loop(bus, w, s, i, column, row) == Pass(bus, w, s, i, column, row);
    AppendAssoc(t, CharRun(bus, w, s[i]).events, Loop(bus, w', s, i + 1, column + 1, row).events);
  }

  /** A pass of the loop whose character fails: the loop is over. */
  lemma FailPass(bus: nat -> int, s: Text, i: nat, column: nat, row: nat, t: seq<Event>, t': seq<Event>,
                 w: nat, w': nat, tEnd: seq<Event>, wEnd: nat, status: WriteStatus)
    requires i < |s| && s[i] != Terminator && !IsTrigger(s[i], column) && CharRun(bus, w, s[i]).status != 0
    requires Pending(bus, s, i, column, row, t, w, tEnd, wEnd, status)
    requires t' == t + CharRun(bus, w, s[i]).events && w' == w + CharRun(bus, w, s[i]).used
    ensures t' == tEnd && w' == wEnd && status == FailedSend
  {
    assert Loop(bus, w, s, i, column, row) == Pass(bus, w, s, i, column, row);
  }

  /** The loop ends at the terminator, or on a wrap with no row left. */
  lemma LastPass(bus: nat -> int, s: Text, i: nat, column: nat, row: nat,
                 t: seq<Event>, w: nat, tEnd: seq<Event>, wEnd: nat, status: WriteStatus)
    requires i >= |s| || s[i] == Terminator || (IsTrigger(s[i], column) && row >= MaxRows)
    requires Pending(bus, s, i, column, row, t, w, tEnd, wEnd, status)
    ensures t == tEnd && w == wEnd
    ensures status == if i >= |s| || s[i] == Terminator then Finished else Interrupted
  {
    if i < |s| && s[i] != Terminator {
      assert Loop(bus, w, s, i, column, row) == Pass(bus, w, s, i, column, row);
    }
    assert t + [] == t;
  }

  /** The loop from position `i` is the layout plan of the rest of the
      string, carried out. */
  lemma {:induction false} LoopIsPlan(bus: nat -> int, k: nat, s: Text, i: nat, column: nat, row: nat)
    ensures Loop(bus, k, s, i, column, row) == Planned(bus, k, LayoutFrom(s, i, column, row))
    decreases |s| - i, 1
  {
    if i < |s| && s[i] != Terminator {
      if !IsTrigger(s[i], column) {
        PutIsPlan(bus, k, s, i, column, row);
      } else if row < MaxRows {
        WrapIsPlan(bus, k, s, i, column, row);
      }
      assert Loop(bus, k, s, i, column, row) == Pass(bus, k, s, i, column, row);
    }
  }

  /** A pass that wraps is the wrap step of the plan. */
  lemma {:induction false} WrapIsPlan(bus: nat -> int, k: nat, s: Text, i: nat, column: nat, row: nat)
    requires i < |s| && s[i] != Terminator && IsTrigger(s[i], column) && row < MaxRows
    ensures Pass(bus, k, s, i, column, row) == Planned(bus, k, LayoutFrom(s, i, column, row))
    decreases |s| - i, 0
  {
    var q := LayoutFrom(s, i + 1, 0, row + 1).steps;
    assert ([Wrap] + q)[0] == Wrap && ([Wrap] + q)[1..] == q;
    LoopIsPlan(bus, k + GotoRun(bus, k, 0, 1).used, s, i + 1, 0, row + 1);
  }

  /** A pass that sends its character is the put step of the plan. */
  lemma {:induction false} PutIsPlan(bus: nat -> int, k: nat, s: Text, i: nat, column: nat, row: nat)
    requires i < |s| && s[i] != Terminator && !IsTrigger(s[i], column)
    ensures Pass(bus, k, s, i, column, row) == Planned(bus, k, LayoutFrom(s, i, column, row))
    decreases |s| - i, 0
  {
    var q := LayoutFrom(s, i + 1, column + 1, row).steps;
    assert ([Put(s[i])] + q)[0] == Put(s[i]) && ([Put(s[i])] + q)[1..] == q;
    if CharRun(bus, k, s[i]).status == 0 {
      LoopIsPlan(bus, k + CharRun(bus, k, s[i]).used, s, i + 1, column + 1, row);
    }
  }

  /** The start of `lcd_1602_init`: wait 50 ms, then three 0x30 nibbles and a
      0x20 nibble, each followed by 5 ms (the controller's wake-up and the
      switch to 4-bit mode).  Their statuses are discarded, so these events
      do not depend on the transport. */
  const WakeUp: seq<Event> := [
    Delay(50),
    Write(DeviceAddress, Frame(0x30, false)), Delay(5),
    Write(DeviceAddress, Frame(0x30, false)), Delay(5),
    Write(DeviceAddress, Frame(0x30, false)), Delay(5),
    Write(DeviceAddress, Frame(0x20, false)), Delay(5)
  ]

  /** `lcd_1602_init`: the wake-up, then function set (4-bit data, two rows,
      5x8 font), display on with cursor and blink off, clear, and entry mode
      (increment, no display shift); every status is discarded and the
      result is 0. */
  function InitRun(bus: nat -> int, k: nat): Run<bv8>
  {
    var f := CommandRun(bus, k + 4, FunctionSet(DataLen4Bit, Commands.TwoRows, Font5x8));
    var d := CommandRun(bus, k + 4 + f.used, DisplaySwitch(DisplayOn, CursorOff, NoBlinkDisplay));
    var c := ClearRun(bus, k + 4 + f.used + d.used);
    var e := CommandRun(bus, k + 4 + f.used + d.used + c.used, InputSet(IncrementMode, CursorNoMove));
    Run(WakeUp + f.events + d.events + c.events + e.events, 4 + f.used + d.used + c.used + e.used, 0)
  }

  /** The wake-up as the method issues it, one call at a time. */
  lemma WakeUpTrace(t: seq<Event>, t': seq<Event>)
    requires t' == t + [Delay(50)]
      + [Write(DeviceAddress, Frame(0x30, false))] + [Delay(5)]
      + [Write(DeviceAddress, Frame(0x30, false))] + [Delay(5)]
      + [Write(DeviceAddress, Frame(0x30, false))] + [Delay(5)]
      + [Write(DeviceAddress, Frame(0x20, false))] + [Delay(5)]
    ensures t' == t + WakeUp
  {
  }

  /** The configuration commands as the method issues them, the first
      after `w` writes. */
  lemma InitTrace(bus: nat -> int, k: nat, w: nat, f: Run<bv8>, d: Run<bv8>, c: Run<bv8>, e: Run<bv8>,
                  t: seq<Event>, t': seq<Event>, w': nat)
    requires w == k + 4
    requires f == CommandRun(bus, w, FunctionSet(DataLen4Bit, Commands.TwoRows, Font5x8))
    requires d == CommandRun(bus, w + f.used, DisplaySwitch(DisplayOn, CursorOff, NoBlinkDisplay))
    requires c == ClearRun(bus, w + f.used + d.used)
    requires e == CommandRun(bus, w + f.used + d.used + c.used, InputSet(IncrementMode, CursorNoMove))
    requires t' == t + WakeUp + f.events + d.events + c.events + e.events
    requires w' == w + f.used + d.used + c.used + e.used
    ensures t' == t + InitRun(bus, k).events && w' == k + InitRun(bus, k).used
  {
    assert InitRun(bus, k) == Run(WakeUp + f.events + d.events + c.events + e.events,
                                  4 + f.used + d.used + c.used + e.used, 0);
    AppendAssoc(t, WakeUp, f.events);
    AppendAssoc(t, WakeUp + f.events, d.events);
    AppendAssoc(t, WakeUp + f.events + d.events, c.events);
    AppendAssoc(t, WakeUp + f.events + d.events + c.events, e.events);
  }

  /** The driver's observable state: the transport it writes to, the number
      of writes issued so far and the trace of writes and delays. */
  class Driver {
    const bus: nat -> int
    var writes: nat
    var trace: seq<Event>

    constructor(bus: nat -> int)
      ensures this.bus == bus && writes == 0 && trace == []
    {
      this.bus := bus;
      writes := 0;
      trace := [];
    }

    /** `non_blocking_delay_ms`. */
    method DelayMs(ms: nat)
      modifies this
      ensures trace == old(trace) + [Delay(ms)] && writes == old(writes)
    {
      trace := trace + [Delay(ms)];
    }

    /** `write_nibble`: build the two-byte strobe for the nibble and write it
        to the device. */
    method WriteNibble(nibble: bv8, rs: bool) returns (err: bv8)
      modifies this
      ensures var r := NibbleRun(bus, old(writes), nibble, rs);
        trace == old(trace) + r.events && writes == old(writes) + r.used && err == r.status
    {
      var data := nibble & 0xF0;
      if rs {
        data := data | RegisterSelect;
      }
      data := data | Backlight;
      data := data & !ReadWrite;
      var sequence := new bv8[2];
      sequence[0] := data | Enable;
      sequence[1] := data & !Enable;
      assert data == ((nibble & 0xF0) | (if rs then RegisterSelect else 0) | Backlight) & !ReadWrite;
      assert sequence[..] == Frame(nibble, rs);
      err := TransferStatus(bus(writes));
      trace := trace + [Write(DeviceAddress, sequence[..])];
      writes := writes + 1;
    }

    method SendCommand(cmd: bv8) returns (err: bv8)
      modifies this
      ensures var r := CommandRun(bus, old(writes), cmd);
        trace == old(trace) + r.events && writes == old(writes) + r.used && err == r.status
    {
      ghost var t0 := trace;
      var high := High(cmd);
      var low := Low(cmd);
      err := WriteNibble(high, false);
      if err != 0 {
        return;
      }
      ghost var hi := trace[|t0|..];
      DelayMs(2);
      AppendAssoc(t0, hi, [Delay(2)]);
      err := WriteNibble(low, false);
      AppendAssoc(t0, hi + [Delay(2)], trace[|t0| + 2..]);
      ghost var lo := trace[|t0| + 2..];
      DelayMs(2);
      AppendAssoc(t0, hi + [Delay(2)] + lo, [Delay(2)]);
    }

    method SendChar(c: bv8) returns (err: bv8)
      modifies this
      ensures var r := CharRun(bus, old(writes), c);
        trace == old(trace) + r.events && writes == old(writes) + r.used && err == r.status
    {
      ghost var t0 := trace;
      var high := High(c);
      var low := Low(c);
      err := WriteNibble(high, true);
      ghost var hi := trace[|t0|..];
      DelayMs(2);
      AppendAssoc(t0, hi, [Delay(2)]);
      if err != 0 {
        return;
      }
      err := WriteNibble(low, true);
      AppendAssoc(t0, hi + [Delay(2)], trace[|t0| + 2..]);
      ghost var lo := trace[|t0| + 2..];
      DelayMs(2);
      AppendAssoc(t0, hi + [Delay(2)] + lo, [Delay(2)]);
    }

    method ClearScreen() returns (err: bv8)
      modifies this
      ensures var r := ClearRun(bus, old(writes));
        trace == old(trace) + r.events && writes == old(writes) + r.used && err == r.status
    {
      ghost var t0 := trace;
      ghost var k0 := writes;
      err := SendCommand(Commands.ClearScreen);
      DelayMs(10);
      AppendAssoc(t0, CommandRun(bus, k0, Commands.ClearScreen).events, [Delay(10)]);
    }

    method Goto(x: bv8, y: bv8) returns (err: bv8)
      modifies this
      ensures var r := GotoRun(bus, old(writes), x, y);
        trace == old(trace) + r.events && writes == old(writes) + r.used && err == r.status
    {
      ghost var t0 := trace;
      ghost var k0 := writes;
      var row := y;
      if row > 1 {
        row := 1;
      }
      assert 0x80 | (RowOffsets[row] + x) == DdramAddress(x, y);
      err := SendCommand(0x80 | (RowOffsets[row] + x));
      DelayMs(10);
      AppendAssoc(t0, CommandRun(bus, k0, DdramAddress(x, y)).events, [Delay(10)]);
    }

    /** `lcd_1602_send_string`: `i` plays the string pointer, `charLen` and
        `row` the two 8-bit counters. */
    method SendString(s: Text) returns (status: WriteStatus)
      modifies this
      ensures var r := StringRun(bus, old(writes), s);
        trace == old(trace) + r.events && writes == old(writes) + r.used && status == r.status
    {
      ghost var t0 := trace;
      ghost var k0 := writes;
      var cleared := ClearScreen();
      ghost var whole := Loop(bus, writes, s, 0, 0, 0);
      AppendAssoc(t0, ClearRun(bus, k0).events, whole.events);
      ghost var tEnd := trace + whole.events;
      ghost var wEnd := writes + whole.used;
      var charLen: nat := 0;
      var row: nat := 0;
      var i: nat := 0;
      while i < |s| && s[i] != Terminator
        invariant i <= |s| && charLen <= ScreenWidth && row <= MaxRows
        invariant Pending(bus, s, i, charLen, row, trace, writes, tEnd, wEnd, whole.status)
        decreases |s| - i
      {
        ghost var t := trace;
        ghost var w := writes;
        if s[i] == Newline || charLen >= ScreenWidth {
          if row < MaxRows {
            var moved := Goto(0, 1);
            WrapPass(bus, s, i, charLen, row, t, trace, w, writes, tEnd, wEnd, whole.status);
            row := row + 1;
            charLen := 0;
            i := i + 1;
            continue;
          } else {
            LastPass(bus, s, i, charLen, row, trace, writes, tEnd, wEnd, whole.status);
            return Interrupted;
          }
        }
        var err := SendChar(s[i]);
        if err != 0 {
          FailPass(bus, s, i, charLen, row, t, trace, w, writes, tEnd, wEnd, whole.status);
          return FailedSend;
        }
        PutPass(bus, s, i, charLen, row, t, trace, w, writes, tEnd, wEnd, whole.status);
        charLen := charLen + 1;
        i := i + 1;
      }
      LastPass(bus, s, i, charLen, row, trace, writes, tEnd, wEnd, whole.status);
      return Finished;
    }

    /** `lcd_1602_init`. */
    method Init() returns (err: bv8)
      modifies this
      ensures var r := InitRun(bus, old(writes));
        trace == old(trace) + r.events && writes == old(writes) + r.used && err == r.status
    {
      ghost var t0 := trace;
      ghost var k0 := writes;
      DelayMs(50);
      var e := WriteNibble(0x30, false);
      DelayMs(5);
      e := WriteNibble(0x30, false);
      DelayMs(5);
      e := WriteNibble(0x30, false);
      DelayMs(5);
      e := WriteNibble(0x20, false);
      DelayMs(5);
      WakeUpTrace(t0, trace);
      ghost var w := writes;
      ghost var f := CommandRun(bus, writes, FunctionSet(DataLen4Bit, Commands.TwoRows, Font5x8));
      e := SendCommand(FunctionSet(DataLen4Bit, Commands.TwoRows, Font5x8));
      ghost var d := CommandRun(bus, writes, DisplaySwitch(DisplayOn, CursorOff, NoBlinkDisplay));
      e := SendCommand(DisplaySwitch(DisplayOn, CursorOff, NoBlinkDisplay));
      ghost var c := ClearRun(bus, writes);
      e := ClearScreen();
      ghost var m := CommandRun(bus, writes, InputSet(IncrementMode, CursorNoMove));
      e := SendCommand(InputSet(IncrementMode, CursorNoMove));
      InitTrace(bus, k0, w, f, d, c, m, t0, trace, writes);
      return 0;
    }
  }

  /** The layout plan of the text after the clear command, carried out up to
      the first character that fails: FAILED_SEND when one does, else
      INTERRUPTED when the plan runs out of rows, else FINISHED. */
  function PlanRun(bus: nat -> int, k: nat, s: Text): Run<WriteStatus>
  {
    var c := ClearRun(bus, k);
    var r := Planned(bus, k + c.used, Layout.Layout(s));
    Run(c.events + r.events, c.used + r.used, r.status)
  }

  /** `lcd_1602_send_string` carries out the layout plan of its text. */
  lemma StringFollowsLayout(bus: nat -> int, k: nat, s: Text)
    ensures StringRun(bus, k, s) == PlanRun(bus, k, s)
  {
    LoopIsPlan(bus, k + ClearRun(bus, k).used, s, 0, 0, 0);
  }

  // Properties

  /** A transport that accepts every frame in full. */
  ghost predicate Reliable(bus: nat -> int)
  {
    forall j: nat :: bus(j) == 2
  }

  /** `send_command` sends the high nibble first; when that write fails its
      error is returned at once, with neither the low nibble nor a delay;
      otherwise the low nibble follows, each nibble is followed by 2 ms, the
      two frames carry the command byte, and the result is the low nibble's. */
  lemma CommandOutcome(bus: nat -> int, k: nat, cmd: bv8)
    ensures var r := CommandRun(bus, k, cmd);
      && |r.events| >= 1 && r.events[0] == Write(DeviceAddress, Frame(High(cmd), false))
      && (bus(k) != 2 ==> r.events == [r.events[0]] && r.used == 1 && r.status == 1)
      && (bus(k) == 2 ==>
            && |r.events| == 4 && r.used == 2
            && r.events[1] == Delay(2) && r.events[3] == Delay(2)
            && r.events[2] == Write(DeviceAddress, Frame(Low(cmd), false))
            && Assembled(r.events[0].bytes, r.events[2].bytes) == cmd
            && (r.status == 0 <==> bus(k + 1) == 2))
  {
    FrameIsWellFramed(High(cmd), false);
    FrameIsWellFramed(Low(cmd), false);
    FramesCarryByte(Frame(High(cmd), false), Frame(Low(cmd), false), cmd, false);
  }

  /** `send_char` is the same with RS set, except that the 2 ms delay after
      the high nibble is taken even when that write fails. */
  lemma CharOutcome(bus: nat -> int, k: nat, c: bv8)
    ensures var r := CharRun(bus, k, c);
      && |r.events| >= 2 && r.events[0] == Write(DeviceAddress, Frame(High(c), true))
      && r.events[1] == Delay(2)
      && (bus(k) != 2 ==> |r.events| == 2 && r.used == 1 && r.status == 1)
      && (bus(k) == 2 ==>
            && |r.events| == 4 && r.used == 2 && r.events[3] == Delay(2)
            && r.events[2] == Write(DeviceAddress, Frame(Low(c), true))
            && Assembled(r.events[0].bytes, r.events[2].bytes) == c
            && (r.status == 0 <==> bus(k + 1) == 2))
  {
    FrameIsWellFramed(High(c), true);
    FrameIsWellFramed(Low(c), true);
    FramesCarryByte(Frame(High(c), true), Frame(Low(c), true), c, true);
  }

  /** On a transport that accepts every frame, no step of a plan fails. */
  lemma {:induction false} ReliableCarry(bus: nat -> int, k: nat, p: seq<Step>)
    requires Reliable(bus)
    ensures Carry(bus, k, p).status
    decreases |p|
  {
    if p != [] {
      assert bus(k) == 2 && bus(k + 1) == 2;
      ReliableCarry(bus, k + StepRun(bus, k, p[0]).used, p[1..]);
    }
  }

  /** `lcd_1602_send_string` on a transport that accepts every frame never
      reports FAILED_SEND: it is INTERRUPTED exactly when the layout runs out
      of rows, else FINISHED. */
  lemma ReliableString(bus: nat -> int, k: nat, s: Text)
    requires Reliable(bus)
    ensures StringRun(bus, k, s).status == if Layout.Layout(s).stop == Overflow then Interrupted else Finished
  {
    StringFollowsLayout(bus, k, s);
    ReliableCarry(bus, k + ClearRun(bus, k).used, Layout.Layout(s).steps);
  }

  /** An empty string, or one that starts with the terminator: only the
      clear command is sent, and the call finishes. */
  lemma EmptyString(bus: nat -> int, k: nat, s: Text)
    requires s == [] || s[0] == Terminator
    ensures StringRun(bus, k, s) == Run(ClearRun(bus, k).events, ClearRun(bus, k).used, Finished)
  {
    assert ClearRun(bus, k).events + [] == ClearRun(bus, k).events;
  }

  /** The write numbered `last` failed, and the trace ends with that write
      and the 2 ms delay after it. */
  ghost predicate EndsInFailedWrite(bus: nat -> int, last: nat, events: seq<Event>)
  {
    && bus(last) != 2
    && |events| >= 2 && events[|events| - 1] == Delay(2) && events[|events| - 2].Write?
  }

  /** Anything recorded before a trace leaves how it ends unchanged. */
  lemma EndsAfter(bus: nat -> int, last: nat, a: seq<Event>, events: seq<Event>)
    requires EndsInFailedWrite(bus, last, events)
    ensures EndsInFailedWrite(bus, last, a + events)
  {
    assert (a + events)[|a + events| - 1] == events[|events| - 1];
    assert (a + events)[|a + events| - 2] == events[|events| - 2];
  }

  /** A loop that fails stops right after the write that failed. */
  lemma {:induction false} LoopFailureEndsInWrite(bus: nat -> int, k: nat, s: Text, i: nat, column: nat, row: nat)
    ensures var r := Loop(bus, k, s, i, column, row);
      r.status == FailedSend ==> r.used >= 1 && EndsInFailedWrite(bus, k + r.used - 1, r.events)
    decreases |s| - i, 1
  {
    if i < |s| && s[i] != Terminator {
      if !IsTrigger(s[i], column) {
        PutFailureEndsInWrite(bus, k, s, i, column, row);
      } else if row < MaxRows {
        WrapFailureEndsInWrite(bus, k, s, i, column, row);
      }
      assert Loop(bus, k, s, i, column, row) == Pass(bus, k, s, i, column, row);
    }
  }

  /** A wrap cannot fail: a failure comes from the rest of the loop. */
  lemma {:induction false} WrapFailureEndsInWrite(bus: nat -> int, k: nat, s: Text, i: nat, column: nat, row: nat)
    requires i < |s| && IsTrigger(s[i], column) && row < MaxRows
    ensures var r := Pass(bus, k, s, i, column, row);
      r.status == FailedSend ==> r.used >= 1 && EndsInFailedWrite(bus, k + r.used - 1, r.events)
    decreases |s| - i, 0
  {
    var g := GotoRun(bus, k, 0, 1);
    var r := Loop(bus, k + g.used, s, i + 1, 0, row + 1);
    LoopFailureEndsInWrite(bus, k + g.used, s, i + 1, 0, row + 1);
    if r.status == FailedSend {
      EndsAfter(bus, k + g.used + r.used - 1, g.events, r.events);
    }
  }

  /** A character that fails ends the loop with its failed write. */
  lemma {:induction false} PutFailureEndsInWrite(bus: nat -> int, k: nat, s: Text, i: nat, column: nat, row: nat)
    requires i < |s| && !IsTrigger(s[i], column)
    ensures var r := Pass(bus, k, s, i, column, row);
      r.status == FailedSend ==> r.used >= 1 && EndsInFailedWrite(bus, k + r.used - 1, r.events)
    decreases |s| - i, 0
  {
    var c := CharRun(bus, k, s[i]);
    CharOutcome(bus, k, s[i]);
    if c.status == 0 {
      var r := Loop(bus, k + c.used, s, i + 1, column + 1, row);
      LoopFailureEndsInWrite(bus, k + c.used, s, i + 1, column + 1, row);
      if r.status == FailedSend {
        EndsAfter(bus, k + c.used + r.used - 1, c.events, r.events);
      }
    }
  }

  /** `lcd_1602_send_string` reports FAILED_SEND only right after the write
      that failed: nothing is sent after a failed character. */
  lemma FailureIsLast(bus: nat -> int, k: nat, s: Text)
    ensures var r := StringRun(bus, k, s);
      r.status == FailedSend ==> r.used >= 1 && EndsInFailedWrite(bus, k + r.used - 1, r.events)
  {
    var c := ClearRun(bus, k);
    var r := Loop(bus, k + c.used, s, 0, 0, 0);
    LoopFailureEndsInWrite(bus, k + c.used, s, 0, 0, 0);
    if r.status == FailedSend {
      EndsAfter(bus, k + c.used + r.used - 1, c.events, r.events);
    }
  }

  /** `lcd_1602_init` always returns 0 and issues between 8 and 12 writes:
      the four wake-up nibbles, then one or two per command. */
  lemma InitWrites(bus: nat -> int, k: nat)
    ensures InitRun(bus, k).status == 0
    ensures 8 <= InitRun(bus, k).used <= 12
  {
  }

  /** `lcd_1602_init` on a transport that accepts every frame: the wake-up,
      then function set 0x28 (4-bit data, two rows, 5x8 font), display
      control 0x0C, clear 0x01 with its 10 ms, and entry mode 0x06, each
      command as two nibbles 2 ms apart; 12 writes in all. */
  lemma ReliableInit(bus: nat -> int, k: nat)
    requires Reliable(bus)
    ensures InitRun(bus, k).used == 12
    ensures InitRun(bus, k).events == WakeUp + [
      Write(DeviceAddress, Frame(0x20, false)), Delay(2), Write(DeviceAddress, Frame(0x80, false)), Delay(2),
      Write(DeviceAddress, Frame(0x00, false)), Delay(2), Write(DeviceAddress, Frame(0xC0, false)), Delay(2),
      Write(DeviceAddress, Frame(0x00, false)), Delay(2), Write(DeviceAddress, Frame(0x10, false)), Delay(2),
      Delay(10),
      Write(DeviceAddress, Frame(0x00, false)), Delay(2), Write(DeviceAddress, Frame(0x60, false)), Delay(2)]
  {
    assert FunctionSet(DataLen4Bit, Commands.TwoRows, Font5x8) == 0x28;
    assert DisplaySwitch(DisplayOn, CursorOff, NoBlinkDisplay) == 0x0C;
    assert InputSet(IncrementMode, CursorNoMove) == 0x06;
    assert bus(k + 4) == 2 && bus(k + 6) == 2 && bus(k + 8) == 2 && bus(k + 10) == 2;
  }
}
