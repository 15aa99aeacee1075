/** The ESP32 variant of the driver (lcd_1602.c): every transmit is followed
    by 2 ms inside `write_nibble`, `send_command` and `send_char` always send
    both nibbles and report the second one's status, and
    `lcd_1602_send_string` and `lcd_1602_init` discard every status.

    The I2C transport is an oracle: `bus(k)` is the `esp_err_t` that
    `i2c_master_transmit` returns for the k-th transmit of the driver
    (ESP_OK is 0).  What the driver sends does not depend on those replies;
    only the statuses the helpers return do. */
module EspLcd {
  import opened Commands
  import opened Framing
  import opened Layout

  /** LCD_WRITE_STATUS of the ESP32 variant. */
  datatype WriteStatus = Finished | NotFinished | Interrupted | TooLongString

  /** `write_nibble` keeps the `esp_err_t` in a `uint8_t`: the low 8 bits of
      the code, so only a code that is a multiple of 256 reads as success. */
  function TransmitStatus(reply: int): (err: bv8)
    ensures err == 0 <==> reply % 256 == 0
    ensures 0 <= reply < 256 ==> err as int == reply
  {
    (reply % 256) as bv8
  }

  /** A negative `esp_err_t`, such as ESP_FAIL (-1), keeps 256 plus the code,
      so only -256 itself reads as success. */
  lemma NegativeCode(reply: int)
    requires -256 <= reply < 0
    ensures TransmitStatus(reply) as int == 256 + reply
    ensures TransmitStatus(reply) == 0 <==> reply == -256
  {
    assert reply % 256 == reply + 256;
    assert TransmitStatus(reply) == TransmitStatus(reply + 256);
  }

  /** The frame `write_nibble` builds; this variant does not touch R/W. */
  function Frame(nibble: bv8, rs: bool): seq<bv8>
  {
    var data := (nibble & 0xF0) | (if rs then RegisterSelect else 0) | Backlight;
    [data | Enable, data & !Enable]
  }

  /** The two bytes differ only in the enable bit, and R/W is clear anyway:
      the nibble and the flags leave bit 1 alone. */
  lemma FrameIsWellFramed(nibble: bv8, rs: bool)
    ensures WellFramed(Frame(nibble, rs), nibble, rs)
    ensures Frame(nibble, rs)[0] == Frame(nibble, rs)[1] | Enable
    ensures Frame(nibble, rs)[1] == Frame(nibble, rs)[0] & !Enable
  {
  }

  // What each helper sends; none of it depends on the transport

  /** `write_nibble`: the frame, then 2 ms. */
  function NibbleEvents(address: bv8, nibble: bv8, rs: bool): seq<Event>
  {
    [Write(address, Frame(nibble, rs)), Delay(2)]
  }

  /** `send_command` (`rs` false) and `send_char` (`rs` true): both nibbles,
      each followed by a further 2 ms. */
  function ByteEvents(address: bv8, b: bv8, rs: bool): seq<Event>
  {
    NibbleEvents(address, High(b), rs) + [Delay(2)] + NibbleEvents(address, Low(b), rs) + [Delay(2)]
  }

  function ClearEvents(address: bv8): seq<Event>
  {
    ByteEvents(address, ClearScreen, false) + [Delay(10)]
  }

  /** `lcd_goto`: the set-DDRAM-address command, with no delay of its own. */
  function GotoEvents(address: bv8, x: bv8, y: bv8): seq<Event>
  {
    ByteEvents(address, DdramAddress(x, y), false)
  }

  /** The loop of `lcd_1602_send_string` from position `i` of the string,
      with `column` characters on the current row and `row` wraps done: it
      ends at the terminator, else it makes a pass.  The number of transmits
      is counted, since later statuses depend on it. */
  function Loop(address: bv8, s: Text, i: nat, column: nat, row: nat): Run<WriteStatus>
    decreases |s| - i, 1
  {
    if i >= |s| || s[i] == Terminator then Run([], 0, Finished)
    else Pass(address, s, i, column, row)
  }

  /** One pass of the loop and the rest of the loop after it; the status of
      `send_char` is discarded. */
  function Pass(address: bv8, s: Text, i: nat, column: nat, row: nat): Run<WriteStatus>
    requires i < |s|
    decreases |s| - i, 0
  {
    if IsTrigger(s[i], column) then
      if row < MaxRows then
        var r := Loop(address, s, i + 1, 0, row + 1);
        Run(GotoEvents(address, 0, 1) + r.events, 2 + r.used, r.status)
      else Run([], 0, Interrupted)
    else
      var r := Loop(address, s, i + 1, column + 1, row);
      Run(ByteEvents(address, s[i], true) + r.events, 2 + r.used, r.status)
  }

  /** `lcd_1602_send_string`: the clear command, then the loop. */
  function StringRun(address: bv8, s: Text): Run<WriteStatus>
  {
    var r := Loop(address, s, 0, 0, 0);
    Run(ClearEvents(address) + r.events, 2 + r.used, r.status)
  }

  /** What a step of the layout plan sends. */
  function StepEvents(address: bv8, st: Step): seq<Event>
  {
    match st
    case Put(c) => ByteEvents(address, c, true)
    case Wrap => GotoEvents(address, 0, 1)
  }

  /** What the steps of a plan send, one after the other. */
  function PlanEvents(address: bv8, p: seq<Step>): seq<Event>
    decreases |p|
  {
    if p == [] then [] else StepEvents(address, p[0]) + PlanEvents(address, p[1..])
  }

  /** A layout plan carried out: every step, two transmits each, and
      INTERRUPTED exactly when the plan runs out of rows. */
  function Planned(address: bv8, p: Plan): Run<WriteStatus>
  {
    Run(PlanEvents(address, p.steps), 2 * |p.steps|, if p.stop == Overflow then Interrupted else Finished)
  }

  /** The loop from position `i` is the layout plan of the rest of the
      string, carried out in full. */
  lemma {:induction false} LoopIsPlan(address: bv8, s: Text, i: nat, column: nat, row: nat)
    ensures Loop(address, s, i, column, row) == Planned(address, LayoutFrom(s, i, column, row))
    decreases |s| - i, 1
  {
    if i < |s| && s[i] != Terminator {
      if !IsTrigger(s[i], column) {
        PutIsPlan(address, s, i, column, row);
      } else if row < MaxRows {
        WrapIsPlan(address, s, i, column, row);
      }
      assert Loop(address, s, i, column, row) == Pass(address, s, i, column, row);
    }
  }

  /** A pass that wraps is the wrap step of the plan. */
  lemma {:induction false} WrapIsPlan(address: bv8, s: Text, i: nat, column: nat, row: nat)
    requires i < |s| && s[i] != Terminator && IsTrigger(s[i], column) && row < MaxRows
    ensures Pass(address, s, i, column, row) == Planned(address, LayoutFrom(s, i, column, row))
    decreases |s| - i, 0
  {
    var q := LayoutFrom(s, i + 1, 0, row + 1).steps;
    assert ([Wrap] + q)[0] == Wrap && ([Wrap] + q)[1..] == q;
    LoopIsPlan(address, s, i + 1, 0, row + 1);
  }

  /** A pass that sends its character is the put step of the plan. */
  lemma {:induction false} PutIsPlan(address: bv8, s: Text, i: nat, column: nat, row: nat)
    requires i < |s| && s[i] != Terminator && !IsTrigger(s[i], column)
    ensures Pass(address, s, i, column, row) == Planned(address, LayoutFrom(s, i, column, row))
    decreases |s| - i, 0
  {
    var q := LayoutFrom(s, i + 1, column + 1, row).steps;
    assert ([Put(s[i])] + q)[0] == Put(s[i]) && ([Put(s[i])] + q)[1..] == q;
    LoopIsPlan(address, s, i + 1, column + 1, row);
  }

  /** What is still to come of the loop, after the trace `t` and `w`
      transmits, ends with the trace `tEnd`, `wEnd` transmits and `status`. */
  predicate Pending(address: bv8, s: Text, i: nat, column: nat, row: nat,
                    t: seq<Event>, w: nat, tEnd: seq<Event>, wEnd: nat, status: WriteStatus)
  {
    var r := Loop(address, s, i, column, row);
    t + r.events == tEnd && w + r.used == wEnd && r.status == status
  }

  /** A pass of the loop that wraps. */
  lemma WrapPass(address: bv8, s: Text, i: nat, column: nat, row: nat, t: seq<Event>, t': seq<Event>,
                 w: nat, w': nat, tEnd: seq<Event>, wEnd: nat, status: WriteStatus)
    requires i < |s| && s[i] != Terminator && IsTrigger(s[i], column) && row < MaxRows
    requires Pending(address, s, i, column, row, t, w, tEnd, wEnd, status)
    requires t' == t + GotoEvents(address, 0, 1) && w' == w + 2
    ensures Pending(address, s, i + 1, 0, row + 1, t', w', tEnd, wEnd, status)
  {
    assert Loop(address, s, i, column, row) == Pass(address, s, i, column, row);
    AppendAssoc(t, GotoEvents(address, 0, 1), Loop(address, s, i + 1, 0, row + 1).events);
  }

  /** A pass of the loop that sends its character. */
  lemma PutPass(address: bv8, s: Text, i: nat, column: nat, row: nat, t: seq<Event>, t': seq<Event>,
                w: nat, w': nat, tEnd: seq<Event>, wEnd: nat, status: WriteStatus)
    requires i < |s| && s[i] != Terminator && !IsTrigger(s[i], column)
    requires Pending(address, s, i, column, row, t, w, tEnd, wEnd, status)
    requires t' == t + ByteEvents(address, s[i], true) && w' == w + 2
    ensures Pending(address, s, i + 1, column + 1, row, t', w', tEnd, wEnd, status)
  {
    assert Loop(address, s, i, column, row) == Pass(address, s, i, column, row);
    AppendAssoc(t, ByteEvents(address, s[i], true), Loop(address, s, i + 1, column + 1, row).events);
  }

  /** The loop ends at the terminator, or on a wrap with no row left. */
  lemma LastPass(address: bv8, s: Text, i: nat, column: nat, row: nat,
                 t: seq<Event>, w: nat, tEnd: seq<Event>, wEnd: nat, status: WriteStatus)
    requires i >= |s| || s[i] == Terminator || (IsTrigger(s[i], column) && row >= MaxRows)
    requires Pending(address, s, i, column, row, t, w, tEnd, wEnd, status)
    ensures t == tEnd && w == wEnd
    ensures status == if i >= |s| || s[i] == Terminator then Finished else Interrupted
  {
    if i < |s| && s[i] != Terminator {
      assert Loop(address, s, i, column, row) == Pass(address, s, i, column, row);
    }
    assert t + [] == t;
  }

  /** The start of `lcd_1602_init`: wait 15 ms, then three 0x30 nibbles and a
      0x20 nibble (each with the 2 ms of `write_nibble`), with 5, 2 and 2 ms
      between them. */
  function WakeUp(address: bv8): seq<Event>
  {
    [Delay(15)]
      + NibbleEvents(address, 0x30, false) + [Delay(5)]
      + NibbleEvents(address, 0x30, false) + [Delay(2)]
      + NibbleEvents(address, 0x30, false) + [Delay(2)]
      + NibbleEvents(address, 0x20, false)
  }

  /** `lcd_1602_init`: the wake-up, then function set (4-bit data, two rows,
      5x10 font), display on with cursor and blink off, clear, and entry
      mode (increment, cursor moves on write). */
  function InitEvents(address: bv8): seq<Event>
  {
    WakeUp(address)
      + ByteEvents(address, FunctionSet(DataLen4Bit, Commands.TwoRows, Font5x10), false)
      + ByteEvents(address, DisplaySwitch(DisplayOn, CursorOff, NoBlinkDisplay), false)
      + ClearEvents(address)
      + ByteEvents(address, InputSet(IncrementMode, CursorMoveOnWrite), false)
  }

  /** The driver's observable state: the transport and the device address
      of its handle, the number of transmits issued so far and the trace of
      transmits and delays. */
  class Driver {
    const bus: nat -> int
    const address: bv8
    var writes: nat
    var trace: seq<Event>

    constructor(bus: nat -> int, address: bv8)
      ensures this.bus == bus && this.address == address && writes == 0 && trace == []
    {
      this.bus := bus;
      this.address := address;
      writes := 0;
      trace := [];
    }

    /** `vTaskDelay(pdMS_TO_TICKS(ms))`. */
    method DelayMs(ms: nat)
      modifies this
      ensures trace == old(trace) + [Delay(ms)] && writes == old(writes)
    {
      trace := trace + [Delay(ms)];
    }

    /** `write_nibble`: build the two-byte strobe, transmit it, wait 2 ms and
        return the low byte of the transmit's code. */
    method WriteNibble(nibble: bv8, rs: bool) returns (ret: bv8)
      modifies this
      ensures trace == old(trace) + NibbleEvents(address, nibble, rs) && writes == old(writes) + 1
      ensures ret == TransmitStatus(bus(old(writes)))
    {
      var data := nibble & 0xF0;
      if rs {
        data := data | RegisterSelect;
      }
      data := data | Backlight;
      var sequence := new bv8[2];
      sequence[0] := data | Enable;
      sequence[1] := data & !Enable;
      assert data == (nibble & 0xF0) | (if rs then RegisterSelect else 0) | Backlight;
      assert sequence[..] == Frame(nibble, rs);
      ret := TransmitStatus(bus(writes));
      trace := trace + [Write(address, sequence[..])];
      writes := writes + 1;
      DelayMs(2);
    }

    /** `send_command`: both nibbles whatever the first returned; the result
        is the second one's. */
    method SendCommand(cmd: bv8) returns (err: bv8)
      modifies this
      ensures trace == old(trace) + ByteEvents(address, cmd, false) && writes == old(writes) + 2
      ensures err == TransmitStatus(bus(old(writes) + 1))
    {
      err := SendByte(cmd, false);
    }

    /** `send_char`: the same with RS set. */
    method SendChar(c: bv8) returns (err: bv8)
      modifies this
      ensures trace == old(trace) + ByteEvents(address, c, true) && writes == old(writes) + 2
      ensures err == TransmitStatus(bus(old(writes) + 1))
    {
      err := SendByte(c, true);
    }

    /** The body `send_command` and `send_char` share. */
    method SendByte(b: bv8, rs: bool) returns (err: bv8)
      modifies this
      ensures trace == old(trace) + ByteEvents(address, b, rs) && writes == old(writes) + 2
      ensures err == TransmitStatus(bus(old(writes) + 1))
    {
      ghost var t0 := trace;
      err := 0;
      var high := High(b);
      var low := Low(b);
      err := WriteNibble(high, rs);
      DelayMs(2);
      err := WriteNibble(low, rs);
      DelayMs(2);
      assert trace == t0 + NibbleEvents(address, high, rs) + [Delay(2)] + NibbleEvents(address, low, rs) + [Delay(2)];
    }

    method ClearScreen() returns (err: bv8)
      modifies this
      ensures trace == old(trace) + ClearEvents(address) && writes == old(writes) + 2
      ensures err == TransmitStatus(bus(old(writes) + 1))
    {
      ghost var t0 := trace;
      err := SendCommand(Commands.ClearScreen);
      DelayMs(10);
      AppendAssoc(t0, ByteEvents(address, Commands.ClearScreen, false), [Delay(10)]);
    }

    method Goto(x: bv8, y: bv8) returns (err: bv8)
      modifies this
      ensures trace == old(trace) + GotoEvents(address, x, y) && writes == old(writes) + 2
      ensures err == TransmitStatus(bus(old(writes) + 1))
    {
      var row := y;
      if row > 1 {
        row := 1;
      }
      assert 0x80 | (RowOffsets[row] + x) == DdramAddress(x, y);
      err := SendCommand(0x80 | (RowOffsets[row] + x));
    }

    /** `lcd_1602_send_string`: `i` plays the string pointer, `charLen` and
        `row` the two 8-bit counters. */
    method SendString(s: Text) returns (status: WriteStatus)
      modifies this
      ensures var r := StringRun(address, s);
        trace == old(trace) + r.events && writes == old(writes) + r.used && status == r.status
    {
      ghost var t0 := trace;
      var cleared := ClearScreen();
      ghost var whole := Loop(address, s, 0, 0, 0);
      AppendAssoc(t0, ClearEvents(address), whole.events);
      ghost var tEnd := trace + whole.events;
      ghost var wEnd := writes + whole.used;
      var charLen: nat := 0;
      var row: nat := 0;
      var i: nat := 0;
      while i < |s| && s[i] != Terminator
        invariant i <= |s| && charLen <= ScreenWidth && row <= MaxRows
        invariant Pending(address, s, i, charLen, row, trace, writes, tEnd, wEnd, whole.status)
        decreases |s| - i
      {
        ghost var t := trace;
        ghost var w := writes;
        if s[i] == Newline || charLen >= ScreenWidth {
          if row < MaxRows {
            var moved := Goto(0, 1);
            WrapPass(address, s, i, charLen, row, t, trace, w, writes, tEnd, wEnd, whole.status);
            row := row + 1;
            charLen := 0;
            i := i + 1;
            continue;
          } else {
            LastPass(address, s, i, charLen, row, trace, writes, tEnd, wEnd, whole.status);
            return Interrupted;
          }
        }
        var sent := SendChar(s[i]);
        PutPass(address, s, i, charLen, row, t, trace, w, writes, tEnd, wEnd, whole.status);
        charLen := charLen + 1;
        i := i + 1;
      }
      LastPass(address, s, i, charLen, row, trace, writes, tEnd, wEnd, whole.status);
      return Finished;
    }

    /** `lcd_1602_init`. */
    method Init() returns (err: bv8)
      modifies this
      ensures trace == old(trace) + InitEvents(address) && writes == old(writes) + 12 && err == 0
    {
      ghost var t0 := trace;
      DelayMs(15);
      var e := WriteNibble(0x30, false);
      DelayMs(5);
      e := WriteNibble(0x30, false);
      DelayMs(2);
      e := WriteNibble(0x30, false);
      DelayMs(2);
      e := WriteNibble(0x20, false);
      WakeUpTrace(address, t0, trace);
      ghost var t1 := trace;
      e := SendCommand(FunctionSet(DataLen4Bit, Commands.TwoRows, Font5x10));
      e := SendCommand(DisplaySwitch(DisplayOn, CursorOff, NoBlinkDisplay));
      e := ClearScreen();
      e := SendCommand(InputSet(IncrementMode, CursorMoveOnWrite));
      InitTrace(address, t0, t1, trace);
      return 0;
    }
  }

  /** The wake-up as the method issues it, one call at a time. */
  lemma WakeUpTrace(address: bv8, t: seq<Event>, t': seq<Event>)
    requires t' == t + [Delay(15)]
      + NibbleEvents(address, 0x30, false) + [Delay(5)]
      + NibbleEvents(address, 0x30, false) + [Delay(2)]
      + NibbleEvents(address, 0x30, false) + [Delay(2)]
      + NibbleEvents(address, 0x20, false)
    ensures t' == t + WakeUp(address)
  {
  }

  /** The configuration commands as the method issues them. */
  lemma InitTrace(address: bv8, t0: seq<Event>, t1: seq<Event>, t: seq<Event>)
    requires t1 == t0 + WakeUp(address)
    requires t == t1
      + ByteEvents(address, FunctionSet(DataLen4Bit, Commands.TwoRows, Font5x10), false)
      + ByteEvents(address, DisplaySwitch(DisplayOn, CursorOff, NoBlinkDisplay), false)
      + ClearEvents(address)
      + ByteEvents(address, InputSet(IncrementMode, CursorMoveOnWrite), false)
    ensures t == t0 + InitEvents(address)
  {
  }

  // Properties

  /** `send_command` and `send_char` send the two halves of the byte, high
      first, with RS as requested; each transmit is followed by 4 ms, and the
      controller assembles the byte from the two frames. */
  lemma ByteOutcome(address: bv8, b: bv8, rs: bool)
    ensures var e := ByteEvents(address, b, rs);
      && |e| == 6
      && e[0] == Write(address, Frame(High(b), rs)) && e[3] == Write(address, Frame(Low(b), rs))
      && e[1] == Delay(2) && e[2] == Delay(2) && e[4] == Delay(2) && e[5] == Delay(2)
      && WellFramed(e[0].bytes, High(b), rs) && WellFramed(e[3].bytes, Low(b), rs)
      && Assembled(e[0].bytes, e[3].bytes) == b
  {
    FrameIsWellFramed(High(b), rs);
    FrameIsWellFramed(Low(b), rs);
    FramesCarryByte(Frame(High(b), rs), Frame(Low(b), rs), b, rs);
  }

  /** `lcd_1602_send_string` carries out the layout plan of its string in
      full, whatever the transport reports: after the clear command, two
      transmits per step, and INTERRUPTED exactly when the plan runs out of
      rows, else FINISHED. */
  lemma StringFollowsLayout(address: bv8, s: Text)
    ensures var p := Layout.Layout(s);
      StringRun(address, s) == Run(ClearEvents(address) + PlanEvents(address, p.steps), 2 + 2 * |p.steps|,
                                   if p.stop == Overflow then Interrupted else Finished)
  {
    LoopIsPlan(address, s, 0, 0, 0);
  }

  /** An empty string, or one that starts with the terminator: only the
      clear command is sent, and the call finishes. */
  lemma EmptyString(address: bv8, s: Text)
    requires s == [] || s[0] == Terminator
    ensures StringRun(address, s) == Run(ClearEvents(address), 2, Finished)
  {
    assert ClearEvents(address) + [] == ClearEvents(address);
  }

  /** `lcd_1602_init`: the four wake-up nibbles 0x3, 0x3, 0x3, 0x2, then
      function set 0x2C (4-bit data, two rows, 5x10 font), display control
      0x0C, clear 0x01 and entry mode 0x07, each command as two nibbles. */
  lemma InitCommands(address: bv8)
    ensures InitEvents(address) == WakeUp(address)
      + ByteEvents(address, 0x2C, false) + ByteEvents(address, 0x0C, false)
      + ByteEvents(address, 0x01, false) + [Delay(10)] + ByteEvents(address, 0x07, false)
    ensures WakeUp(address) == [Delay(15),
      Write(address, Frame(0x30, false)), Delay(2), Delay(5),
      Write(address, Frame(0x30, false)), Delay(2), Delay(2),
      Write(address, Frame(0x30, false)), Delay(2), Delay(2),
      Write(address, Frame(0x20, false)), Delay(2)]
  {
    StandardSettings();
  }
}
