/** What both driver variants share below the text layout: the split of a
    byte into two nibbles, the wire format of one nibble transfer on the
    backpack port, the DDRAM address of a cursor position, and the trace of
    bus writes and delays that the drivers' methods record. */
module Framing {
  import opened Commands

  /** The read/write port bit.  The Pico driver clears LCD_1602_RW, which no
      header of the repository defines; bit 1 is assumed, the R/W line of the
      usual PCF8574 backpack wiring (bit 0 RS, bit 2 E, bit 3 backlight). */
  const ReadWrite: bv8 := 0x02

  /** One observable action of a driver: a bus write of `bytes` to the 7-bit
      device `address`, or a blocking delay of `ms` milliseconds. */
  datatype Event = Write(address: bv8, bytes: seq<bv8>) | Delay(ms: nat)

  /** What one operation does, started when `k` writes have been issued: the
      events it records, how many writes it issues, and what it returns. */
  datatype Run<S> = Run(events: seq<Event>, used: nat, status: S)

  /** Regrouping a trace that grows by one operation at a time. */
  lemma AppendAssoc<T>(a: seq<T>, b: seq<T>, c: seq<T>)
    ensures a + b + c == a + (b + c)
  {
  }

  /** The bus writes of a trace, in order, without the delays. */
  function Writes(events: seq<Event>): seq<Event>
    decreases |events|
  {
    if events == [] then []
    else (if events[0].Write? then [events[0]] else []) + Writes(events[1..])
  }

  /** The writes of a trace that grows are the writes of its parts. */
  lemma {:induction false} WritesAppend(a: seq<Event>, b: seq<Event>)
    ensures Writes(a + b) == Writes(a) + Writes(b)
    decreases |a|
  {
    if a == [] {
      assert a + b == b;
    } else {
      assert (a + b)[0] == a[0];
      assert (a + b)[1..] == a[1..] + b;
      WritesAppend(a[1..], b);
      AppendAssoc(if a[0].Write? then [a[0]] else [], Writes(a[1..]), Writes(b));
    }
  }

  /** A single event: its write, if it is one. */
  lemma WritesOne(e: Event)
    ensures Writes([e]) == if e.Write? then [e] else []
  {
    assert [e][1..] == [];
  }

  /** The high half of a byte, in place (`b & 0xF0`). */
  function High(b: bv8): (h: bv8)
    ensures h & 0x0F == 0
    ensures h >> 4 == b >> 4
  {
    b & 0xF0
  }

  /** The low half of a byte, moved into the high half (`(b << 4) & 0xF0`). */
  function Low(b: bv8): (l: bv8)
    ensures l & 0x0F == 0
    ensures l >> 4 == b & 0x0F
  {
    (b << 4) & 0xF0
  }

  /** Sending the high half and then the low half loses nothing. */
  lemma SplitRecombine(b: bv8)
    ensures High(b) | (Low(b) >> 4) == b
  {
  }

  /** The wire format of one nibble transfer: two port bytes, both carrying the
      nibble in bits 7-4, the backlight bit set, R/W clear and RS equal to
      `rs`; the first with the enable bit set, the second with it clear, which
      is the strobe the controller latches on. */
  predicate WellFramed(f: seq<bv8>, nibble: bv8, rs: bool)
  {
    && |f| == 2
    && (forall i :: 0 <= i < 2 ==>
          && f[i] & 0xF0 == nibble & 0xF0
          && f[i] & Backlight == Backlight
          && f[i] & ReadWrite == 0
          && (f[i] & RegisterSelect == RegisterSelect) == rs)
    && f[0] & Enable == Enable
    && f[1] & Enable == 0
  }

  /** The wire format leaves no bit free: there is exactly one frame per
      nibble and register-select flag, and its low four bits do not matter. */
  lemma WellFramedUnique(f: seq<bv8>, g: seq<bv8>, n: bv8, m: bv8, rs: bool)
    requires WellFramed(f, n, rs) && WellFramed(g, m, rs)
    requires n & 0xF0 == m & 0xF0
    ensures f == g
  {
    assert f[0] & 0xF0 == g[0] & 0xF0 && f[1] & 0xF0 == g[1] & 0xF0;
    assert f[0] & RegisterSelect == g[0] & RegisterSelect;
    assert f[1] & RegisterSelect == g[1] & RegisterSelect;
  }

  /** The byte the controller assembles in 4-bit mode from two transfers: the
      nibble latched from the first transfer, then the one from the second. */
  function Assembled(first: seq<bv8>, second: seq<bv8>): bv8
    requires |first| > 0 && |second| > 0
  {
    (first[0] & 0xF0) | ((second[0] & 0xF0) >> 4)
  }

  /** Framing the two halves of a byte lets the controller recover the byte. */
  lemma FramesCarryByte(f: seq<bv8>, g: seq<bv8>, b: bv8, rs: bool)
    requires WellFramed(f, High(b), rs) && WellFramed(g, Low(b), rs)
    ensures Assembled(f, g) == b
  {
    assert f[0] & 0xF0 == High(b) & 0xF0;
    assert g[0] & 0xF0 == Low(b) & 0xF0;
  }

  // Cursor positioning

  /** DDRAM address of the first column of each row. */
  const RowOffsets: seq<bv8> := [0x00, 0x40]

  /** Only two rows exist: any row past the first is the second. */
  function ClampRow(y: bv8): (r: bv8)
    ensures r <= 1
    ensures y <= 1 ==> r == y
    ensures y >= 1 ==> r == 1
  {
    if y > 1 then 1 else y
  }

  /** The set-DDRAM-address command for column `x` of row `y`.  The sum is an
      `int` in C and the command an 8-bit value, so a column past the address
      space wraps around; the address is not checked against the width. */
  function DdramAddress(x: bv8, y: bv8): (a: bv8)
    ensures a & 0x80 == 0x80
    ensures x < 0x40 ==> a == 0x80 + (if y == 0 then 0x00 else 0x40) + x
    ensures a == 0x80 | ((if y == 0 then 0x00 else 0x40) + x)
  {
    0x80 | (RowOffsets[ClampRow(y)] + x)
  }

  /** Positioning on any row past the first behaves like positioning on the
      second row. */
  lemma RowBeyondLastClamps(x: bv8, y: bv8)
    requires y >= 1
    ensures DdramAddress(x, y) == DdramAddress(x, 1)
  {
  }

  /** The command both drivers send to start the second row. */
  lemma SecondRowStart()
    ensures DdramAddress(0, 1) == 0xC0
  {
  }
}
