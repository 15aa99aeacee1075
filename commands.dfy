/** Command bytes of the HD44780 controller and the port bits of the PCF8574
    backpack, as the driver's internal header defines them.  Each option macro
    ORs a fixed flag with the caller's option bits and then masks the result;
    the four functions below are those macros on 8-bit values (the masks keep
    only low bits, so a wider C argument gives the same result as its low byte). */
module Commands {

  // Literal commands
  const ClearScreen: bv8 := 0x01      // clear DDRAM and return the cursor to 0
  const ResetCursorPos: bv8 := 0x02   // return home without changing the content

  // Entry mode ("input set")
  const InputSetMask: bv8 := 0x07
  const InputSetFlag: bv8 := 0x04
  const IncrementMode: bv8 := 0x02
  const DecrementMode: bv8 := 0x00
  const CursorMoveOnWrite: bv8 := 0x01
  const CursorNoMove: bv8 := 0x00

  // Display on/off control ("display switch")
  const DisplaySwitchMask: bv8 := 0x0F
  const DisplaySwitchFlag: bv8 := 0x08
  const DisplayOn: bv8 := 0x04
  const DisplayOff: bv8 := 0x00
  const CursorOn: bv8 := 0x02
  const CursorOff: bv8 := 0x00
  const BlinkDisplay: bv8 := 0x01
  const NoBlinkDisplay: bv8 := 0x00

  // Cursor or display shift
  const ShiftMask: bv8 := 0x1C
  const ShiftFlag: bv8 := 0x10
  const CursorMove: bv8 := 0x00
  const DisplayShift: bv8 := 0x08
  const ShiftLeft: bv8 := 0x00
  const ShiftRight: bv8 := 0x04

  // Function set
  const FunctionSetMask: bv8 := 0x3C
  const FunctionSetFlag: bv8 := 0x20
  const DataLen8Bit: bv8 := 0x10
  const DataLen4Bit: bv8 := 0x00
  const TwoRows: bv8 := 0x08
  const OneRow: bv8 := 0x00
  const Font5x10: bv8 := 0x04
  const Font5x7: bv8 := 0x00

  // Port bits of the I2C backpack
  const Backlight: bv8 := 0x08
  const Enable: bv8 := 0x04
  const WriteData: bv8 := 0x00
  const RegisterSelect: bv8 := 0x01

  /** Entry-mode command: the flag plus exactly the requested direction and
      move bits, so always one of 0x04..0x07. */
  function InputSet(dir: bv8, mov: bv8): (r: bv8)
    ensures InputSetFlag <= r <= InputSetMask
    ensures r & InputSetFlag == InputSetFlag
    ensures r == InputSetFlag | ((dir | mov) & (IncrementMode | CursorMoveOnWrite))
    ensures r & InputSetMask == r
  {
    (InputSetFlag | dir | mov) & InputSetMask
  }

  /** Display-control command: the flag plus exactly the requested display,
      cursor and blink bits, so always one of 0x08..0x0F. */
  function DisplaySwitch(disp: bv8, curs: bv8, blink: bv8): (r: bv8)
    ensures DisplaySwitchFlag <= r <= DisplaySwitchMask
    ensures r & DisplaySwitchFlag == DisplaySwitchFlag
    ensures r == DisplaySwitchFlag | ((disp | curs | blink) & (DisplayOn | CursorOn | BlinkDisplay))
    ensures r & DisplaySwitchMask == r
  {
    (DisplaySwitchFlag | disp | curs | blink) & DisplaySwitchMask
  }

  /** Shift command: bit 4 always set, bits 0-1 and 5-7 always clear, bits 2-3
      exactly the requested target and direction. */
  function Shift(ele: bv8, dir: bv8): (r: bv8)
    ensures r & ShiftFlag == ShiftFlag
    ensures r & 0xE3 == 0
    ensures r == ShiftFlag | ((ele | dir) & (DisplayShift | ShiftRight))
    ensures r & ShiftMask == r
  {
    (ShiftFlag | ele | dir) & ShiftMask
  }

  /** Function-set command: bit 5 always set, bits 0-1 and 6-7 always clear,
      bits 2-4 exactly the requested data length, row count and font. */
  function FunctionSet(dl: bv8, r: bv8, f: bv8): (c: bv8)
    ensures c & FunctionSetFlag == FunctionSetFlag
    ensures c & 0xC3 == 0
    ensures c == FunctionSetFlag | ((dl | r | f) & (DataLen8Bit | TwoRows | Font5x10))
    ensures c & FunctionSetMask == c
  {
    (FunctionSetFlag | dl | r | f) & FunctionSetMask
  }

  /** Options combine by bitwise OR: the order of the options does not matter,
      and repeating an option is the same as passing it once. */
  lemma InputSetOptionsCommute(a: bv8, b: bv8)
    ensures InputSet(a, b) == InputSet(b, a)
    ensures InputSet(a, a) == InputSet(a, CursorNoMove)
  {
  }

  lemma DisplaySwitchOptionsCommute(a: bv8, b: bv8, c: bv8)
    ensures DisplaySwitch(a, b, c) == DisplaySwitch(b, a, c)
    ensures DisplaySwitch(a, b, c) == DisplaySwitch(a, c, b)
    ensures DisplaySwitch(a, a, c) == DisplaySwitch(a, CursorOff, c)
  {
  }

  lemma ShiftOptionsCommute(a: bv8, b: bv8)
    ensures Shift(a, b) == Shift(b, a)
    ensures Shift(a, a) == Shift(a, ShiftLeft)
  {
  }

  lemma FunctionSetOptionsCommute(a: bv8, b: bv8, c: bv8)
    ensures FunctionSet(a, b, c) == FunctionSet(b, a, c)
    ensures FunctionSet(a, b, c) == FunctionSet(a, c, b)
    ensures FunctionSet(a, a, c) == FunctionSet(a, OneRow, c)
  {
  }

  /** The settings the two drivers use at power-on. */
  lemma StandardSettings()
    ensures FunctionSet(DataLen4Bit, TwoRows, Font5x10) == 0x2C
    ensures DisplaySwitch(DisplayOn, CursorOff, NoBlinkDisplay) == 0x0C
    ensures InputSet(IncrementMode, CursorMoveOnWrite) == 0x07
    ensures InputSet(IncrementMode, CursorNoMove) == 0x06
  {
  }

  /** Every "off" option is 0, so passing only "off" options yields the bare flag. */
  lemma AllOffIsFlag()
    ensures InputSet(DecrementMode, CursorNoMove) == InputSetFlag
    ensures DisplaySwitch(DisplayOff, CursorOff, NoBlinkDisplay) == DisplaySwitchFlag
    ensures Shift(CursorMove, ShiftLeft) == ShiftFlag
    ensures FunctionSet(DataLen4Bit, OneRow, Font5x7) == FunctionSetFlag
  {
  }
}
