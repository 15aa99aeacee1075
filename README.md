# LCD1602 over I2C: a verified model of the protocol layer

This project models the protocol layer of a driver for HD44780 character LCDs
(16 columns, 2 rows) behind a PCF8574 I2C backpack at address 0x27. The layer
has three parts:

- **Command bytes.** Four option macros build command bytes; literal commands
  and port bits sit beside them (`Commands`).
- **Framing.** Each byte is split into two nibbles. Each nibble goes out as a
  two-byte enable strobe. The DDRAM address of a cursor position is computed
  here too (`Framing`).
- **Two driver variants** that share one text-layout rule (`Layout`):
  - `PicoLcd` for the Raspberry Pi Pico. `send_command` and `send_char`
    stop after a failed first nibble, and the string loop stops at the first
    character that fails. The statuses of the clear command, of the wrap's
    cursor move and of every call in `lcd_1602_init` are ignored.
  - `EspLcd` for the ESP32. It discards transport errors.

Each variant is a class `Driver`:
- Its fields are the transport, the number of bus writes issued so far and
  the trace of events.
- An event is a bus write (the address and the two bytes) or a delay (in ms).
- Every C function of a variant is a method of this class, and the methods
  append to the trace. The ESP32 class has one method more, `SendByte`: the
  body that its `send_command` and `send_char` share.
- Each method is proved against a specification function. That function
  computes, from the transport and the write count, exactly what the call
  records, how many writes it issues and what it returns.
- `lcd_1602_send_string` is a `while` loop with invariants. It is proved equal
  to a layout plan (`Layout.Layout`): a sequence of "send this character" and
  "wrap to row 1" steps, ending either at the terminator or on an overflow.

The transport is an oracle, `bus: nat -> int`: `bus(k)` is the reply to the
k-th write.
- On the Pico, the reply is what `i2c_write_blocking` returns. A write
  succeeds exactly when 2 bytes went out (`i2c_write_data`).
- On the ESP32, the reply is the `esp_err_t` code of `i2c_master_transmit`.
  The driver keeps only its low byte.

`Variants` compares the two drivers:
- On a transport that accepts every frame, and for an ESP32 handle opened at
  0x27, they write the same frames for any string and return the same status.
- On a transport that accepts every frame, their power-on sequences differ in
  exactly two frames: the font and the entry-mode option.
- On a transport that fails every write, the Pico driver stops where the
  ESP32 driver keeps going.

Strings are modelled as sequences of bytes (`Layout.Text`). A C `char` is an
8-bit value, and the string ends at its first zero byte or at the end of the
sequence.

The ESP32 driver writes to the device its handle was opened for. That address
is a field of `EspLcd.Driver`. The Pico driver always writes to
`DEVICE_ADDRESS` (0x27).

Two constants are used with values no header of the repository defines:
- `LCD_1602_RW`, taken as 0x02 (`Framing.ReadWrite`): the R/W line of the
  usual backpack wiring.
- `LCD_1602_FONT_5X8`, taken as 0x00 (`PicoLcd.Font5x8`): the font bit clear.

## Model

| member | source | states |
|---|---|---|
| Commands.InputSet | internal/lcd_1602_internal.h:83 | the entry-mode command is one of 0x04..0x07, with bit 2 always set and exactly the requested direction and move bits; masking it again changes nothing |
| Commands.DisplaySwitch | internal/lcd_1602_internal.h:100 | the display-control command is one of 0x08..0x0F, with bit 3 always set and exactly the requested display, cursor and blink bits; masking it again changes nothing |
| Commands.Shift | internal/lcd_1602_internal.h:114 | the shift command always has bit 4 set and bits 0-1 and 5-7 clear; bits 2-3 are the requested target and direction; masking it again changes nothing |
| Commands.FunctionSet | internal/lcd_1602_internal.h:131 | the function-set command always has bit 5 set and bits 0-1 and 6-7 clear; bits 2-4 are the requested data length, row count and font; masking it again changes nothing |
| Commands.InputSetOptionsCommute | internal/lcd_1602_internal.h:83 | swapping the two options, or passing one option twice, gives the same entry-mode command |
| Commands.DisplaySwitchOptionsCommute | internal/lcd_1602_internal.h:100 | reordering the options, or repeating one, gives the same display-control command |
| Commands.ShiftOptionsCommute | internal/lcd_1602_internal.h:114 | swapping the options, or repeating one, gives the same shift command |
| Commands.FunctionSetOptionsCommute | internal/lcd_1602_internal.h:131 | reordering the options, or repeating one, gives the same function-set command |
| Commands.StandardSettings | internal/lcd_1602_internal.h:29-59 | 4-bit data, two rows and the 5x10 font give 0x2C; display on with cursor and blink off gives 0x0C; increment with move-on-write gives 0x07, and without it 0x06 |
| Commands.AllOffIsFlag | internal/lcd_1602_internal.h:29-59 | passing only the "off" options yields the bare flag of each macro (for function set, 0x20) |
| Framing.Writes | main/src/lcd_1602.c:28 | proof bookkeeping over the trace: the frames a trace puts on the bus, in order, with the delays dropped; `Framing.WritesAppend` states that it distributes over concatenation |
| Framing.WritesAppend | main/src/lcd_1602.c:28 | proof bookkeeping over the trace: the writes of two traces in a row are the writes of the first followed by those of the second |
| Framing.High | main/src/lcd_1602.c:39 | the high half has its low four bits clear and the byte's top four bits in place |
| Framing.Low | main/src/lcd_1602.c:40 | the low half has its low four bits clear and the byte's low four bits in its top four |
| Framing.SplitRecombine | main/src/lcd_1602.c:39-40 | `high \| (low >> 4)` gives back the byte |
| Framing.WellFramedUnique | main/src/lcd_1602.c:15-24 | there is exactly one well-formed frame per nibble and RS flag, whatever the nibble's low four bits are |
| Framing.FramesCarryByte | main/src/lcd_1602.c:38-50 | the byte the controller assembles from the frames of the two halves is the byte sent |
| Framing.ClampRow | main/src/lcd_1602.c:97 | the row used is at most 1; rows 0 and 1 are kept and any larger row becomes 1 |
| Framing.DdramAddress | main/src/lcd_1602.c:96-98 | the command has bit 7 set; for a column below 0x40 it is 0x80 plus the row offset (0x00 or 0x40) plus the column; for any row and column it is bit 7 ORed onto the 8-bit sum of the offset of the clamped row and the column, so a column past the address space wraps modulo 256 |
| Framing.RowBeyondLastClamps | main/src/lcd_1602.c:95-98 | moving to any row beyond the first gives the same command as moving to row 1 |
| Framing.SecondRowStart | main/src/lcd_1602.c:113 | the wrap's `lcd_goto(0, 1)` sends 0xC0 |
| Layout.LayoutFrom | main/src/lcd_1602.c:110-129 | the loop of `lcd_1602_send_string` from a given byte, column and row, as the steps it takes (put a character, wrap to row two) and whether it stops on overflow; its properties are stated by `Layout.StepwiseFrom`, `Layout.WrapsFrom` and `Layout.ColumnBoundFrom` |
| Layout.Layout | main/src/lcd_1602.c:107-131 | the whole string loop, started at column 0 of row 0; its properties are stated by `Layout.LayoutStepwise`, `Layout.AtMostTwoWraps`, `Layout.ColumnNeverExceedsWidth` and the examples below it |
| Layout.StepwiseFrom | main/src/lcd_1602.c:110-129 | from any position: step j of the plan handles character i + j, which is not the terminator; the step is a wrap exactly when that character is a newline or the row holds 16 characters, and otherwise it sends that very character; the plan ends at the terminator, or, on an overflow, at a wrap trigger |
| Layout.LayoutStepwise | main/src/lcd_1602.c:110-129 | the same, for a whole string from column 0 of row 0: characters go out in input order, and each trigger character is skipped, not sent |
| Layout.WrapsFrom | main/src/lcd_1602.c:111-119 | from row `row`, at most `2 - row` wraps are accepted; an overflow happens only once all of them are used |
| Layout.AtMostTwoWraps | main/src/lcd_1602.c:111-119 | a string is wrapped at most twice, and an interrupted call has wrapped exactly twice |
| Layout.ColumnBoundFrom | main/src/lcd_1602.c:107-128 | starting within the width, the row's character count stays at most 16 at every point of the plan |
| Layout.ColumnNeverExceedsWidth | main/src/lcd_1602.c:107-128 | `char_len` never exceeds 16 during a call |
| Layout.EmptyText | main/src/lcd_1602.c:110 | an empty string, or one that starts with the terminator, has an empty plan and finishes |
| Layout.RunOfPuts | main/src/lcd_1602.c:126-128 | a run of plain characters that fits on the row is sent as it is, and the loop continues after it |
| Layout.LineThenNewline | main/src/lcd_1602.c:111-117 | a line of at most 16 plain characters ended by a newline, while a row is left: the line is sent, then one wrap |
| Layout.LastLine | main/src/lcd_1602.c:110-131 | a final line of at most 16 plain characters is sent in full, and the call finishes |
| Layout.SingleRow | main/src/lcd_1602.c:110-131 | a string of at most 16 plain characters is sent as it is, and the call finishes |
| Layout.TwoLines | main/src/lcd_1602.c:110-131 | two lines of at most 16 plain characters, joined by one newline, are sent with one wrap between them, and the call finishes |
| Layout.SeventeenthCharDropped | main/src/lcd_1602.c:111-117 | as written: of 17 plain characters only the first 16 are sent, then a wrap, and the call still finishes (see Findings) |
| Layout.LayoutFromSuffix | main/src/lcd_1602.c:110 | the loop depends only on the text from the current position on |
| Layout.LineThenRest | main/src/lcd_1602.c:111-117 | a line ended by a newline, with a row left, is sent; the newline wraps, and the rest of the text is laid out from column 0 of the next row |
| Layout.ThirdLineOverwritesRowOne | main/src/lcd_1602.c:112 | as written: three short lines give two wraps and finish, so the third line goes to row 1 over the second (see Findings) |
| Layout.ThirtyTwoPlainChars | main/src/lcd_1602.c:110-129 | as written: of 32 plain characters, row 0 gets the first 16, the 17th is skipped by the wrap, and row 1 gets the other 15 |
| Layout.IntendedFrom | main/include/lcd_1602.h:46 | the corrected loop from a given byte, column and row: a width wrap keeps its character, and a wrap is taken only while a further row exists; its properties are stated by the `Layout.Intended*` lemmas below |
| Layout.IntendedLayout | main/include/lcd_1602.h:46 | the corrected loop started at column 0 of row 0; its properties are stated by `Layout.IntendedKeepsEveryChar`, `Layout.IntendedFillsBothRows` and `Layout.IntendedThirdLineInterrupts` |
| Layout.IntendedKeepsEveryCharFrom | main/include/lcd_1602.h:46 | under the corrected rule, a call that finishes has sent every visible character of the rest of the text, in order |
| Layout.IntendedKeepsEveryChar | main/include/lcd_1602.h:46 | under the corrected rule, a call that finishes has sent every visible character, in order |
| Layout.IntendedRunOfPuts | main/include/lcd_1602.h:46 | under the corrected rule, a run of plain characters that fits on the row is sent as it is |
| Layout.IntendedSeventeenthCharKept | main/include/lcd_1602.h:46 | under the corrected rule, the 17th plain character opens row 1 and all 17 are sent |
| Layout.IntendedFillsBothRows | main/include/lcd_1602.h:46 | under the corrected rule, 32 plain characters fill both rows exactly; the call finishes exactly when nothing follows them |
| Layout.IntendedFromSuffix | main/include/lcd_1602.h:46 | under the corrected rule, the loop depends only on the text ahead of it |
| Layout.IntendedLineThenRest | main/include/lcd_1602.h:46 | under the corrected rule, a line ended by a newline, with a further row left, is sent; then one wrap, and the rest starts on the next row |
| Layout.IntendedLastRowNewline | main/include/lcd_1602.h:46 | under the corrected rule, a newline on the last row interrupts the call once that row's line has been sent |
| Layout.IntendedThirdLineInterrupts | main/include/lcd_1602.h:46 | under the corrected rule, three lines are interrupted after the second: "too long for the screen" |
| PicoLcd.Frame | main/src/lcd_1602.c:15-24 | the two bytes `write_nibble` sends: the upper nibble with RS, R/W clear and the backlight, enable raised then lowered; stated by `PicoLcd.FrameIsWellFramed` and `PicoLcd.FrameIgnoresLowBits` |
| PicoLcd.NibbleRun | main/src/lcd_1602.c:14-29 | one `write_nibble`: one write to 0x27 and its transfer status, with no pause; stated through `PicoLcd.CommandOutcome` and `PicoLcd.CharOutcome` |
| PicoLcd.CommandRun | main/src/lcd_1602.c:38-50 | `send_command`: the high nibble, and the low nibble only when the first write succeeded; stated by `PicoLcd.CommandOutcome` |
| PicoLcd.CharRun | main/src/lcd_1602.c:60-72 | `send_char`: as `send_command` with RS raised, except that the 2 ms after the high nibble is spent before its status is checked, so a failed character still ends with that pause; stated by `PicoLcd.CharOutcome` |
| PicoLcd.ClearRun | main/src/lcd_1602.c:81-85 | `clear_screen`: the clear command then a 10 ms pause, passing on its status; stated through `PicoLcd.StringFollowsLayout` and `Variants.ClearWritesAgree` |
| PicoLcd.GotoRun | main/src/lcd_1602.c:95-102 | `lcd_goto`: the set-address command for the clamped row; its address is stated by `Framing.DdramAddress` |
| PicoLcd.StepRun | main/src/lcd_1602.c:111-128 | one step of the string loop: a wrap ignores the cursor move's status, a put reports whether the character was sent; stated by `PicoLcd.WrapIsPlan` and `PicoLcd.PutIsPlan` |
| PicoLcd.Carry | main/src/lcd_1602.c:110-129 | the steps of a layout performed in order, stopping at the first failed put; stated by `PicoLcd.ReliableCarry` and `PicoLcd.FailureIsLast` |
| PicoLcd.Planned | main/src/lcd_1602.c:110-131 | a layout carried out, with the status `lcd_1602_send_string` returns for it; stated by `PicoLcd.LoopIsPlan` |
| PicoLcd.StringRun | main/src/lcd_1602.c:104-132 | the whole `lcd_1602_send_string`: the clear, whose status is ignored, then the loop; stated by `PicoLcd.StringFollowsLayout` and `PicoLcd.ReliableString` |
| PicoLcd.Loop | main/src/lcd_1602.c:110-131 | the `while` loop as written, one pass at a time; stated by `PicoLcd.LoopIsPlan` |
| PicoLcd.Pass | main/src/lcd_1602.c:111-128 | one pass of the loop body: the wrap test, the interrupted case and the put; stated by `PicoLcd.WrapPass`, `PicoLcd.PutPass`, `PicoLcd.FailPass` and `PicoLcd.LastPass` |
| PicoLcd.InitRun | main/src/lcd_1602.c:134-153 | `lcd_1602_init`: the wake-up nibbles and the four configuration commands, every status ignored; stated by `PicoLcd.InitWrites` and `PicoLcd.ReliableInit` |
| PicoLcd.PlanRun | main/src/lcd_1602.c:104-132 | the clear followed by the planned layout; equal to `PicoLcd.StringRun` by `PicoLcd.StringFollowsLayout` |
| PicoLcd.TransferStatus | main/src/pico_i2c.c:17-21 | a write reports 0 exactly when the transport wrote both bytes, else 1 |
| PicoLcd.FrameIsWellFramed | main/src/lcd_1602.c:14-28 | the two bytes carry the nibble in bits 7-4, with backlight set, R/W clear and RS as requested; enable is set in the first and clear in the second, and that is their only difference |
| PicoLcd.FrameIgnoresLowBits | main/src/lcd_1602.c:15 | nibble arguments that agree in their top four bits give the same frame |
| PicoLcd.WrapPass | main/src/lcd_1602.c:111-117 | loop invariant: after a wrap, what is left of the loop picks up from the next character at column 0 of the next row |
| PicoLcd.PutPass | main/src/lcd_1602.c:126-128 | loop invariant: after a character that was sent, what is left of the loop picks up from the next character, one column on |
| PicoLcd.FailPass | main/src/lcd_1602.c:126 | a character that fails ends the call with FAILED_SEND, with nothing after its frames |
| PicoLcd.LastPass | main/src/lcd_1602.c:110-131 | the loop ends with nothing more sent: FINISHED at the terminator, INTERRUPTED on a wrap with no row left |
| PicoLcd.LoopIsPlan | main/src/lcd_1602.c:110-131 | the loop from any position carries out the layout plan of the rest of the string, up to the first character that fails |
| PicoLcd.WrapIsPlan | main/src/lcd_1602.c:112-117 | a wrapping pass is the plan's wrap step followed by the rest of the plan |
| PicoLcd.PutIsPlan | main/src/lcd_1602.c:126-128 | a pass that sends a character is the plan's put step, followed by the rest of the plan unless the character failed |
| PicoLcd.WakeUpTrace | main/src/lcd_1602.c:140-144 | proof bookkeeping: the wake-up calls, in order, record the wake-up sequence |
| PicoLcd.InitTrace | main/src/lcd_1602.c:147-150 | proof bookkeeping: the four configuration calls, in order, record what the init specification says, whatever their statuses |
| PicoLcd.Driver.DelayMs | main/include/utilities.h:7 | a delay is recorded and issues no write |
| PicoLcd.Driver.WriteNibble | main/src/lcd_1602.c:14-29 | one write of the nibble's frame to 0x27; the result is that write's status |
| PicoLcd.Driver.SendCommand | main/src/lcd_1602.c:38-50 | what `send_command` records and returns: a failed high nibble is returned at once, else the low nibble follows with 2 ms after each |
| PicoLcd.Driver.SendChar | main/src/lcd_1602.c:60-72 | what `send_char` records and returns: 2 ms after the high nibble even when it fails, and only then the failure check |
| PicoLcd.Driver.ClearScreen | main/src/lcd_1602.c:81-85 | command 0x01 and then 10 ms; the result is the command's |
| PicoLcd.Driver.Goto | main/src/lcd_1602.c:95-102 | the clamped DDRAM-address command and then 10 ms; the result is the command's |
| PicoLcd.Driver.SendString | main/src/lcd_1602.c:104-132 | the loop records and returns exactly what its specification says: clear, then pass after pass until the terminator, an overflow or a failed character |
| PicoLcd.Driver.Init | main/src/lcd_1602.c:134-153 | the init records its specified sequence on any transport and returns 0 |
| PicoLcd.StringFollowsLayout | main/src/lcd_1602.c:104-132 | `lcd_1602_send_string` is the clear command followed by the layout plan of the string, carried out up to the first step that fails |
| PicoLcd.CommandOutcome | main/src/lcd_1602.c:38-50 | the high nibble goes first; if it fails, its error is returned with no low nibble and no delay; otherwise the low nibble follows, each nibble is followed by 2 ms, the two frames carry the command byte, and the result is 0 exactly when the low nibble's write succeeded |
| PicoLcd.CharOutcome | main/src/lcd_1602.c:60-72 | the same with RS set, except that the 2 ms after the high nibble are spent even when it fails |
| PicoLcd.ReliableCarry | main/src/lcd_1602.c:126 | on a transport that accepts every frame, no step of a plan fails |
| PicoLcd.ReliableString | main/src/lcd_1602.c:104-132 | on a transport that accepts every frame, the result is INTERRUPTED exactly when the layout overflows, else FINISHED; never FAILED_SEND |
| PicoLcd.EmptyString | main/src/lcd_1602.c:105-131 | an empty string sends only the clear command (its result ignored) and returns FINISHED |
| PicoLcd.LoopFailureEndsInWrite | main/src/lcd_1602.c:126 | a loop that returns FAILED_SEND has sent nothing after the failed write and its 2 ms delay |
| PicoLcd.WrapFailureEndsInWrite | main/src/lcd_1602.c:113 | a wrap's own failure is ignored, so a failure after a wrap comes from the rest of the loop and ends it |
| PicoLcd.PutFailureEndsInWrite | main/src/lcd_1602.c:126 | a character that fails ends the loop right after its failed write |
| PicoLcd.FailureIsLast | main/src/lcd_1602.c:126 | when `lcd_1602_send_string` returns FAILED_SEND, its last write is the one that failed, followed only by 2 ms |
| PicoLcd.InitWrites | main/src/lcd_1602.c:134-153 | the init always returns 0 and issues between 8 and 12 writes: the four wake-up nibbles, then one or two per command |
| PicoLcd.ReliableInit | main/src/lcd_1602.c:140-150 | on a transport that accepts every frame: 50 ms; nibbles 0x3, 0x3, 0x3 and 0x2, each with 5 ms after it; commands 0x28, 0x0C, 0x01 (with its 10 ms) and 0x06, as nibbles 2 ms apart; 12 writes |
| EspLcd.Frame | lcd_1602.c:4-13 | the two bytes `write_nibble` sends, as in the Pico variant; stated by `EspLcd.FrameIsWellFramed` and `Variants.FramesAgree` |
| EspLcd.NibbleEvents | lcd_1602.c:4-19 | one `write_nibble`: one write and a 2 ms pause; stated through `EspLcd.ByteOutcome` |
| EspLcd.ByteEvents | lcd_1602.c:21-47 | `send_command` or `send_char`: both nibbles, each followed by a further 2 ms pause, whatever the statuses; stated by `EspLcd.ByteOutcome` |
| EspLcd.ClearEvents | lcd_1602.c:49-53 | `clear_screen`: the clear command then a 10 ms pause; stated through `EspLcd.EmptyString` and `Variants.ClearWritesAgree` |
| EspLcd.GotoEvents | lcd_1602.c:55-60 | `lcd_goto`: the set-address command for the clamped row; its address is stated by `Framing.DdramAddress` |
| EspLcd.Loop | lcd_1602.c:68-89 | the `while` loop as written, one pass at a time; stated by `EspLcd.LoopIsPlan` |
| EspLcd.Pass | lcd_1602.c:69-86 | one pass of the loop body; stated by `EspLcd.WrapPass`, `EspLcd.PutPass` and `EspLcd.LastPass` |
| EspLcd.StringRun | lcd_1602.c:62-90 | the whole `lcd_1602_send_string`: the clear then the loop; stated by `EspLcd.StringFollowsLayout` and `EspLcd.EmptyString` |
| EspLcd.StepEvents | lcd_1602.c:69-86 | the calls one layout step makes: a cursor move for a wrap, a character for a put; stated by `EspLcd.WrapIsPlan` and `EspLcd.PutIsPlan` |
| EspLcd.PlanEvents | lcd_1602.c:68-89 | the calls of all the steps of a layout, in order; stated by `EspLcd.StringFollowsLayout` |
| EspLcd.Planned | lcd_1602.c:62-90 | a layout carried out, with the status the loop returns for it; stated by `EspLcd.LoopIsPlan` |
| EspLcd.WakeUp | lcd_1602.c:93-100 | the power-on pause and the four wake-up nibbles of `lcd_1602_init`; stated by `EspLcd.InitCommands` and `Variants.EspWakeWrites` |
| EspLcd.InitEvents | lcd_1602.c:92-108 | the whole `lcd_1602_init`; stated by `EspLcd.InitCommands` and `Variants.EspInitWrites` |
| EspLcd.TransmitStatus | lcd_1602.c:15 | the status kept is the error code's low byte: it is 0 exactly when the code is a multiple of 256, and it is the code itself when the code is between 0 and 255; a negative code down to -256, such as ESP_FAIL (-1), keeps 256 plus the code |
| EspLcd.NegativeCode | lcd_1602.c:15 | a negative error code from -256 to -1, such as ESP_FAIL, is kept as 256 plus the code, and only -256 reads as success |
| EspLcd.FrameIsWellFramed | lcd_1602.c:4-13 | the frame is the same well-formed enable strobe; R/W stays clear without being cleared |
| EspLcd.LoopIsPlan | lcd_1602.c:68-89 | the loop from any position carries out the layout plan of the rest of the string in full, two transmits per step |
| EspLcd.WrapIsPlan | lcd_1602.c:69-76 | a wrapping pass is the plan's wrap step followed by the rest of the plan |
| EspLcd.PutIsPlan | lcd_1602.c:84-86 | a pass that sends a character is the plan's put step followed by the rest, whatever `send_char` returned |
| EspLcd.WrapPass | lcd_1602.c:69-76 | loop invariant: after a wrap, what is left picks up from the next character at column 0 of the next row |
| EspLcd.PutPass | lcd_1602.c:84-86 | loop invariant: after a character, what is left picks up from the next character, one column on |
| EspLcd.LastPass | lcd_1602.c:68-89 | the loop ends with nothing more sent: FINISHED at the terminator, INTERRUPTED on a wrap with no row left |
| EspLcd.Driver.DelayMs | lcd_1602.c:16 | a delay is recorded and issues no transmit |
| EspLcd.Driver.WriteNibble | lcd_1602.c:4-19 | one transmit of the frame to the handle's device, then 2 ms; the result is the low byte of that transmit's code |
| EspLcd.Driver.SendCommand | lcd_1602.c:21-33 | both nibbles are always sent, each followed by 4 ms in all; the result is the second nibble's status, so an error on the first is lost |
| EspLcd.Driver.SendChar | lcd_1602.c:35-47 | the same with RS set |
| EspLcd.Driver.SendByte | lcd_1602.c:21-47 | the shared body of the two: both halves, in order; the second status is returned |
| EspLcd.Driver.ClearScreen | lcd_1602.c:49-53 | command 0x01, then 10 ms; the result is the command's |
| EspLcd.Driver.Goto | lcd_1602.c:55-60 | the clamped DDRAM-address command with no delay of its own; the result is the command's |
| EspLcd.Driver.SendString | lcd_1602.c:62-90 | the loop records and returns exactly what its specification says, on any transport |
| EspLcd.Driver.Init | lcd_1602.c:92-108 | the init records its fixed sequence, issues 12 transmits and returns 0, whatever the transport reports |
| EspLcd.WakeUpTrace | lcd_1602.c:93-100 | proof bookkeeping: the wake-up calls, in order, record the wake-up sequence |
| EspLcd.InitTrace | lcd_1602.c:102-105 | proof bookkeeping: the configuration calls, in order, record the rest of the init sequence |
| EspLcd.ByteOutcome | lcd_1602.c:21-47 | a command or a character is six events: the high-half frame, 2 + 2 ms, the low-half frame, 2 + 2 ms; both frames are well formed, and the controller assembles the byte from them |
| EspLcd.StringFollowsLayout | lcd_1602.c:62-90 | whatever the transport reports: clear, then the whole layout plan at two transmits per step; INTERRUPTED exactly when the plan overflows, else FINISHED, so the result is never anything else |
| EspLcd.EmptyString | lcd_1602.c:63-89 | an empty string sends only the clear command and returns FINISHED |
| EspLcd.InitCommands | lcd_1602.c:92-105 | 15 ms; nibble 0x3, 2 + 5 ms; 0x3, 2 + 2 ms; 0x3, 2 + 2 ms; 0x2, 2 ms; then commands 0x2C, 0x0C, 0x01 (with its 10 ms) and 0x07 |
| Variants.FramesAgree | main/src/lcd_1602.c:20 | clearing R/W on the Pico makes no difference: both variants build the same frame for every nibble |
| Variants.PicoCommandWrites | main/src/lcd_1602.c:38-50 | a Pico command whose two writes succeed writes the frames of the command's two halves, in order |
| Variants.PicoCharWrites | main/src/lcd_1602.c:60-72 | a Pico character whose two writes succeed writes the frames of the character's two halves, in order |
| Variants.EspByteWrites | lcd_1602.c:21-47 | an ESP32 command or character to 0x27 writes the same two frames |
| Variants.StepWritesAgree | main/src/lcd_1602.c:111-128 | on a transport that accepts every frame, each layout step makes the same writes in both variants |
| Variants.PlanWritesAgree | main/src/lcd_1602.c:110-129 | on such a transport, a whole layout plan makes the same writes in both variants, two per step, and nothing fails |
| Variants.ClearWritesAgree | main/src/lcd_1602.c:81-85 | on such a transport, the clear command writes the two halves of 0x01 in both variants |
| Variants.StringWritesAgree | main/src/lcd_1602.c:104-132 | on such a transport, `lcd_1602_send_string` makes the same writes in both variants, in the same order; both return FINISHED together and INTERRUPTED together, and the Pico never returns FAILED_SEND |
| Variants.FailingString | lcd_1602.c:84 | on a transport that fails every write, for a string whose first byte is neither a newline nor the terminator: the Pico variant stops after two writes with FAILED_SEND, while the ESP32 variant sends the whole layout and returns what it would on a working transport |
| Variants.PicoWakeWrites | main/src/lcd_1602.c:140-144 | the Pico wake-up writes the nibbles 0x3, 0x3, 0x3 and 0x2 |
| Variants.EspWakeWrites | lcd_1602.c:93-100 | the ESP32 wake-up writes the same four nibbles |
| Variants.PicoInitWrites | main/src/lcd_1602.c:134-153 | on a transport that accepts every frame, the Pico init writes the wake-up, then 0x28, 0x0C, 0x01 and 0x06 |
| Variants.EspInitWrites | lcd_1602.c:92-108 | the ESP32 init to 0x27 writes the wake-up, then 0x2C, 0x0C, 0x01 and 0x07 |
| Variants.InitsDiffer | lcd_1602.c:102-105 | on a transport that accepts every frame, the two inits make twelve writes each and agree on all but two: write 5 (function set's low nibble, 0x8 vs 0xC: the font) and write 11 (entry mode's low nibble, 0x6 vs 0x7: move-on-write) |

## Left out

- I2C transport: bus set-up, the vendor SDK calls and their timeouts. `i2c_open`, `pico_i2c_open`, `i2c_write_byte`, `i2c_read_register` and `i2c_read_data` are not part of this model. A write's outcome is the oracle's reply; the Pico rule "success iff both bytes were written" is kept (`PicoLcd.TransferStatus`).
- Real timing: `non_blocking_delay_ms`, `vTaskDelay`, `pdMS_TO_TICKS` and FreeRTOS ticks. Each delay is a `Delay(ms)` event with its literal number of milliseconds.
- The controller's own state (DDRAM, the cursor, what the display shows). The drivers never read it back, so every property is about the transmitted trace.
- The `if (*str == '\0') return LCD_WRITE_FINISHED;` inside the loop of both variants. The loop guard has just excluded it, so it can never run, and the model has no branch for it.
- The 8-bit counters `char_len` and `row` of `lcd_1602_send_string` are modelled as unbounded naturals. This is not a weakening: they provably stay at or below 16 and 2 (`Layout.ColumnNeverExceedsWidth`, `Layout.AtMostTwoWraps`), so they never wrap.
- The application files (`main.c`, `lcd_1602_example.c`), the configuration headers and the generated documentation: wiring and declarations only. Their constants and status enums are used.
- Pointer arithmetic: the string pointer of `lcd_1602_send_string` becomes an index into the string; the caller's C string becomes a byte sequence.
- `EspLcd.Driver.SendByte` is not a C function. It is the body shared by `send_command` and `send_char`, which call it with RS clear and set.

## Findings

| source | as written | input that shows it | evidently intended | confidence | as-written member | corrected member |
|---|---|---|---|---|---|---|
| main/src/lcd_1602.c:111-116 | a wrap caused by a full row (`char_len >= 16`) also advances `str`, so the character that found the row full is never sent; the same holds in lcd_1602.c:69-74 | "ABCDEFGHIJKLMNOPQ" (17 characters): "Q" is dropped and the call returns FINISHED | only a newline is consumed by a wrap; a width-triggered wrap carries the character to the next row | not executed; high | Layout.SeventeenthCharDropped | Layout.IntendedSeventeenthCharKept |
| main/src/lcd_1602.c:112 | the guard `row < LCD_1602_MAX_ROWS` accepts two wraps on a two-row display; the second again moves to column 0 of row 1, so a third line overwrites the second and the call returns FINISHED; the same holds in lcd_1602.c:70 | "a\nb\nc": "c" is written over "b", with no INTERRUPTED | a wrap is accepted only while a further row exists (`row < MAX_ROWS - 1`), so a third line interrupts the call ("too long for screen", main/include/lcd_1602.h:46) | not executed; high | Layout.ThirdLineOverwritesRowOne | Layout.IntendedThirdLineInterrupts |

The driver models follow the code as written, and so does everything proved
about them. The corrected rule (`Layout.IntendedLayout`) exists only to state
the corrected behaviour, and the corrected members prove that behaviour
about it.
