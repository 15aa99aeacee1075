/** The text-layout rule of `lcd_1602_send_string`, which both driver
    variants share: walk the string up to its terminator, count the characters
    on the current row, and on a newline or on a full row move to the second
    row, at most twice, else stop.  The rule is stated as a plan of steps that
    the drivers then transmit; the plan does not look at the transport. */
module Layout {

  const ScreenWidth: nat := 16   // LCD_1602_SCREEN_CHAR_WIDTH
  const MaxRows: nat := 2        // LCD_1602_MAX_ROWS

  /** A C string is a sequence of 8-bit `char`s; the text ends at its first
      terminator byte, or at the end of the sequence. */
  type Text = seq<bv8>

  const Newline: bv8 := 0x0A      // '\n'
  const Terminator: bv8 := 0x00   // '\0'

  /** One pass of the loop that does not return: a character sent, or a wrap
      (`lcd_goto(0, 1)`, which also skips the character that triggered it). */
  datatype Step = Put(c: bv8) | Wrap

  /** How the loop ends: the terminator was reached, or a wrap was needed
      when no row was left. */
  datatype Stop = Done | Overflow

  datatype Plan = Plan(steps: seq<Step>, stop: Stop)

  function Prepend(st: Step, p: Plan): Plan
  {
    Plan([st] + p.steps, p.stop)
  }

  /** The wrap condition of the loop. */
  predicate IsTrigger(c: bv8, column: nat)
  {
    c == Newline || column >= ScreenWidth
  }

  /** The loop from position `i` of the string with `column` characters on
      the current row and `row` wraps done, as written: the wrap branch
      advances past the character whatever triggered it, and the guard
      accepts a wrap while `row < MaxRows`. */
  function LayoutFrom(s: Text, i: nat, column: nat, row: nat): Plan
    decreases |s| - i
  {
    if i >= |s| || s[i] == Terminator then Plan([], Done)
    else if IsTrigger(s[i], column) then
      if row < MaxRows then Prepend(Wrap, LayoutFrom(s, i + 1, 0, row + 1))
      else Plan([], Overflow)
    else Prepend(Put(s[i]), LayoutFrom(s, i + 1, column + 1, row))
  }

  function Layout(s: Text): Plan
  {
    LayoutFrom(s, 0, 0, 0)
  }

  // Views of a plan

  /** The column after carrying out `steps` from `column`. */
  function ColumnAfter(column: nat, steps: seq<Step>): nat
    decreases |steps|
  {
    if steps == [] then column
    else ColumnAfter(if steps[0].Wrap? then 0 else column + 1, steps[1..])
  }

  /** How many wraps a plan performs. */
  function Wraps(steps: seq<Step>): nat
  {
    if steps == [] then 0 else (if steps[0].Wrap? then 1 else 0) + Wraps(steps[1..])
  }

  /** The characters a plan sends, in order. */
  function SentChars(steps: seq<Step>): Text
  {
    if steps == [] then []
    else (if steps[0].Put? then [steps[0].c] else []) + SentChars(steps[1..])
  }

  /** The step the rule takes for character `c` in column `column`. */
  function StepFor(c: bv8, column: nat): Step
  {
    if IsTrigger(c, column) then Wrap else Put(c)
  }

  /** A plan that sends every character of `t` on the current row. */
  function Puts(t: Text): seq<Step>
  {
    if t == [] then [] else [Put(t[0])] + Puts(t[1..])
  }

  /** A text with no newline and no terminator in it. */
  predicate Plain(t: Text)
  {
    forall k :: 0 <= k < |t| ==> t[k] != Newline && t[k] != Terminator
  }

  lemma {:induction false} ColumnAfterCons(column: nat, st: Step, rest: seq<Step>, j: nat)
    requires j <= |rest|
    ensures ColumnAfter(column, ([st] + rest)[..j + 1])
         == ColumnAfter(if st.Wrap? then 0 else column + 1, rest[..j])
  {
    assert ([st] + rest)[..j + 1] == [st] + rest[..j];
    assert ([st] + rest[..j])[1..] == rest[..j];
  }

  /** Step `j` of `steps`, started at position `i` of `s` in column
      `column`, deals with character `i + j`, which is not the terminator:
      it is a wrap exactly when that character is a newline or the row is
      full, and otherwise sends that very character. */
  predicate StepMatches(s: Text, i: nat, column: nat, steps: seq<Step>, j: nat)
    requires j < |steps| && i + j < |s|
  {
    s[i + j] != Terminator && steps[j] == StepFor(s[i + j], ColumnAfter(column, steps[..j]))
  }

  /** Step by step, the plan handles the string one character at a time,
      and it ends at the terminator or, on overflow, at a wrap trigger. */
  lemma {:induction false} StepwiseFrom(s: Text, i: nat, column: nat, row: nat)
    requires i <= |s|
    ensures var p := LayoutFrom(s, i, column, row);
      && i + |p.steps| <= |s|
      && (forall j :: 0 <= j < |p.steps| ==> StepMatches(s, i, column, p.steps, j))
      && (p.stop == Done ==> i + |p.steps| == |s| || s[i + |p.steps|] == Terminator)
      && (p.stop == Overflow ==>
            && i + |p.steps| < |s|
            && s[i + |p.steps|] != Terminator
            && IsTrigger(s[i + |p.steps|], ColumnAfter(column, p.steps)))
    decreases |s| - i
  {
    var p := LayoutFrom(s, i, column, row);
    if i >= |s| || s[i] == Terminator {
      assert p == Plan([], Done);
    } else if IsTrigger(s[i], column) && row >= MaxRows {
      assert p == Plan([], Overflow);
    } else {
      var st := StepFor(s[i], column);
      var next := if st.Wrap? then 0 else column + 1;
      var nrow := if st.Wrap? then row + 1 else row;
      var q := LayoutFrom(s, i + 1, next, nrow);
      assert p == Prepend(st, q);
      StepwiseFrom(s, i + 1, next, nrow);
      forall j | 0 <= j < |p.steps|
        ensures StepMatches(s, i, column, p.steps, j)
      {
        if j == 0 {
          assert p.steps[..0] == [];
        } else {
          ColumnAfterCons(column, st, q.steps, j - 1);
          assert StepMatches(s, i + 1, next, q.steps, j - 1);
          assert p.steps[j] == q.steps[j - 1];
          assert i + j == (i + 1) + (j - 1);
        }
      }
      assert p.steps == [st] + q.steps[..|q.steps|];
      ColumnAfterCons(column, st, q.steps, |q.steps|);
      assert q.steps[..|q.steps|] == q.steps;
    }
  }

  /** The characterisation for a whole string. */
  lemma LayoutStepwise(s: Text)
    ensures var p := Layout(s);
      && |p.steps| <= |s|
      && (forall j :: 0 <= j < |p.steps| ==> StepMatches(s, 0, 0, p.steps, j))
      && (p.stop == Done ==> |p.steps| == |s| || s[|p.steps|] == Terminator)
      && (p.stop == Overflow ==>
            |p.steps| < |s| && s[|p.steps|] != Terminator && IsTrigger(s[|p.steps|], ColumnAfter(0, p.steps)))
  {
    StepwiseFrom(s, 0, 0, 0);
  }

  /** The row counter: a wrap is accepted only while wraps remain, so a plan
      from row `row` wraps at most `MaxRows - row` times, and it overflows
      only once all of them are used. */
  lemma {:induction false} WrapsFrom(s: Text, i: nat, column: nat, row: nat)
    requires row <= MaxRows
    ensures var p := LayoutFrom(s, i, column, row);
      && row + Wraps(p.steps) <= MaxRows
      && (p.stop == Overflow ==> row + Wraps(p.steps) == MaxRows)
    decreases |s| - i
  {
    var p := LayoutFrom(s, i, column, row);
    if i >= |s| || s[i] == Terminator {
    } else if IsTrigger(s[i], column) {
      if row < MaxRows {
        var q := LayoutFrom(s, i + 1, 0, row + 1);
        WrapsFrom(s, i + 1, 0, row + 1);
        assert p.steps == [Wrap] + q.steps;
        assert p.steps[1..] == q.steps;
      }
    } else {
      var q := LayoutFrom(s, i + 1, column + 1, row);
      WrapsFrom(s, i + 1, column + 1, row);
      assert p.steps[1..] == q.steps;
    }
  }

  /** At most two wraps per string; an overflow comes after exactly two. */
  lemma AtMostTwoWraps(s: Text)
    ensures Wraps(Layout(s).steps) <= MaxRows
    ensures Layout(s).stop == Overflow ==> Wraps(Layout(s).steps) == MaxRows
  {
    WrapsFrom(s, 0, 0, 0);
  }

  /** The character count of the row, after the first `j` steps of a plan
      started in column `column`, is within the width. */
  predicate ColumnFits(column: nat, steps: seq<Step>, j: nat)
    requires j <= |steps|
  {
    ColumnAfter(column, steps[..j]) <= ScreenWidth
  }

  /** The row's character count never exceeds the width: at every point of
      the plan the column is at most 16. */
  lemma {:induction false} ColumnBoundFrom(s: Text, i: nat, column: nat, row: nat)
    requires column <= ScreenWidth
    ensures forall j :: 0 <= j <= |LayoutFrom(s, i, column, row).steps| ==>
      ColumnFits(column, LayoutFrom(s, i, column, row).steps, j)
    decreases |s| - i
  {
    var p := LayoutFrom(s, i, column, row);
    if i >= |s| || s[i] == Terminator || (IsTrigger(s[i], column) && row >= MaxRows) {
      assert p.steps == [];
      assert p.steps[..0] == [];
    } else {
      var st := StepFor(s[i], column);
      var next := if st.Wrap? then 0 else column + 1;
      var nrow := if st.Wrap? then row + 1 else row;
      var q := LayoutFrom(s, i + 1, next, nrow);
      assert p == Prepend(st, q);
      ColumnBoundFrom(s, i + 1, next, nrow);
      forall j | 0 <= j <= |p.steps|
        ensures ColumnFits(column, p.steps, j)
      {
        if j == 0 {
          assert p.steps[..0] == [];
        } else {
          ColumnAfterCons(column, st, q.steps, j - 1);
          assert ColumnFits(next, q.steps, j - 1);
        }
      }
    }
  }

  lemma ColumnNeverExceedsWidth(s: Text)
    ensures forall j :: 0 <= j <= |Layout(s).steps| ==> ColumnFits(0, Layout(s).steps, j)
  {
    ColumnBoundFrom(s, 0, 0, 0);
  }

  // Consequences for particular texts

  /** An empty string, or one that starts with the terminator, has an empty
      plan and finishes. */
  lemma EmptyText(s: Text)
    requires s == [] || s[0] == Terminator
    ensures Layout(s) == Plan([], Done)
  {
  }

  lemma {:induction false} PutsAppend(a: Text, b: Text)
    ensures Puts(a + b) == Puts(a) + Puts(b)
  {
    if a != [] {
      assert (a + b)[1..] == a[1..] + b;
      PutsAppend(a[1..], b);
    } else {
      assert a + b == b;
    }
  }

  lemma {:induction false} SentCharsAppend(a: seq<Step>, b: seq<Step>)
    ensures SentChars(a + b) == SentChars(a) + SentChars(b)
  {
    if a != [] {
      assert (a + b)[1..] == a[1..] + b;
      SentCharsAppend(a[1..], b);
    } else {
      assert a + b == b;
    }
  }

  lemma {:induction false} SentCharsOfPuts(t: Text)
    ensures SentChars(Puts(t)) == t
  {
    if t != [] {
      SentCharsOfPuts(t[1..]);
      SentCharsAppend([Put(t[0])], Puts(t[1..]));
      assert SentChars([Put(t[0])]) == [t[0]];
    }
  }

  /** A run of `n` plain characters that fits on the current row is sent as
      it is, and the loop carries on after it. */
  lemma {:induction false} RunOfPuts(s: Text, i: nat, n: nat, column: nat, row: nat)
    requires i + n <= |s| && column + n <= ScreenWidth
    requires Plain(s[i..i + n])
    ensures var rest := LayoutFrom(s, i + n, column + n, row);
      LayoutFrom(s, i, column, row) == Plan(Puts(s[i..i + n]) + rest.steps, rest.stop)
    decreases n
  {
    if n > 0 {
      assert s[i..i + n][0] == s[i];
      assert s[i..i + n][1..] == s[i + 1..i + n];
      assert Plain(s[i + 1..i + n]);
      RunOfPuts(s, i + 1, n - 1, column + 1, row);
      assert i + 1 + (n - 1) == i + n;
    } else {
      assert s[i..i] == [];
    }
  }

  /** A line of at most 16 plain characters ended by a newline, while a
      wrap is still accepted: the line is sent, and the newline wraps. */
  lemma LineThenNewline(s: Text, i: nat, n: nat, row: nat)
    requires i + n < |s| && n <= ScreenWidth && Plain(s[i..i + n])
    requires s[i + n] == Newline && row < MaxRows
    ensures var rest := LayoutFrom(s, i + n + 1, 0, row + 1);
      LayoutFrom(s, i, 0, row) == Plan(Puts(s[i..i + n]) + [Wrap] + rest.steps, rest.stop)
  {
    RunOfPuts(s, i, n, 0, row);
  }

  /** A last line of at most 16 plain characters is sent and finishes. */
  lemma LastLine(s: Text, i: nat, row: nat)
    requires i <= |s| && |s| - i <= ScreenWidth && Plain(s[i..])
    ensures LayoutFrom(s, i, 0, row) == Plan(Puts(s[i..]), Done)
  {
    assert s[i..|s|] == s[i..];
    RunOfPuts(s, i, |s| - i, 0, row);
  }

  /** A string of at most 16 plain characters fills row 0 from column 0 and
      finishes. */
  lemma SingleRow(s: Text)
    requires |s| <= ScreenWidth && Plain(s)
    ensures Layout(s) == Plan(Puts(s), Done)
  {
    assert s[0..] == s;
    LastLine(s, 0, 0);
  }

  /** Two lines of at most 16 plain characters joined by one newline land on
      the two rows and finish. */
  lemma TwoLines(a: Text, b: Text)
    requires |a| <= ScreenWidth && |b| <= ScreenWidth && Plain(a) && Plain(b)
    ensures Layout(a + [Newline] + b) == Plan(Puts(a) + [Wrap] + Puts(b), Done)
  {
    var s := a + [Newline] + b;
    assert s[0..|a|] == a;
    assert s[|a| + 1..] == b;
    LineThenNewline(s, 0, |a|, 0);
    LastLine(s, |a| + 1, 1);
  }

  /** FINDING, as written: when row 0 is full the wrap also skips the next
      character, so of 17 plain characters the 17th is never sent, and the
      call still finishes. */
  lemma SeventeenthCharDropped(s: Text)
    requires |s| == ScreenWidth + 1 && Plain(s)
    ensures Layout(s) == Plan(Puts(s[..ScreenWidth]) + [Wrap], Done)
    ensures SentChars(Layout(s).steps) == s[..ScreenWidth] != s
  {
    assert s[0..ScreenWidth] == s[..ScreenWidth];
    RunOfPuts(s, 0, ScreenWidth, 0, 0);
    assert LayoutFrom(s, ScreenWidth, ScreenWidth, 0) == Prepend(Wrap, LayoutFrom(s, ScreenWidth + 1, 0, 1));
    SentCharsAppend(Puts(s[..ScreenWidth]), [Wrap]);
    SentCharsOfPuts(s[..ScreenWidth]);
    assert SentChars([Wrap]) == [];
  }

  /** The loop looks only at the text ahead of it: what came before
      position `|x|` plays no part. */
  lemma {:induction false} LayoutFromSuffix(x: Text, y: Text, i: nat, column: nat, row: nat)
    ensures LayoutFrom(x + y, |x| + i, column, row) == LayoutFrom(y, i, column, row)
    decreases |y| - i
  {
    if i < |y| {
      assert (x + y)[|x| + i] == y[i];
      LayoutFromSuffix(x, y, i + 1, 0, row + 1);
      LayoutFromSuffix(x, y, i + 1, column + 1, row);
    }
  }

  /** A first line of at most 16 plain characters, a newline, and the rest:
      the line is sent, the newline wraps, and the rest is laid out from
      column 0 of the next row. */
  lemma LineThenRest(a: Text, r: Text, row: nat, rest: Plan)
    requires |a| <= ScreenWidth && Plain(a) && row < MaxRows
    requires LayoutFrom(r, 0, 0, row + 1) == rest
    ensures LayoutFrom(a + [Newline] + r, 0, 0, row) == Plan(Puts(a) + [Wrap] + rest.steps, rest.stop)
  {
    var s := a + [Newline] + r;
    assert s[0..|a|] == a;
    LineThenNewline(s, 0, |a|, row);
    assert s == (a + [Newline]) + r;
    LayoutFromSuffix(a + [Newline], r, 0, 0, row + 1);
  }

  /** FINDING, as written: the guard `row < MaxRows` accepts a second wrap,
      which again moves to the start of row 1, so a third line is written
      over the second instead of interrupting the call. */
  lemma ThirdLineOverwritesRowOne(a: Text, b: Text, c: Text)
    requires |a| <= ScreenWidth && |b| <= ScreenWidth && |c| <= ScreenWidth
    requires Plain(a) && Plain(b) && Plain(c)
    ensures Layout(a + [Newline] + (b + [Newline] + c))
         == Plan(Puts(a) + [Wrap] + (Puts(b) + [Wrap] + Puts(c)), Done)
  {
    assert c[0..] == c;
    LastLine(c, 0, 2);
    LineThenRest(b, c, 1, Plan(Puts(c), Done));
    LineThenRest(a, b + [Newline] + c, 0, Plan(Puts(b) + [Wrap] + Puts(c), Done));
  }

  /** A string of 32 plain characters, as written: row 0 takes the first 16,
      the 17th is skipped, and row 1 takes the remaining 15. */
  lemma ThirtyTwoPlainChars(s: Text)
    requires |s| == 2 * ScreenWidth && Plain(s)
    ensures Layout(s) == Plan(Puts(s[..ScreenWidth]) + [Wrap] + Puts(s[ScreenWidth + 1..]), Done)
  {
    assert s[0..ScreenWidth] == s[..ScreenWidth];
    RunOfPuts(s, 0, ScreenWidth, 0, 0);
    assert LayoutFrom(s, ScreenWidth, ScreenWidth, 0) == Prepend(Wrap, LayoutFrom(s, ScreenWidth + 1, 0, 1));
    LastLine(s, ScreenWidth + 1, 1);
  }

  // The corrected layout, for the findings above

  /** The corrected rule: a width-triggered wrap keeps the character for the
      next row (only a newline is skipped), and a wrap is accepted only while
      a further row exists, so a text too long for the screen is interrupted,
      as the documentation of `lcd_1602_send_string` promises
      (main/include/lcd_1602.h:46). */
  function IntendedFrom(s: Text, i: nat, column: nat, row: nat): Plan
    requires row < MaxRows
    decreases |s| - i, MaxRows - row
  {
    if i >= |s| || s[i] == Terminator then Plan([], Done)
    else if IsTrigger(s[i], column) then
      if row < MaxRows - 1 then
        Prepend(Wrap, IntendedFrom(s, if s[i] == Newline then i + 1 else i, 0, row + 1))
      else Plan([], Overflow)
    else Prepend(Put(s[i]), IntendedFrom(s, i + 1, column + 1, row))
  }

  function IntendedLayout(s: Text): Plan
  {
    IntendedFrom(s, 0, 0, 0)
  }

  /** The characters of the text from `i` up to its terminator, without the
      newlines. */
  function VisibleFrom(s: Text, i: nat): Text
    decreases |s| - i
  {
    if i >= |s| || s[i] == Terminator then []
    else (if s[i] == Newline then [] else [s[i]]) + VisibleFrom(s, i + 1)
  }

  /** Corrected rule: a call that finishes has sent every visible character of
      the text, in order. */
  lemma {:induction false} IntendedKeepsEveryCharFrom(s: Text, i: nat, column: nat, row: nat)
    requires row < MaxRows
    ensures IntendedFrom(s, i, column, row).stop == Done ==>
      SentChars(IntendedFrom(s, i, column, row).steps) == VisibleFrom(s, i)
    decreases |s| - i, MaxRows - row
  {
    var p := IntendedFrom(s, i, column, row);
    if i >= |s| || s[i] == Terminator {
    } else if IsTrigger(s[i], column) {
      if row < MaxRows - 1 {
        var i' := if s[i] == Newline then i + 1 else i;
        var q := IntendedFrom(s, i', 0, row + 1);
        IntendedKeepsEveryCharFrom(s, i', 0, row + 1);
        SentCharsAppend([Wrap], q.steps);
        assert SentChars([Wrap]) == [];
      }
    } else {
      var q := IntendedFrom(s, i + 1, column + 1, row);
      IntendedKeepsEveryCharFrom(s, i + 1, column + 1, row);
      SentCharsAppend([Put(s[i])], q.steps);
      assert SentChars([Put(s[i])]) == [s[i]];
    }
  }

  lemma IntendedKeepsEveryChar(s: Text)
    ensures IntendedLayout(s).stop == Done ==> SentChars(IntendedLayout(s).steps) == VisibleFrom(s, 0)
  {
    IntendedKeepsEveryCharFrom(s, 0, 0, 0);
  }

  lemma {:induction false} IntendedRunOfPuts(s: Text, i: nat, n: nat, column: nat, row: nat)
    requires row < MaxRows
    requires i + n <= |s| && column + n <= ScreenWidth
    requires Plain(s[i..i + n])
    ensures var rest := IntendedFrom(s, i + n, column + n, row);
      IntendedFrom(s, i, column, row) == Plan(Puts(s[i..i + n]) + rest.steps, rest.stop)
    decreases n
  {
    if n > 0 {
      assert s[i..i + n][0] == s[i];
      assert s[i..i + n][1..] == s[i + 1..i + n];
      assert Plain(s[i + 1..i + n]);
      IntendedRunOfPuts(s, i + 1, n - 1, column + 1, row);
      assert i + 1 + (n - 1) == i + n;
    } else {
      assert s[i..i] == [];
    }
  }

  /** Corrected rule: the 17th plain character opens row 1. */
  lemma IntendedSeventeenthCharKept(s: Text)
    requires |s| == ScreenWidth + 1 && Plain(s)
    ensures IntendedLayout(s) == Plan(Puts(s[..ScreenWidth]) + [Wrap, Put(s[ScreenWidth])], Done)
    ensures SentChars(IntendedLayout(s).steps) == s
  {
    var w := ScreenWidth;
    assert s[0..w] == s[..w];
    IntendedRunOfPuts(s, 0, w, 0, 0);
    assert s[w] != Newline && s[w] != Terminator;
    assert IntendedFrom(s, w + 1, 1, 1) == Plan([], Done);
    assert IntendedFrom(s, w, 0, 1) == Prepend(Put(s[w]), IntendedFrom(s, w + 1, 1, 1));
    assert IntendedFrom(s, w, w, 0) == Prepend(Wrap, IntendedFrom(s, w, 0, 1));
    SentCharsAppend(Puts(s[..w]), [Wrap, Put(s[w])]);
    SentCharsOfPuts(s[..w]);
    assert [Wrap, Put(s[w])][1..] == [Put(s[w])];
    assert [Put(s[w])][1..] == [];
    assert SentChars([Put(s[w])]) == [s[w]] + SentChars([]);
    assert SentChars([Wrap, Put(s[w])]) == [] + SentChars([Put(s[w])]);
    assert s == s[..w] + [s[w]];
  }

  /** Corrected rule: 32 plain characters fill both rows exactly and finish;
      a further character interrupts the call. */
  lemma IntendedFillsBothRows(s: Text)
    requires 2 * ScreenWidth <= |s| && Plain(s[..2 * ScreenWidth])
    ensures var p := IntendedLayout(s);
      && p.steps == Puts(s[..ScreenWidth]) + [Wrap] + Puts(s[ScreenWidth..2 * ScreenWidth])
      && (p.stop == Done <==> |s| == 2 * ScreenWidth || s[2 * ScreenWidth] == Terminator)
  {
    var w := ScreenWidth;
    var t := s[..2 * w];
    assert s[0..w] == t[0..w] && s[w..w + w] == t[w..w + w];
    assert s[w] == t[w];
    IntendedRunOfPuts(s, 0, w, 0, 0);
    assert IntendedFrom(s, w, w, 0) == Prepend(Wrap, IntendedFrom(s, w, 0, 1));
    IntendedRunOfPuts(s, w, w, 0, 1);
    assert s[..w] == s[0..w];
  }

  /** Corrected rule: the loop looks only at the text ahead of it. */
  lemma {:induction false} IntendedFromSuffix(x: Text, y: Text, i: nat, column: nat, row: nat)
    requires row < MaxRows
    ensures IntendedFrom(x + y, |x| + i, column, row) == IntendedFrom(y, i, column, row)
    decreases |y| - i, MaxRows - row
  {
    if i < |y| {
      assert (x + y)[|x| + i] == y[i];
      if row < MaxRows - 1 {
        IntendedFromSuffix(x, y, i + 1, 0, row + 1);
        IntendedFromSuffix(x, y, i, 0, row + 1);
      }
      IntendedFromSuffix(x, y, i + 1, column + 1, row);
    }
  }

  /** Corrected rule: a first line ended by a newline while a further row
      exists is sent, the newline wraps, and the rest is laid out from
      column 0 of the next row. */
  lemma IntendedLineThenRest(a: Text, r: Text, row: nat, rest: Plan)
    requires |a| <= ScreenWidth && Plain(a) && row < MaxRows - 1
    requires IntendedFrom(r, 0, 0, row + 1) == rest
    ensures IntendedFrom(a + [Newline] + r, 0, 0, row) == Plan(Puts(a) + [Wrap] + rest.steps, rest.stop)
  {
    var s := a + [Newline] + r;
    assert s[0..|a|] == a;
    IntendedRunOfPuts(s, 0, |a|, 0, row);
    assert s == (a + [Newline]) + r;
    IntendedFromSuffix(a + [Newline], r, 0, 0, row + 1);
    assert IntendedFrom(s, |a|, |a|, row) == Prepend(Wrap, IntendedFrom(s, |a| + 1, 0, row + 1));
  }

  /** Corrected rule: a line on the last row ended by a newline is sent, and
      the newline interrupts the call. */
  lemma IntendedLastRowNewline(b: Text, c: Text)
    requires |b| <= ScreenWidth && Plain(b)
    ensures IntendedFrom(b + [Newline] + c, 0, 0, MaxRows - 1) == Plan(Puts(b), Overflow)
  {
    var s := b + [Newline] + c;
    assert s[0..|b|] == b;
    IntendedRunOfPuts(s, 0, |b|, 0, MaxRows - 1);
    assert IntendedFrom(s, |b|, |b|, MaxRows - 1) == Plan([], Overflow);
    assert Puts(b) + [] == Puts(b);
  }

  /** Corrected rule: a third line interrupts the call after the second. */
  lemma IntendedThirdLineInterrupts(a: Text, b: Text, c: Text)
    requires |a| <= ScreenWidth && |b| <= ScreenWidth
    requires Plain(a) && Plain(b)
    ensures IntendedLayout(a + [Newline] + (b + [Newline] + c)) == Plan(Puts(a) + [Wrap] + Puts(b), Overflow)
  {
    IntendedLastRowNewline(b, c);
    IntendedLineThenRest(a, b + [Newline] + c, 0, Plan(Puts(b), Overflow));
  }
}
