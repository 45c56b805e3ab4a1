/** A terminal as far as the renderer can see it.

    The terminal remembers every row since the last clear: `history` is the scrollback
    followed by the `height` visible rows.  The cursor is an index into `history`, so a
    line feed on the bottom row simply makes `history` longer. */
module Terminal {
  import opened Numbers

  /** What one row shows.  Text printed anywhere but at the left edge of an erased row is
      `Garbled`: the renderer must never produce such a row. */
  datatype Row = Blank | Shows(text: string) | Garbled

  /** The column of the cursor: known, or somewhere after printed text. */
  datatype Column = At(n: nat) | AfterText

  /** The control functions of ECMA-48 the renderer writes, and printed text. */
  datatype Command =
    | CarriageReturn
    | LineFeed
    | CursorUp(n: nat)          // CUU, section 8.3.22
    | CursorDown(n: nat)        // CUD, section 8.3.19
    | CursorColumn(n: nat)      // CHA, section 8.3.9 (columns count from 1)
    | EraseLine                 // EL 2, section 8.3.41
    | EraseDisplay              // ED 2, section 8.3.39
    | EraseScrollback           // ED 3 (xterm)
    | Home                      // CUP, section 8.3.21
    | Print(text: string)

  /** `clamped` records that some vertical move ran into an edge of the screen. */
  datatype Screen = Screen(height: nat, history: seq<Row>, cursor: nat, column: Column, clamped: bool) {

    ghost predicate Valid() {
      && 1 <= height <= |history|
      && |history| - height <= cursor < |history|
    }

    /** The number of rows in the scrollback. */
    function Top(): nat
      requires height <= |history|
    {
      |history| - height
    }

    function Rows(): seq<Row>
      requires height <= |history|
    {
      history[Top()..]
    }

    function Scrollback(): seq<Row>
      requires height <= |history|
    {
      history[..Top()]
    }

    /** The visible row the cursor is on, from 0. */
    function CursorRow(): int
      requires height <= |history|
    {
      cursor - Top()
    }
  }

  function Blanks(n: nat): (rows: seq<Row>)
    ensures |rows| == n
    ensures forall i :: 0 <= i < n ==> rows[i] == Blank
  {
    seq(n, _ => Blank)
  }

  /** A cleared terminal with the cursor at home. */
  function Cleared(height: nat): Screen {
    Screen(height, Blanks(height), 0, At(0), false)
  }

  /** How one row changes when `text` is printed with the cursor at `column`. */
  function Printed(row: Row, column: Column, text: string): Row {
    if row.Blank? && column == At(0) then Shows(text) else Garbled
  }

  /** The effect of one command.  A count of 0 means 1, and vertical moves stop at the
      edges of the visible area; neither ever scrolls. */
  function Step(s: Screen, c: Command): (r: Screen)
    requires s.Valid()
    ensures r.Valid() && r.height == s.height
  {
    match c
    case CarriageReturn => s.(column := At(0))
    case LineFeed =>
      if s.cursor == |s.history| - 1 then
        s.(history := s.history + [Blank], cursor := s.cursor + 1)
      else
        s.(cursor := s.cursor + 1)
    case CursorUp(n) =>
      s.(cursor := Max(s.Top(), s.cursor - Max(1, n)),
         clamped := s.clamped || s.cursor - Max(1, n) < s.Top())
    case CursorDown(n) =>
      s.(cursor := Min(|s.history| - 1, s.cursor + Max(1, n)),
         clamped := s.clamped || s.cursor + Max(1, n) >= |s.history|)
    case CursorColumn(n) => s.(column := At(Max(1, n) - 1))
    case EraseLine => s.(history := s.history[s.cursor := Blank])
    case EraseDisplay => s.(history := s.Scrollback() + Blanks(s.height))
    case EraseScrollback => s.(history := s.Rows(), cursor := s.cursor - s.Top())
    case Home => s.(cursor := s.Top(), column := At(0))
    case Print(text) =>
      if text == "" then s
      else s.(history := s.history[s.cursor := Printed(s.history[s.cursor], s.column, text)],
              column := AfterText)
  }

  /** The effect of a whole buffer of commands. */
  function Run(s: Screen, buffer: seq<Command>): (r: Screen)
    requires s.Valid()
    ensures r.Valid() && r.height == s.height
    decreases |buffer|
  {
    if buffer == [] then s else Run(Step(s, buffer[0]), buffer[1..])
  }

  /** Writing one buffer and then another is writing their concatenation. */
  lemma {:induction false} RunConcat(s: Screen, a: seq<Command>, b: seq<Command>)
    requires s.Valid()
    ensures Run(s, a + b) == Run(Run(s, a), b)
    decreases |a|
  {
    if a == [] {
      assert a + b == b;
    } else {
      assert (a + b)[1..] == a[1..] + b;
      RunConcat(Step(s, a[0]), a[1..], b);
    }
  }

  lemma RunOne(s: Screen, c: Command)
    requires s.Valid()
    ensures Run(s, [c]) == Step(s, c)
  {
    assert [c][1..] == [];
  }

  lemma RunTwo(s: Screen, c: Command, d: Command)
    requires s.Valid()
    ensures Run(s, [c, d]) == Step(Step(s, c), d)
  {
    assert [c, d][1..] == [d];
    RunOne(Step(s, c), d);
  }

  lemma RunThree(s: Screen, c: Command, d: Command, e: Command)
    requires s.Valid()
    ensures Run(s, [c, d, e]) == Step(Step(Step(s, c), d), e)
  {
    assert [c, d, e][1..] == [d, e];
    RunTwo(Step(s, c), d, e);
  }

  /** The move by `delta` rows: down, up, or no command at all. */
  function Vertical(delta: int): seq<Command> {
    if delta > 0 then [CursorDown(delta)] else if delta < 0 then [CursorUp(-delta)] else []
  }

  /** A move that stays on the screen is exact. */
  lemma RunVertical(s: Screen, delta: int)
    requires s.Valid()
    requires 0 <= s.CursorRow() + delta < s.height
    ensures Run(s, Vertical(delta)) == s.(cursor := s.cursor + delta)
  {
    if delta != 0 {
      RunOne(s, Vertical(delta)[0]);
    }
  }

  /** Clear screen, home and clear scrollback leave a cleared terminal. */
  lemma RunClear(s: Screen)
    requires s.Valid()
    ensures Run(s, [EraseDisplay, Home, EraseScrollback]) == Cleared(s.height).(clamped := s.clamped)
  {
    ClearSteps(s);
    RunThree(s, EraseDisplay, Home, EraseScrollback);
  }

  lemma ClearSteps(s: Screen)
    requires s.Valid()
    ensures Step(Step(Step(s, EraseDisplay), Home), EraseScrollback) == Cleared(s.height).(clamped := s.clamped)
  {
    var t := s.(history := s.Scrollback() + Blanks(s.height));
    var u := t.(cursor := t.Top(), column := At(0));
    assert Step(s, EraseDisplay) == t && Step(t, Home) == u;
    assert u.Rows() == Blanks(s.height);
  }

  /** `rows` written over `history` from index `at` on, lengthening it if needed. */
  function Overlay(history: seq<Row>, at: nat, rows: seq<Row>): (r: seq<Row>)
    requires at <= |history|
    ensures |r| == Max(|history|, at + |rows|)
    ensures forall i :: 0 <= i < |r| ==>
      r[i] == if at <= i < at + |rows| then rows[i - at] else history[i]
  {
    history[..at] + rows + (if at + |rows| < |history| then history[at + |rows|..] else [])
  }

  /** After `home`, the lines `done` have been printed on successive rows from the cursor. */
  ghost predicate Painted(home: Screen, done: seq<Row>, t: Screen) {
    && home.Valid() && t.Valid() && t.height == home.height && t.clamped == home.clamped
    && t.history == Overlay(home.history, home.cursor, done)
    && t.cursor == home.cursor + Max(0, |done| - 1)
    && (done == [] ==> t.column == At(0))
  }

  /** The cursor is at the left edge of the row the next line belongs on. */
  ghost predicate AtNextRow(home: Screen, done: seq<Row>, t: Screen) {
    && home.Valid() && t.Valid() && t.height == home.height && t.clamped == home.clamped
    && t.cursor == home.cursor + |done| && t.column == At(0)
    && t.history == Overlay(home.history, home.cursor, done + (if t.cursor < |home.history| then [] else [Blank]))
  }

  /** Carriage return and line feed before every line but the first. */
  function RowBreak(first: bool): seq<Command> {
    if first then [] else [CarriageReturn, LineFeed]
  }

  /** A row break goes to the next row, a blank one past the bottom. */
  lemma RunRowBreak(s: Screen, buffer: seq<Command>, home: Screen, done: seq<Row>)
    requires s.Valid()
    requires Painted(home, done, Run(s, buffer))
    ensures AtNextRow(home, done, Run(s, buffer + RowBreak(done == [])))
  {
    if done == [] {
      assert buffer + [] == buffer;
    } else {
      RunConcat(s, buffer, [CarriageReturn, LineFeed]);
      RunTwo(Run(s, buffer), CarriageReturn, LineFeed);
      NewLineRows(home, done, Run(s, buffer));
    }
  }

  lemma NewLineRows(home: Screen, done: seq<Row>, t: Screen)
    requires done != [] && Painted(home, done, t)
    ensures AtNextRow(home, done, Step(Step(t, CarriageReturn), LineFeed))
  {
    if home.cursor + |done| >= |home.history| {
      assert t.history + [Blank] == Overlay(home.history, home.cursor, done + [Blank]);
    } else {
      assert done + [] == done;
    }
  }

  /** What a row shows after `text` was printed on it: nothing if there was no text. */
  function TextRow(text: string): Row { if text == "" then Blank else Shows(text) }

  /** Erasing the row and printing adds a painted line. */
  lemma RunErasePrint(s: Screen, buffer: seq<Command>, home: Screen, done: seq<Row>, text: string)
    requires s.Valid()
    requires AtNextRow(home, done, Run(s, buffer))
    ensures Painted(home, done + [TextRow(text)], Run(s, buffer + [EraseLine, Print(text)]))
  {
    var t := Run(s, buffer);
    RunConcat(s, buffer, [EraseLine, Print(text)]);
    RunTwo(t, EraseLine, Print(text));
    var u := Step(t, EraseLine);
    assert u.history[t.cursor] == Blank;
    assert u.history == Overlay(home.history, home.cursor, done + [Blank]);
    assert Step(u, Print(text)).history == Overlay(home.history, home.cursor, done + [TextRow(text)]);
  }

  /** Erasing the row alone adds a blank one. */
  lemma RunEraseRow(s: Screen, buffer: seq<Command>, home: Screen, done: seq<Row>)
    requires s.Valid()
    requires AtNextRow(home, done, Run(s, buffer))
    ensures Painted(home, done + [Blank], Run(s, buffer + [EraseLine]))
  {
    var t := Run(s, buffer);
    RunConcat(s, buffer, [EraseLine]);
    RunOne(t, EraseLine);
    assert Step(t, EraseLine).history == Overlay(home.history, home.cursor, done + [Blank]);
  }

  /** Where every row below is blank, printing alone is enough. */
  lemma RunPrint(s: Screen, buffer: seq<Command>, home: Screen, done: seq<Row>, text: string)
    requires s.Valid() && text != ""
    requires AtNextRow(home, done, Run(s, buffer))
    requires forall r :: home.cursor <= r < |home.history| ==> home.history[r] == Blank
    ensures Painted(home, done + [Shows(text)], Run(s, buffer + [Print(text)]))
  {
    var t := Run(s, buffer);
    RunConcat(s, buffer, [Print(text)]);
    RunOne(t, Print(text));
    assert Step(t, Print(text)).history == Overlay(home.history, home.cursor, done + [Shows(text)]);
  }
}
