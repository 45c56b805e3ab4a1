/** The differential renderer (packages/tui/src/tui.ts): one render emits the relative
    cursor moves, erasures and line feeds that turn what the terminal shows now into what
    it should show next. */
module Renderer {
  import opened Numbers
  import opened Strings
  import opened Terminal

  /** Style reset and hyperlink close appended to every line. */
  const SEGMENT_RESET := "\U{1B}[0m\U{1B}]8;;\U{7}"

  datatype CursorPosition = CursorPosition(row: nat, col: nat)

  /** What the components and overlays produced for one render. */
  datatype Frame = Frame(lines: seq<string>, cursor: Option<CursorPosition>, overlays: bool)

  /** The renderer's memory of the last render and the terminal it drives. */
  datatype Shot = Shot(lines: seq<string>, top: int, cursorRow: int, screen: Screen)

  // ----- what a terminal should show -----

  function RowAt(lines: seq<string>, i: int): Row {
    if 0 <= i < |lines| then Shows(lines[i]) else Blank
  }

  function RowsFrom(lines: seq<string>, from: nat, to: nat): (rows: seq<Row>)
    requires from <= to
    ensures |rows| == to - from
    ensures forall i :: 0 <= i < to - from ==> rows[i] == RowAt(lines, from + i)
  {
    seq(to - from, i => RowAt(lines, from + i))
  }

  ghost predicate NoEmptyLine(lines: seq<string>) {
    forall i :: 0 <= i < |lines| ==> lines[i] != ""
  }

  /** The remembered state describes the terminal: the visible rows show `lines` from `top`
      on, the cursor is where the renderer believes it is, and the last line is visible. */
  ghost predicate InSync(s: Shot) {
    && NoEmptyLine(s.lines)
    && 0 <= s.top
    && Displays(s.screen, s.lines, s.top, s.cursorRow)
    && |s.lines| <= s.top + s.screen.height
    && (s.top < |s.lines| || (s.lines == [] && s.top == 0 && s.cursorRow == 0))
  }

  /** `lines` repeats everything `s` has above its viewport, and goes on below. */
  ghost predicate ExtendsHistory(s: Shot, lines: seq<string>) {
    && 0 <= s.top <= |s.lines|
    && s.top < |lines|
    && lines[..s.top] == s.lines[..s.top]
  }

  /** How one render changes the terminal: `lines` is on display, and the scrollback was rebuilt
      if the render clears; otherwise it gained exactly the lines that scrolled off, or is as it was. */
  ghost predicate Redrawn(s: Shot, lines: seq<string>, r: Shot, clears: bool) {
    && InSync(r)
    && r.lines == lines
    && if clears then Rebuilt(lines, r)
       else Scrolled(s, lines, r) || (!ExtendsHistory(s, lines) && Realigned(s, lines, r))
  }

  /** Everything was cleared and printed again. */
  ghost predicate Rebuilt(lines: seq<string>, r: Shot) {
    && r.screen.Valid()
    && r.top == Max(0, |lines| - r.screen.height)
    && r.screen.Scrollback() == RowsFrom(lines, 0, r.top)
  }

  /** The viewport stayed or moved down; the lines it left behind are the new scrollback. */
  ghost predicate Scrolled(s: Shot, lines: seq<string>, r: Shot) {
    && s.screen.Valid() && r.screen.Valid()
    && 0 <= s.top
    && r.top == Max(s.top, |lines| - r.screen.height)
    && r.screen.Scrollback() == s.screen.Scrollback() + RowsFrom(lines, s.top, r.top)
  }

  /** The viewport moved up over rows that had already scrolled off. */
  ghost predicate Realigned(s: Shot, lines: seq<string>, r: Shot) {
    && s.screen.Valid() && r.screen.Valid()
    && r.top == Max(0, |lines| - r.screen.height)
    && r.screen.Scrollback() == s.screen.Scrollback()
  }

  /** The terminal cursor is where the frame asked for it, if that row is visible. */
  ghost predicate CursorPlaced(frame: Frame, r: Shot) {
    frame.cursor.Some? && |frame.lines| > 0 && r.top <= frame.cursor.value.row < r.top + r.screen.height ==>
      && r.cursorRow == frame.cursor.value.row
      && r.screen.column == At(frame.cursor.value.col)
  }

  /** The screen shows `lines` from `top` on, with the cursor on line `cursorRow`, and no
      vertical move was ever cut short. */
  ghost predicate Displays(s: Screen, lines: seq<string>, top: nat, cursorRow: int) {
    && s.Valid() && !s.clamped
    && s.Rows() == RowsFrom(lines, top, top + s.height)
    && s.CursorRow() == cursorRow - top
  }

  /** From `s`, which showed line `top` first, the screen scrolled down to `newTop`: it shows
      `lines`, and the scrollback gained exactly the lines that left the screen. */
  ghost predicate ScrolledTo(s: Screen, top: nat, lines: seq<string>, t: Screen, newTop: int, cursorRow: int) {
    && s.Valid() && top <= newTop
    && Displays(t, lines, newTop, cursorRow)
    && t.height == s.height
    && t.Scrollback() == s.Scrollback() + RowsFrom(lines, top, newTop)
  }

  /** Only the cursor was moved since the lines were drawn. */
  lemma CursorMoved(s: Shot, lines: seq<string>, drawn: Shot, r: Shot, clears: bool)
    requires Redrawn(s, lines, drawn, clears)
    requires r.lines == drawn.lines && r.top == drawn.top
    requires lines == [] ==> r.cursorRow == drawn.cursorRow
    requires r.screen.Valid() && r.screen.CursorRow() == r.cursorRow - r.top
    requires r.screen.height == drawn.screen.height && r.screen.history == drawn.screen.history
    requires r.screen.clamped == drawn.screen.clamped
    ensures Redrawn(s, lines, r, clears)
  {
  }

  /** Every visible row but those of lines `base` to `end` shows its line already. */
  ghost predicate Unchanged(s: Screen, top: int, lines: seq<string>, base: int, end: int)
    requires s.Valid()
  {
    forall r :: 0 <= r < s.height && !(base <= top + r < end) ==> s.Rows()[r] == RowAt(lines, top + r)
  }

  /** Where the old lines end if they reach further down than the new ones. */
  function EndOfOld(previousLength: nat, newLines: seq<string>): nat {
    if previousLength > |newLines| then previousLength else 0
  }

  /** From the screen of `s`, lines `base` to `end` were painted, starting on the row of line
      `base`, and every other visible row showed its line already.  Then the screen scrolled
      no more than needed. */
  lemma PaintedShows(s: Screen, home: Screen, lines: seq<string>, top: nat, base: nat, end: nat, t: Screen)
    requires s.Valid() && !s.clamped && top <= base < end
    requires home == s.(cursor := s.Top() + base - top, column := At(0))
    requires Painted(home, RowsFrom(lines, base, end), t)
    requires Unchanged(s, top, lines, base, end)
    ensures ScrolledTo(s, top, lines, t, Max(top, end - s.height), end - 1)
  {
    PaintedRows(s, home, lines, top, base, end, t);
    HistoryShows(s, t, lines, top, end - 1);
    assert top + t.Top() - s.Top() == Max(top, end - s.height);
  }

  lemma PaintedRows(s: Screen, home: Screen, lines: seq<string>, top: nat, base: nat, end: nat, t: Screen)
    requires s.Valid() && top <= base < end
    requires home == s.(cursor := s.Top() + base - top, column := At(0))
    requires Painted(home, RowsFrom(lines, base, end), t)
    requires Unchanged(s, top, lines, base, end)
    ensures forall k :: s.Top() <= k < |t.history| ==> t.history[k] == RowAt(lines, top + k - s.Top())
    ensures t.history[..s.Top()] == s.Scrollback()
  {
    forall k | s.Top() <= k < |t.history|
      ensures t.history[k] == RowAt(lines, top + k - s.Top())
    {
      if k < |s.history| {
        assert s.history[k] == s.Rows()[k - s.Top()];
      }
    }
  }

  /** A history that holds `lines` below the scrollback of `s` shows the last of them. */
  lemma HistoryShows(s: Screen, t: Screen, lines: seq<string>, top: nat, last: int)
    requires s.Valid() && t.Valid() && !t.clamped && t.height == s.height && s.Top() <= t.Top()
    requires t.history[..s.Top()] == s.Scrollback()
    requires forall k :: s.Top() <= k < |t.history| ==> t.history[k] == RowAt(lines, top + k - s.Top())
    requires t.cursor == s.Top() + last - top
    ensures ScrolledTo(s, top, lines, t, top + t.Top() - s.Top(), last)
  {
    assert t.Scrollback() == t.history[..s.Top()] + RowsFrom(lines, top, top + t.Top() - s.Top());
  }

  /** Printing every line on a blank screen from home shows the last screenful, and the rest
      scrolls off. */
  lemma PrintedFromHome(home: Screen, lines: seq<string>, t: Screen)
    requires Painted(home, RowsFrom(lines, 0, |lines|), t)
    requires home.cursor == home.Top() && home.column == At(0) && !home.clamped
    requires forall r :: home.cursor <= r < |home.history| ==> home.history[r] == Blank
    ensures Displays(t, lines, Max(0, |lines| - home.height), Max(0, |lines| - 1))
    ensures t.Scrollback() == home.Scrollback() + RowsFrom(lines, 0, Max(0, |lines| - home.height))
  {
    if lines != [] {
      PaintedShows(home, home, lines, 0, 0, |lines|, t);
    }
  }

  /** Moving to a row of the screen and to its left edge is ready to paint there. */
  lemma ToLeftEdge(s: Screen, delta: int)
    requires s.Valid() && 0 <= s.CursorRow() + delta < s.height
    ensures Run(s, Vertical(delta) + [CarriageReturn]) == s.(cursor := s.cursor + delta, column := At(0))
  {
    RunVertical(s, delta);
    RunConcat(s, Vertical(delta), [CarriageReturn]);
    RunOne(s.(cursor := s.cursor + delta), CarriageReturn);
  }

  /** A vertical move within the screen changes only the row of the cursor. */
  lemma MovedScrolled(s: Screen, buffer: seq<Command>, top: nat, lines: seq<string>, newTop: int, row: int, delta: int)
    requires s.Valid() && ScrolledTo(s, top, lines, Run(s, buffer), newTop, row)
    requires 0 <= row + delta - newTop < s.height
    ensures ScrolledTo(s, top, lines, Run(s, buffer + Vertical(delta)), newTop, row + delta)
  {
    RunConcat(s, buffer, Vertical(delta));
    RunVertical(Run(s, buffer), delta);
    MovedCursor(s, top, lines, Run(s, buffer), newTop, row, delta);
  }

  lemma MovedCursor(s: Screen, top: nat, lines: seq<string>, t: Screen, newTop: int, row: int, delta: int)
    requires ScrolledTo(s, top, lines, t, newTop, row)
    requires 0 <= row + delta - newTop < s.height
    ensures ScrolledTo(s, top, lines, t.(cursor := t.cursor + delta), newTop, row + delta)
  {
  }

  lemma RowsFromNext(lines: seq<string>, from: nat, to: nat)
    requires from <= to
    ensures RowsFrom(lines, from, to) + [RowAt(lines, to)] == RowsFrom(lines, from, to + 1)
  {
  }

  /** Nothing shown from the top on means every visible row is blank. */
  lemma BlankBelow(s: Screen)
    requires Displays(s, [], 0, 0)
    ensures forall r :: s.Top() <= r < |s.history| ==> s.history[r] == Blank
  {
    assert forall r :: s.Top() <= r < |s.history| ==> s.history[r] == s.Rows()[r - s.Top()];
  }

  /** All visible rows were painted from `start` on and the cursor moved back over the rows
      that were only cleared. */
  lemma ViewportPainted(s: Screen, home: Screen, buffer: seq<Command>, lines: seq<string>,
                        start: nat, written: int, clearRows: int)
    requires s.Valid() && !s.clamped && home == s.(cursor := s.Top(), column := At(0))
    requires start < |lines| || (start == 0 && lines == [])
    requires written == Max(1, |lines| - start) && clearRows == Max(0, s.height - written)
    requires Painted(home, RowsFrom(lines, start, start + written + clearRows), Run(s, buffer))
    ensures ScrolledTo(s, start, lines, Run(s, buffer + Vertical(-clearRows)),
                       Max(start, |lines| - s.height), start + written - 1)
  {
    hide Run, Displays, Painted;
    var end := start + written + clearRows;
    PaintedShows(s, home, lines, start, start, end, Run(s, buffer));
    MovedScrolled(s, buffer, start, lines, Max(start, end - s.height), end - 1, -clearRows);
  }

  /** One more line: a row break unless it is the first, an erasure if rows may be in use,
      and the text. */
  lemma PaintNext(s: Screen, buffer: seq<Command>, home: Screen, lines: seq<string>, base: nat, i: nat, erase: bool)
    requires s.Valid() && base <= i
    requires Painted(home, RowsFrom(lines, base, i), Run(s, buffer))
    requires NoEmptyLine(lines) && (erase || i < |lines|)
    requires erase || forall r :: home.cursor <= r < |home.history| ==> home.history[r] == Blank
    ensures Painted(home, RowsFrom(lines, base, i + 1), Run(s, buffer + LineCommands(lines, base, i, erase)))
  {
    var done := RowsFrom(lines, base, i);
    var b := buffer + RowBreak(i == base);
    var text := if i < |lines| then lines[i] else "";
    RunRowBreak(s, buffer, home, done);
    if erase {
      RunErasePrint(s, b, home, done, text);
      assert b + [EraseLine, Print(text)] == buffer + LineCommands(lines, base, i, erase);
    } else {
      RunPrint(s, b, home, done, text);
      assert b + [Print(text)] == buffer + LineCommands(lines, base, i, erase);
    }
    RowsFromNext(lines, base, i);
  }

  function LineCommands(lines: seq<string>, base: nat, i: nat, erase: bool): seq<Command> {
    RowBreak(i == base)
    + (if erase then [EraseLine] else [])
    + [Print(if i < |lines| then lines[i] else "")]
  }

  /** One more row below the text, erased. */
  lemma EraseNext(s: Screen, buffer: seq<Command>, home: Screen, lines: seq<string>, base: nat, i: nat)
    requires s.Valid() && base < i && |lines| <= i
    requires Painted(home, RowsFrom(lines, base, i), Run(s, buffer))
    ensures Painted(home, RowsFrom(lines, base, i + 1), Run(s, buffer + [CarriageReturn, LineFeed, EraseLine]))
  {
    var done := RowsFrom(lines, base, i);
    RunRowBreak(s, buffer, home, done);
    RunEraseRow(s, buffer + RowBreak(false), home, done);
    assert buffer + RowBreak(false) + [EraseLine] == buffer + [CarriageReturn, LineFeed, EraseLine];
    RowsFromNext(lines, base, i);
  }

  /** The painting loop: lines `from` to `to` below the lines `base` to `from`. */
  method PaintLines(ghost s: Screen, ghost home: Screen, buffer: seq<Command>,
                    lines: seq<string>, base: nat, from: nat, to: nat, erase: bool) returns (out: seq<Command>)
    requires s.Valid() && base <= from <= to
    requires Painted(home, RowsFrom(lines, base, from), Run(s, buffer))
    requires NoEmptyLine(lines) && (erase || to <= |lines|)
    requires erase || forall r :: home.cursor <= r < |home.history| ==> home.history[r] == Blank
    ensures Painted(home, RowsFrom(lines, base, to), Run(s, out))
  {
    out := buffer;
    for i := from to to
      invariant Painted(home, RowsFrom(lines, base, i), Run(s, out))
    {
      PaintNext(s, out, home, lines, base, i, erase);
      out := out + LineCommands(lines, base, i, erase);
    }
  }

  /** The erasing loop: rows `from` to `to`, below the last line. */
  method EraseRows(ghost s: Screen, ghost home: Screen, buffer: seq<Command>,
                   ghost lines: seq<string>, ghost base: nat, from: nat, to: nat) returns (out: seq<Command>)
    requires s.Valid() && base < from <= to && |lines| <= from
    requires Painted(home, RowsFrom(lines, base, from), Run(s, buffer))
    ensures Painted(home, RowsFrom(lines, base, to), Run(s, out))
  {
    out := buffer;
    for i := from to to
      invariant Painted(home, RowsFrom(lines, base, i), Run(s, out))
    {
      EraseNext(s, out, home, lines, base, i);
      out := out + [CarriageReturn, LineFeed, EraseLine];
    }
  }

  /** The buffer of the local `fullRender`: every line, after clearing the terminal if `clear`. */
  method FullRenderBuffer(s: Screen, clear: bool, newLines: seq<string>) returns (buffer: seq<Command>)
    requires s.Valid() && !s.clamped && NoEmptyLine(newLines)
    requires !clear ==> Displays(s, [], 0, 0)
    ensures var t := Run(s, buffer);
            var top := Max(0, |newLines| - s.height);
            && Displays(t, newLines, top, Max(0, |newLines| - 1))
            && t.Scrollback() == (if clear then [] else s.Scrollback()) + RowsFrom(newLines, 0, top)
  {
    ghost var home := if clear then Cleared(s.height) else s.(column := At(0));
    if clear {
      RunClear(s);
      buffer := [EraseDisplay, Home, EraseScrollback];
    } else {
      RunOne(s, CarriageReturn);
      buffer := [CarriageReturn];
      BlankBelow(s);
    }
    buffer := PaintLines(s, home, buffer, newLines, 0, 0, |newLines|, !clear);
    PrintedFromHome(home, newLines, Run(s, buffer));
  }

  /** Where the renderer believes the cursor is, clamped to the screen. */
  function ScreenRow(row: int, viewportTop: int, height: int): int {
    Max(0, Min(height - 1, row - viewportTop))
  }

  /** Every visible row again, from line `start` and the top of the screen. */
  method ViewportRows(s: Screen, currentScreenRow: int, newLines: seq<string>, start: nat)
    returns (buffer: seq<Command>, clearRows: int)
    requires s.Valid() && currentScreenRow == s.CursorRow() && NoEmptyLine(newLines)
    requires start <= |newLines|
    ensures clearRows == Max(0, s.height - Max(1, |newLines| - start))
    ensures Painted(s.(cursor := s.Top(), column := At(0)),
                    RowsFrom(newLines, start, start + Max(1, |newLines| - start) + clearRows), Run(s, buffer))
  {
    buffer := Vertical(-currentScreenRow) + [CarriageReturn];
    ghost var home := s.(cursor := s.Top(), column := At(0));
    ToLeftEdge(s, -currentScreenRow);
    var end := start + Max(1, |newLines| - start);
    buffer := PaintLines(s, home, buffer, newLines, start, start, end, true);
    clearRows := Max(0, s.height - (end - start));
    buffer := EraseRows(s, home, buffer, newLines, start, end, end + clearRows);
  }

  /** The buffer of the local `viewportRender`. */
  method ViewportBuffer(s: Screen, currentScreenRow: int, newLines: seq<string>, start: nat)
    returns (buffer: seq<Command>)
    requires s.Valid() && !s.clamped && currentScreenRow == s.CursorRow() && NoEmptyLine(newLines)
    requires start < |newLines| || (start == 0 && newLines == [])
    ensures ScrolledTo(s, start, newLines, Run(s, buffer),
                       Max(start, |newLines| - s.height), start + Max(1, |newLines| - start) - 1)
  {
    var rows, clearRows := ViewportRows(s, currentScreenRow, newLines, start);
    ViewportPainted(s, s.(cursor := s.Top(), column := At(0)), rows, newLines, start, Max(1, |newLines| - start),
      clearRows);
    buffer := rows + Vertical(-clearRows);
  }

  /** The loop of the deleted-tail path erases `extraLines` rows from the cursor down. */
  method EraseTail(ghost s: Screen, ghost home: Screen, buffer: seq<Command>, extraLines: nat)
    returns (out: seq<Command>)
    requires s.Valid() && home.Valid() && 1 <= extraLines
    requires home.CursorRow() + extraLines <= home.height
    requires Run(s, buffer) == home
    ensures Run(s, out) == home.(history := Overlay(home.history, home.cursor, Blanks(extraLines)),
                                 cursor := home.cursor + extraLines - 1, column := At(0))
  {
    out := buffer;
    for i := 0 to extraLines
      invariant i == 0 ==> Run(s, out) == home
      invariant i > 0 ==> Run(s, out) == Erased(home, i, Min(i, extraLines - 1))
    {
      var next := [CarriageReturn, EraseLine] + if i < extraLines - 1 then [CursorDown(1)] else [];
      RunConcat(s, out, next);
      EraseTailStep(home, Run(s, out), i, i < extraLines - 1);
      out := out + next;
    }
  }

  /** `n` rows erased from the cursor of `home` on, and the cursor `down` rows further. */
  function Erased(home: Screen, n: nat, down: nat): Screen
    requires home.Valid()
  {
    home.(history := Overlay(home.history, home.cursor, Blanks(n)), cursor := home.cursor + down, column := At(0))
  }

  lemma EraseTailStep(home: Screen, t: Screen, i: nat, more: bool)
    requires home.Valid() && home.CursorRow() + i + (if more then 1 else 0) < home.height
    requires t == if i == 0 then home else Erased(home, i, i)
    ensures Run(t, [CarriageReturn, EraseLine] + if more then [CursorDown(1)] else []) ==
            Erased(home, i + 1, if more then i + 1 else i)
  {
    RunTwo(t, CarriageReturn, EraseLine);
    var u := Erased(home, i + 1, i);
    assert Step(Step(t, CarriageReturn), EraseLine).history == u.history;
    if more {
      RunConcat(t, [CarriageReturn, EraseLine], [CursorDown(1)]);
      RunOne(u, CursorDown(1));
    } else {
      assert [CarriageReturn, EraseLine] + [] == [CarriageReturn, EraseLine];
    }
  }

  /** The local `computeLineDiff`, with both rows clamped to the screen. */
  function LineDiff(hardwareCursorRow: int, prevViewportTop: int, targetRow: int, viewportTop: int, height: int): int {
    ScreenRow(targetRow, viewportTop, height) - ScreenRow(hardwareCursorRow, prevViewportTop, height)
  }

  /** The screen once the rows of `lines[n..]` were erased and the cursor moved back. */
  lemma TailErased(s: Screen, lines: seq<string>, top: nat, n: nat, row: int, t: Screen)
    requires s.Valid() && Displays(s, lines, top, row)
    requires top <= n < |lines| <= top + s.height
    requires t.Valid() && !t.clamped && t.height == s.height
    requires t.history == Overlay(s.history, s.Top() + n - top, Blanks(|lines| - n))
    requires t.cursor == s.Top() + Max(0, n - 1) - top
    ensures Displays(t, lines[..n], top, Max(0, n - 1))
    ensures t.Scrollback() == s.Scrollback()
  {
    forall r | 0 <= r < s.height
      ensures t.Rows()[r] == RowAt(lines[..n], top + r)
    {
      assert s.history[s.Top() + r] == s.Rows()[r];
    }
    assert t.Rows() == RowsFrom(lines[..n], top, top + s.height);
  }

  /** The buffer of the deleted-tail path: erase the rows of lines that are gone. */
  method DeletedTailBuffer(s: Screen, hardwareCursorRow: int, top: nat, ghost lines: seq<string>, n: nat,
      extraLines: nat)
    returns (buffer: seq<Command>)
    requires Displays(s, lines, top, hardwareCursorRow)
    requires n < |lines| <= top + s.height && extraLines == |lines| - n
    requires top <= Max(0, n - 1)
    ensures Displays(Run(s, buffer), lines[..n], top, Max(0, n - 1))
    ensures Run(s, buffer).Scrollback() == s.Scrollback()
  {
    var targetRow := Max(0, n - 1);
    var lineDiff := LineDiff(hardwareCursorRow, top, targetRow, top, s.height);
    var clearStartOffset: int := if n == 0 then 0 else 1;
    buffer := Vertical(lineDiff) + [CarriageReturn] + Vertical(clearStartOffset);
    ghost var home := s.(cursor := s.Top() + n - top, column := At(0));
    ToTail(s, lineDiff, clearStartOffset);
    buffer := EraseTail(s, home, buffer, extraLines);
    var moveBack := Max(0, extraLines - 1 + clearStartOffset);
    TailCleared(s, buffer, home, lines, top, n, hardwareCursorRow, extraLines, moveBack);
    buffer := buffer + Vertical(-moveBack);
  }

  /** The rows were erased; the cursor goes back to the last line. */
  lemma TailCleared(s: Screen, buffer: seq<Command>, home: Screen, lines: seq<string>, top: nat, n: nat, row: int,
                    extraLines: nat, moveBack: int)
    requires Displays(s, lines, top, row)
    requires top <= n < |lines| <= top + s.height && extraLines == |lines| - n
    requires home == s.(cursor := s.Top() + n - top, column := At(0)) && home.Valid()
    requires Run(s, buffer) == home.(history := Overlay(home.history, home.cursor, Blanks(extraLines)),
                                     cursor := home.cursor + extraLines - 1, column := At(0))
    requires moveBack == extraLines - 1 + n - Max(0, n - 1) && top <= Max(0, n - 1)
    ensures Displays(Run(s, buffer + Vertical(-moveBack)), lines[..n], top, Max(0, n - 1))
    ensures Run(s, buffer + Vertical(-moveBack)).Scrollback() == s.Scrollback()
  {
    hide Run;
    var erased := Run(s, buffer);
    RunConcat(s, buffer, Vertical(-moveBack));
    RunVertical(erased, -moveBack);
    TailErased(s, lines, top, n, row, erased.(cursor := erased.cursor - moveBack));
  }

  lemma ToTail(s: Screen, delta: int, offset: int)
    requires s.Valid() && 0 <= s.CursorRow() + delta < s.height
    requires 0 <= s.CursorRow() + delta + offset < s.height
    ensures Run(s, Vertical(delta) + [CarriageReturn] + Vertical(offset)) ==
            s.(cursor := s.cursor + delta + offset, column := At(0))
  {
    ToLeftEdge(s, delta);
    RunConcat(s, Vertical(delta) + [CarriageReturn], Vertical(offset));
    RunVertical(s.(cursor := s.cursor + delta, column := At(0)), offset);
  }

  /** The buffer of the range path: paint lines `firstChanged` to `renderEnd`, then erase the
      rows of lines that are gone. */
  method RangeBuffer(s: Screen, hardwareCursorRow: int, prevViewportTop: nat, previousLength: nat,
                     newLines: seq<string>, firstChanged: nat, renderEnd: nat, appendStart: bool)
    returns (buffer: seq<Command>, finalCursorRow: int)
    requires s.Valid() && !s.clamped && s.CursorRow() == hardwareCursorRow - prevViewportTop
    requires NoEmptyLine(newLines)
    requires prevViewportTop < previousLength <= prevViewportTop + s.height
    requires prevViewportTop <= firstChanged <= renderEnd < |newLines|
    requires firstChanged <= previousLength
    requires appendStart <==> firstChanged == previousLength
    requires |newLines| != previousLength ==> renderEnd == |newLines| - 1
    requires Unchanged(s, prevViewportTop, newLines, firstChanged,
      Max(renderEnd + 1, EndOfOld(previousLength, newLines)))
    ensures finalCursorRow == renderEnd
    ensures ScrolledTo(s, prevViewportTop, newLines, Run(s, buffer),
                       Max(prevViewportTop, finalCursorRow - s.height + 1), finalCursorRow)
  {
    hide Run, Displays, Painted;
    var height := s.height;
    var prevViewportBottom := prevViewportTop + height - 1;
    var moveTargetRow := if appendStart then firstChanged - 1 else firstChanged;
    if moveTargetRow > prevViewportBottom {
      assert false;  // the first changed row is always on the screen, so nothing scrolls here
    }
    var lineDiff := LineDiff(hardwareCursorRow, prevViewportTop, moveTargetRow, prevViewportTop, height);
    ghost var home := s.(cursor := s.Top() + moveTargetRow - prevViewportTop, column := At(0));
    buffer := Vertical(lineDiff) + (if appendStart then [] else [CarriageReturn]);
    StartOfRange(s, home, newLines, prevViewportTop, moveTargetRow, lineDiff, appendStart);
    buffer := PaintLines(s, home, buffer, newLines, moveTargetRow, firstChanged, renderEnd + 1, true);
    finalCursorRow := renderEnd;
    if previousLength > |newLines| {
      if renderEnd < |newLines| - 1 {
        assert false;  // the last line that is gone is also the last changed one
      }
      var extraLines := previousLength - |newLines|;
      buffer := EraseRows(s, home, buffer, newLines, moveTargetRow, |newLines|, previousLength);
      RangePainted(s, home, buffer, newLines, prevViewportTop, moveTargetRow, previousLength, extraLines,
        finalCursorRow);
      buffer := buffer + Vertical(-extraLines);
    } else {
      RangePainted(s, home, buffer, newLines, prevViewportTop, moveTargetRow, renderEnd + 1, 0, finalCursorRow);
      assert buffer + Vertical(0) == buffer;
    }
  }

  /** The range was painted down to line `end` and the cursor moved `up` rows back. */
  lemma RangePainted(s: Screen, home: Screen, buffer: seq<Command>, lines: seq<string>, top: nat, base: nat, end: nat,
      up: int, last: int)
    requires s.Valid() && !s.clamped && top <= base < end && 0 <= up < end - top
    requires home == s.(cursor := s.Top() + base - top, column := At(0)) && home.Valid()
    requires up > 0 ==> end <= top + s.height
    requires last == end - 1 - up
    requires Painted(home, RowsFrom(lines, base, end), Run(s, buffer))
    requires Unchanged(s, top, lines, base, end)
    ensures ScrolledTo(s, top, lines, Run(s, buffer + Vertical(-up)), Max(top, last - s.height + 1), last)
  {
    hide Run, Displays, Painted, Unchanged;
    PaintedShows(s, home, lines, top, base, end, Run(s, buffer));
    MovedScrolled(s, buffer, top, lines, Max(top, end - s.height), end - 1, -up);
  }

  lemma OverlaySame(history: seq<Row>, at: nat)
    requires at < |history|
    ensures Overlay(history, at, [history[at]]) == history
  {
  }

  /** The cursor is on the first row to paint, or on the last old line when lines follow it. */
  lemma StartOfRange(s: Screen, home: Screen, lines: seq<string>, top: nat, row: nat, delta: int, append: bool)
    requires s.Valid() && top <= row < top + s.height
    requires s.CursorRow() + delta == row - top
    requires home == s.(cursor := s.Top() + row - top, column := At(0))
    requires append ==> s.Rows()[row - top] == RowAt(lines, row)
    ensures Painted(home, RowsFrom(lines, row, if append then row + 1 else row),
                    Run(s, Vertical(delta) + (if append then [] else [CarriageReturn])))
  {
    hide Run;
    if append {
      RunVertical(s, delta);
      assert Vertical(delta) + [] == Vertical(delta);
      assert s.history[home.cursor] == s.Rows()[row - top];
      assert RowsFrom(lines, row, row + 1) == [s.history[home.cursor]];
      OverlaySame(s.history, home.cursor);
    } else {
      ToLeftEdge(s, delta);
      assert RowsFrom(lines, row, row) == [];
    }
  }

  /** The lines that differ: none, or everything outside `first..last` is equal. */
  ghost predicate ChangedRange(old_: seq<string>, new_: seq<string>, first: int, last: int) {
    if first == -1 then old_ == new_
    else
      && 0 <= first <= last < Max(|old_|, |new_|)
      && RowAt(old_, first) != RowAt(new_, first)
      && (forall i :: 0 <= i < first ==> RowAt(old_, i) == RowAt(new_, i))
      && (forall i :: last < i ==> RowAt(old_, i) == RowAt(new_, i))
      && (|old_| != |new_| ==> last == Max(|old_|, |new_|) - 1)
  }

  /** The search for the first and last changed line. */
  method FindChangedRange(previousLines: seq<string>, newLines: seq<string>)
    returns (firstChanged: int, lastChanged: int)
    requires NoEmptyLine(previousLines) && NoEmptyLine(newLines)
    ensures ChangedRange(previousLines, newLines, firstChanged, lastChanged)
  {
    firstChanged, lastChanged := -1, -1;
    var maxLines := Max(|newLines|, |previousLines|);
    for i := 0 to maxLines
      invariant firstChanged == -1 ==>
        lastChanged == -1 && forall k :: 0 <= k < i ==> RowAt(previousLines, k) == RowAt(newLines, k)
      invariant firstChanged != -1 ==>
                  && 0 <= firstChanged <= lastChanged < i
                  && RowAt(previousLines, firstChanged) != RowAt(newLines, firstChanged)
                  && (forall k :: 0 <= k < firstChanged ==> RowAt(previousLines, k) == RowAt(newLines, k))
      invariant forall k :: lastChanged < k < i ==> RowAt(previousLines, k) == RowAt(newLines, k)
    {
      var oldLine := if i < |previousLines| then previousLines[i] else "";
      var newLine := if i < |newLines| then newLines[i] else "";
      assert oldLine == newLine <==> RowAt(previousLines, i) == RowAt(newLines, i);
      if oldLine != newLine {
        if firstChanged == -1 {
          firstChanged := i;
        }
        lastChanged := i;
      }
    }
    if |previousLines| != |newLines| {
      assert RowAt(previousLines, maxLines - 1) != RowAt(newLines, maxLines - 1);
    }
    if |newLines| > |previousLines| {
      if firstChanged == -1 {
        assert false;  // the first appended line is a change already
      }
      lastChanged := |newLines| - 1;
    }
    if firstChanged == -1 {
      SameRows(previousLines, newLines);
    }
  }

  /** A screen that scrolled down to the new lines is a redraw. */
  lemma ScrolledRedrawn(before: Shot, lines: seq<string>, t: Screen, newTop: int, row: int)
    requires before.screen.Valid() && 0 <= before.top && NoEmptyLine(lines)
    requires ScrolledTo(before.screen, before.top, lines, t, newTop, row)
    requires newTop == Max(before.top, |lines| - before.screen.height)
    requires newTop < |lines| || (lines == [] && newTop == 0 && row == 0)
    ensures Redrawn(before, lines, Shot(lines, newTop, row, t), false)
  {
  }

  /** When all changes lie past the new lines, the new lines are a proper prefix. */
  lemma TailRange(previousLines: seq<string>, newLines: seq<string>, firstChanged: int, lastChanged: int)
    requires ChangedRange(previousLines, newLines, firstChanged, lastChanged)
    requires firstChanged >= |newLines|
    ensures |newLines| < |previousLines| && newLines == previousLines[..|newLines|]
  {
    assert |newLines| < |previousLines|;
    forall k | 0 <= k < |newLines|
      ensures newLines[k] == previousLines[k]
    {
      assert RowAt(newLines, k) == RowAt(previousLines, k);
    }
  }

  /** The first change is at most one past the old lines, and lines outside the painted range
      are as they were. */
  lemma RangeOnScreen(s: Screen, top: nat, row: int, previousLines: seq<string>, newLines: seq<string>,
                      firstChanged: int, lastChanged: int)
    requires Displays(s, previousLines, top, row)
    requires ChangedRange(previousLines, newLines, firstChanged, lastChanged)
    requires 0 <= firstChanged < |newLines|
    ensures firstChanged <= |previousLines|
    ensures firstChanged == |previousLines| ==> |newLines| > |previousLines|
    ensures |newLines| != |previousLines| ==> Min(lastChanged, |newLines| - 1) == |newLines| - 1
    ensures Unchanged(s, top, newLines, firstChanged,
                      Max(Min(lastChanged, |newLines| - 1) + 1, EndOfOld(|previousLines|, newLines)))
  {
    assert firstChanged > |previousLines| ==> RowAt(previousLines, |previousLines|) == RowAt(newLines, |previousLines|);
  }

  lemma SameRows(a: seq<string>, b: seq<string>)
    requires forall k :: 0 <= k < Max(|a|, |b|) ==> RowAt(a, k) == RowAt(b, k)
    ensures a == b
  {
    assert RowAt(a, Min(|a|, |b|)) == RowAt(b, Min(|a|, |b|));
    forall k | 0 <= k < |a|
      ensures a[k] == b[k]
    {
      assert RowAt(a, k) == RowAt(b, k);
    }
  }

  // ----- the renderer and its terminal as one system -----

  /** All that decides what the next render does: memory, terminal, sizes and the option to
      clear when content shrinks below `maxLines`, the most lines since the last clear. */
  datatype System = System(
    shot: Shot, previousWidth: int, previousHeight: int, columns: int, maxLines: int, clearOnShrink: bool)

  predicate SizeChanged(y: System) {
    || (y.previousWidth != 0 && y.previousWidth != y.columns)
    || (y.previousHeight != 0 && y.previousHeight != y.shot.screen.height)
  }

  /** The content shrinks so far that the viewport would move up. */
  predicate MovesUp(s: Shot, frame: Frame) {
    && |frame.lines| < |s.lines| && !frame.overlays
    && Max(0, |frame.lines| - s.screen.height) < s.top
  }

  /** The guards under which a render clears the terminal and prints everything. */
  predicate Clears(y: System, frame: Frame) {
    || SizeChanged(y)
    || (&& y.shot.lines != [] && !MovesUp(y.shot, frame)
        && y.clearOnShrink && |frame.lines| < y.maxLines && !frame.overlays)
  }

  /** Unless the size changed or a redraw was forced, the renderer knows the terminal. */
  ghost predicate Invariant(y: System) {
    && y.shot.screen.Valid() && !y.shot.screen.clamped
    && 1 <= y.columns
    && (SizeChanged(y) || InSync(y.shot))
    && (y.shot.lines != [] ==> y.previousWidth != 0 && y.previousHeight != 0)
    && |y.shot.lines| <= y.maxLines
  }

  /** A clean screen with the cursor at home, before the first render. */
  ghost predicate Initial(y: System) {
    && 1 <= y.columns && 1 <= y.shot.screen.height
    && y == System(Shot([], 0, 0, Cleared(y.shot.screen.height)), 0, 0, y.columns, 0, y.clearOnShrink)
  }

  datatype Event =
    | Render(frame: Frame)
    | Force
    | Resize(columns: int, screen: Screen)
    | Configure(clearOnShrink: bool)

  /** What each event does to the system. */
  ghost predicate Next(y: System, e: Event, z: System) {
    match e
    case Render(frame) =>
      && Redrawn(y.shot, WithResets(frame.lines), z.shot, Clears(y, frame))
      && CursorPlaced(frame, z.shot)
      && z.columns == y.columns && z.shot.screen.height == y.shot.screen.height
      && z.previousWidth == z.columns && z.previousHeight == z.shot.screen.height
      && z.maxLines == (if Clears(y, frame) then |frame.lines| else Max(y.maxLines, |frame.lines|))
      && z.clearOnShrink == y.clearOnShrink
    case Force =>
      z == System(Shot([], 0, 0, y.shot.screen), -1, -1, y.columns, 0, y.clearOnShrink)
    case Resize(columns, screen) =>
      && 1 <= columns && screen.Valid() && !screen.clamped
      && z == y.(shot := y.shot.(screen := screen), columns := columns)
      && SizeChanged(z)
    case Configure(clearOnShrink) =>
      z == y.(clearOnShrink := clearOnShrink)
  }

  function WithResets(lines: seq<string>): (out: seq<string>)
    ensures |out| == |lines|
    ensures forall i :: 0 <= i < |lines| ==> out[i] == lines[i] + SEGMENT_RESET && out[i] != ""
  {
    seq(|lines|, i requires 0 <= i < |lines| => lines[i] + SEGMENT_RESET)
  }

  class TUI {
    var previousLines: seq<string>
    var previousWidth: int
    var previousHeight: int
    var cursorRow: int
    var hardwareCursorRow: int
    var maxLinesRendered: int
    var previousViewportTop: int
    var clearOnShrink: bool
    var columns: int      // terminal.columns
    var terminal: Screen  // terminal.rows is terminal.height

    ghost function State(): Shot
      reads this
    {
      Shot(previousLines, previousViewportTop, hardwareCursorRow, terminal)
    }

    ghost function Snapshot(): System
      reads this
    {
      System(State(), previousWidth, previousHeight, columns, maxLinesRendered, clearOnShrink)
    }

    ghost predicate Valid()
      reads this
    {
      Invariant(Snapshot())
    }

    constructor (columns: int, height: nat, clearOnShrink: bool)
      requires 1 <= columns && 1 <= height
      ensures Valid() && Initial(Snapshot())
      ensures this.columns == columns && terminal.height == height && this.clearOnShrink == clearOnShrink
    {
      previousLines := [];
      previousWidth, previousHeight := 0, 0;
      cursorRow, hardwareCursorRow := 0, 0;
      maxLinesRendered, previousViewportTop := 0, 0;
      this.clearOnShrink := clearOnShrink;
      this.columns := columns;
      terminal := Cleared(height);
    }

    /** `requestRender(true)`: forget everything, so that the next render clears and prints all. */
    method ForceRender()
      requires Valid()
      modifies this
      ensures Valid() && Next(old(Snapshot()), Force, Snapshot())
    {
      previousLines := [];
      previousWidth := -1;
      previousHeight := -1;
      cursorRow := 0;
      hardwareCursorRow := 0;
      maxLinesRendered := 0;
      previousViewportTop := 0;
    }

    method SetClearOnShrink(enabled: bool)
      requires Valid()
      modifies this`clearOnShrink
      ensures Valid() && Next(old(Snapshot()), Configure(enabled), Snapshot())
    {
      clearOnShrink := enabled;
    }

    /** The user resized the terminal, which may reflow its rows in any way. */
    method Resized(columns: int, screen: Screen)
      requires Valid() && 1 <= columns && screen.Valid() && !screen.clamped
      requires SizeChanged(Snapshot().(columns := columns, shot := State().(screen := screen)))
      modifies this`columns, this`terminal
      ensures Valid() && Next(old(Snapshot()), Resize(columns, screen), Snapshot())
    {
      this.columns := columns;
      terminal := screen;
    }

    /** Send a buffer to the terminal and note where that leaves the cursor and viewport. */
    method Write(buffer: seq<Command>, cursorRow: int, hardwareCursorRow: int, maxLinesRendered: int, viewportTop: int)
      requires terminal.Valid()
      modifies this`terminal, this`cursorRow, this`hardwareCursorRow, this`maxLinesRendered, this`previousViewportTop
      ensures terminal == Run(old(terminal), buffer)
      ensures this.cursorRow == cursorRow && this.hardwareCursorRow == hardwareCursorRow
      ensures this.maxLinesRendered == maxLinesRendered && previousViewportTop == viewportTop
    {
      terminal := Run(terminal, buffer);
      this.cursorRow := cursorRow;
      this.hardwareCursorRow := hardwareCursorRow;
      this.maxLinesRendered := maxLinesRendered;
      previousViewportTop := viewportTop;
    }

    method PositionHardwareCursor(cursorPos: Option<CursorPosition>, totalLines: nat)
      requires terminal.Valid()
      requires 0 <= previousViewportTop
      requires terminal.CursorRow() == hardwareCursorRow - previousViewportTop
      modifies this`terminal, this`cursorRow, this`hardwareCursorRow, this`maxLinesRendered, this`previousViewportTop
      ensures previousViewportTop == old(previousViewportTop) && maxLinesRendered == old(maxLinesRendered)
      ensures terminal.Valid()
      ensures terminal.height == old(terminal.height) && terminal.history == old(terminal.history)
      ensures terminal.clamped == old(terminal.clamped)
      ensures terminal.CursorRow() == hardwareCursorRow - previousViewportTop
      ensures totalLines == 0 ==> hardwareCursorRow == old(hardwareCursorRow)
      ensures cursorPos.Some? && totalLines > 0
              && previousViewportTop <= cursorPos.value.row < previousViewportTop + terminal.height ==>
                hardwareCursorRow == cursorPos.value.row && terminal.column == At(cursorPos.value.col)
    {
      if cursorPos.None? || totalLines <= 0 {
        return;
      }
      var height := terminal.height;
      var viewportTop := previousViewportTop;
      var viewportBottom := viewportTop + height - 1;
      if cursorPos.value.row < viewportTop || cursorPos.value.row > viewportBottom {
        return;
      }
      var targetRow := cursorPos.value.row;
      var targetCol := cursorPos.value.col;
      var currentScreenRow := Max(0, Min(height - 1, hardwareCursorRow - viewportTop));
      var targetScreenRow := targetRow - viewportTop;
      var rowDelta := targetScreenRow - currentScreenRow;
      var buffer := Vertical(rowDelta);
      RunVertical(terminal, rowDelta);
      RunConcat(terminal, buffer, [CursorColumn(targetCol + 1)]);
      RunOne(Run(terminal, buffer), CursorColumn(targetCol + 1));
      buffer := buffer + [CursorColumn(targetCol + 1)];
      Write(buffer, cursorRow, targetRow, maxLinesRendered, previousViewportTop);
    }

    /** What every path does after writing its buffer: place the cursor and remember. */
    method Remember(newLines: seq<string>, frame: Frame, ghost before: Shot, ghost clears: bool)
      requires Redrawn(before, newLines, Shot(newLines, previousViewportTop, hardwareCursorRow, terminal), clears)
      requires 1 <= columns && |newLines| == |frame.lines|
      modifies this
      ensures Rendered(before, newLines, frame, clears) && maxLinesRendered == old(maxLinesRendered)
      ensures columns == old(columns) && clearOnShrink == old(clearOnShrink)
      ensures terminal.height == old(terminal.height)
    {
      ghost var drawn := Shot(newLines, previousViewportTop, hardwareCursorRow, terminal);
      PositionHardwareCursor(frame.cursor, |newLines|);
      previousLines := newLines;
      previousWidth := columns;
      previousHeight := terminal.height;
      CursorMoved(before, newLines, drawn, State(), clears);
      hide Redrawn;
    }

    /** The local `fullRender`. */
    method FullRender(clear: bool, newLines: seq<string>, frame: Frame)
      requires terminal.Valid() && !terminal.clamped && 1 <= columns
      requires NoEmptyLine(newLines) && |newLines| == |frame.lines|
      requires !clear ==> InSync(State()) && previousLines == []
      modifies this
      ensures Rendered(old(State()), newLines, frame, clear)
      ensures maxLinesRendered == if clear then |newLines| else Max(old(maxLinesRendered), |newLines|)
      ensures columns == old(columns) && clearOnShrink == old(clearOnShrink)
      ensures terminal.height == old(terminal.height)
    {
      var height := terminal.height;
      var buffer := FullRenderBuffer(terminal, clear, newLines);
      var lastRow := Max(0, |newLines| - 1);
      var bufferLength := Max(height, |newLines|);
      Write(buffer, lastRow, lastRow, if clear then |newLines| else Max(maxLinesRendered, |newLines|),
            Max(0, bufferLength - height));
      Remember(newLines, frame, old(State()), clear);
    }

    /** The local `viewportRender`: show the new lines without touching the scrollback. */
    method ViewportRender(newLines: seq<string>, frame: Frame)
      requires InSync(State()) && 1 <= columns
      requires NoEmptyLine(newLines) && |newLines| == |frame.lines|
      modifies this
      ensures Rendered(old(State()), newLines, frame, false)
      ensures maxLinesRendered == Max(old(maxLinesRendered), |newLines|)
      ensures columns == old(columns) && clearOnShrink == old(clearOnShrink)
      ensures terminal.height == old(terminal.height)
    {
      hide Run;
      var height := terminal.height;
      var prevViewportTop := previousViewportTop;
      var preserveScrollback :=
        && |newLines| > prevViewportTop
        && forall i :: 0 <= i < prevViewportTop ==> i < |previousLines| && newLines[i] == previousLines[i];
      assert preserveScrollback <==> ExtendsHistory(State(), newLines);
      var start := if preserveScrollback then prevViewportTop
                   else Min(prevViewportTop, Max(0, |newLines| - height));
      var currentScreenRow := ScreenRow(hardwareCursorRow, prevViewportTop, height);
      var buffer := ViewportBuffer(terminal, currentScreenRow, newLines, start);
      Write(buffer, Max(0, |newLines| - 1), start + Max(1, |newLines| - start) - 1,
            Max(maxLinesRendered, |newLines|), Max(start, |newLines| - height));
      Remember(newLines, frame, old(State()), false);
    }

    /** One render. */
    method DoRender(frame: Frame)
      requires Valid()
      modifies this
      ensures Valid() && Next(old(Snapshot()), Render(frame), Snapshot())
    {
      var height := terminal.height;
      var widthChanged := previousWidth != 0 && previousWidth != columns;
      var heightChanged := previousHeight != 0 && previousHeight != height;
      var prevViewportTop := previousViewportTop;
      var newLines := WithResets(frame.lines);

      if previousLines == [] && !widthChanged && !heightChanged {
        FullRender(false, newLines, frame);
        return;
      }
      if widthChanged {
        FullRender(true, newLines, frame);
        return;
      }
      if heightChanged {
        FullRender(true, newLines, frame);
        return;
      }
      var contentViewportTop := Max(0, |newLines| - height);
      if |newLines| < |previousLines| && contentViewportTop < prevViewportTop && !frame.overlays {
        ViewportRender(newLines, frame);
        return;
      }
      if clearOnShrink && |newLines| < maxLinesRendered && !frame.overlays {
        FullRender(true, newLines, frame);
        return;
      }

      DifferentialRender(newLines, frame);
    }

    /** The part of a render that compares the new lines with the old ones. */
    method DifferentialRender(newLines: seq<string>, frame: Frame)
      requires InSync(State()) && 1 <= columns && previousLines != [] && |previousLines| <= maxLinesRendered
      requires previousWidth == columns && previousHeight == terminal.height
      requires NoEmptyLine(newLines) && |newLines| == |frame.lines|
      modifies this
      ensures Rendered(old(State()), newLines, frame, false)
      ensures maxLinesRendered == Max(old(maxLinesRendered), |newLines|)
      ensures columns == old(columns) && clearOnShrink == old(clearOnShrink)
      ensures terminal.height == old(terminal.height)
    {
      var height := terminal.height;
      var prevViewportTop := previousViewportTop;
      var firstChanged, lastChanged := FindChangedRange(previousLines, newLines);
      var appendStart := |newLines| > |previousLines| && firstChanged == |previousLines| && firstChanged > 0;
      if firstChanged == -1 {
        assert RowsFrom(newLines, previousViewportTop, previousViewportTop) == [];
        Remember(newLines, frame, State(), false);
        return;
      }
      if firstChanged >= |newLines| {
        DeletedTail(newLines, frame, firstChanged, lastChanged);
        return;
      }
      if firstChanged < prevViewportTop {
        ViewportRender(newLines, frame);
        return;
      }
      var renderEnd := Min(lastChanged, |newLines| - 1);
      if renderEnd - firstChanged + 1 > height {
        ViewportRender(newLines, frame);
        return;
      }
      RangeRender(newLines, frame, firstChanged, lastChanged, renderEnd, appendStart);
    }

    /** The path of a render whose changes are on the screen. */
    method RangeRender(newLines: seq<string>, frame: Frame, firstChanged: int, ghost lastChanged: int,
                       renderEnd: int, appendStart: bool)
      requires InSync(State()) && 1 <= columns && previousLines != []
      requires NoEmptyLine(newLines) && |newLines| == |frame.lines|
      requires ChangedRange(previousLines, newLines, firstChanged, lastChanged)
      requires previousViewportTop <= firstChanged < |newLines|
      requires renderEnd == Min(lastChanged, |newLines| - 1)
      requires appendStart <==> |newLines| > |previousLines| && firstChanged == |previousLines|
      modifies this
      ensures Rendered(old(State()), newLines, frame, false)
      ensures maxLinesRendered == Max(old(maxLinesRendered), |newLines|)
      ensures columns == old(columns) && clearOnShrink == old(clearOnShrink)
      ensures terminal.height == old(terminal.height)
    {
      hide Run, Unchanged;
      var height := terminal.height;
      var prevViewportTop := previousViewportTop;
      RangeOnScreen(terminal, prevViewportTop, hardwareCursorRow, previousLines, newLines, firstChanged, lastChanged);
      var buffer, finalCursorRow := RangeBuffer(terminal, hardwareCursorRow, prevViewportTop, |previousLines|,
                                                newLines, firstChanged, renderEnd, appendStart);
      Write(buffer, Max(0, |newLines| - 1), finalCursorRow,
            Max(maxLinesRendered, |newLines|), Max(prevViewportTop, finalCursorRow - height + 1));
      ScrolledRedrawn(old(State()), newLines, terminal, previousViewportTop, hardwareCursorRow);
      Remember(newLines, frame, old(State()), false);
    }

    /** The path of a render whose changes are all lines that are gone. */
    method DeletedTail(newLines: seq<string>, frame: Frame, firstChanged: int, lastChanged: int)
      requires InSync(State()) && 1 <= columns && previousLines != [] && |previousLines| <= maxLinesRendered
      requires NoEmptyLine(newLines) && |newLines| == |frame.lines|
      requires ChangedRange(previousLines, newLines, firstChanged, lastChanged) && firstChanged >= |newLines|
      modifies this
      ensures Rendered(old(State()), newLines, frame, false)
      ensures maxLinesRendered == Max(old(maxLinesRendered), |newLines|)
      ensures columns == old(columns) && clearOnShrink == old(clearOnShrink)
      ensures terminal.height == old(terminal.height)
    {
      var height := terminal.height;
      var prevViewportTop := previousViewportTop;
      TailRange(previousLines, newLines, firstChanged, lastChanged);
      if |previousLines| > |newLines| {
        var targetRow := Max(0, |newLines| - 1);
        if targetRow < prevViewportTop {
          ViewportRender(newLines, frame);
          return;
        }
        var extraLines := |previousLines| - |newLines|;
        if extraLines > height {
          assert false;  // all lines below the viewport top are on the screen
        }
        var buffer := DeletedTailBuffer(terminal, hardwareCursorRow, prevViewportTop, previousLines, |newLines|,
          extraLines);
        Write(buffer, targetRow, targetRow, maxLinesRendered, prevViewportTop);
      }
      Remember(newLines, frame, old(State()), false);
    }

    /** The state after any render: the frame is on display and the size is known. */
    ghost predicate Rendered(before: Shot, newLines: seq<string>, frame: Frame, clears: bool)
      reads this
    {
      && Redrawn(before, newLines, State(), clears)
      && CursorPlaced(frame, State())
      && 1 <= columns
      && previousWidth == columns && previousHeight == terminal.height
    }
  }
}
