/** What every run of the renderer keeps, and that the differential form agrees with the
    simple one, "clear and print everything". */
module RendererRuns {
  import opened Numbers
  import opened Strings
  import opened Terminal
  import opened Renderer

  // ----- the simple form -----

  /** The lines `lines[..n]` printed one below the other. */
  function PrintAll(lines: seq<string>, n: nat): seq<Command>
    requires n <= |lines|
  {
    if n == 0 then [] else PrintAll(lines, n - 1) + LineCommands(lines, 0, n - 1, false)
  }

  function ClearAndPrint(lines: seq<string>): seq<Command> {
    [EraseDisplay, Home, EraseScrollback] + PrintAll(lines, |lines|)
  }

  lemma {:induction false} PrintAllPaints(home: Screen, lines: seq<string>, n: nat)
    requires home.Valid() && home.cursor == home.Top() && home.column == At(0)
    requires forall r :: home.cursor <= r < |home.history| ==> home.history[r] == Blank
    requires NoEmptyLine(lines) && n <= |lines|
    ensures Painted(home, RowsFrom(lines, 0, n), Run(home, PrintAll(lines, n)))
  {
    if n == 0 {
      assert RowsFrom(lines, 0, 0) == [];
    } else {
      PrintAllPaints(home, lines, n - 1);
      PaintNext(home, PrintAll(lines, n - 1), home, lines, 0, n - 1, false);
    }
  }

  /** The simple form shows the last screenful, with every earlier line in the scrollback. */
  lemma SimpleForm(s: Screen, lines: seq<string>)
    requires s.Valid() && !s.clamped && NoEmptyLine(lines)
    ensures var t := Run(s, ClearAndPrint(lines));
            var top := Max(0, |lines| - s.height);
            Displays(t, lines, top, Max(0, |lines| - 1)) && t.Scrollback() == RowsFrom(lines, 0, top)
  {
    var home := Cleared(s.height);
    RunConcat(s, [EraseDisplay, Home, EraseScrollback], PrintAll(lines, |lines|));
    RunClear(s);
    PrintAllPaints(home, lines, |lines|);
    PrintedFromHome(home, lines, Run(home, PrintAll(lines, |lines|)));
  }

  /** A differential render that leaves the viewport aligned with the end of the lines shows
      exactly what the simple form would. */
  lemma FastAgreesWithSimple(y: System, frame: Frame, z: System)
    requires Invariant(y) && Next(y, Render(frame), z)
    requires z.shot.top == Max(0, |frame.lines| - z.shot.screen.height)
    ensures z.shot.screen.Rows() == Run(y.shot.screen, ClearAndPrint(WithResets(frame.lines))).Rows()
  {
    hide Run, ClearAndPrint, Clears, Rebuilt, Scrolled, Realigned;
    SimpleForm(y.shot.screen, WithResets(frame.lines));
  }

  // ----- runs -----

  ghost predicate IsRun(states: seq<System>, events: seq<Event>) {
    && |states| == |events| + 1
    && forall i :: 0 <= i < |events| ==> Next(states[i], events[i], states[i + 1])
  }

  /** After a render the frame is on display: row by row, cursor included. */
  ghost predicate OnDisplay(frame: Frame, z: System) {
    && z.shot.screen.Valid() && !z.shot.screen.clamped
    && 0 <= z.shot.top
    && (forall r :: 0 <= r < z.shot.screen.height ==>
          z.shot.screen.Rows()[r] ==
          if z.shot.top + r < |frame.lines| then Shows(frame.lines[z.shot.top + r] + SEGMENT_RESET) else Blank)
    && z.shot.screen.CursorRow() == z.shot.cursorRow - z.shot.top
    && (frame.lines != [] ==> z.shot.top < |frame.lines| <= z.shot.top + z.shot.screen.height)
    && CursorPlaced(frame, z.shot)
  }

  /** Over every run of renders, forced renders and resizes, what is displayed after a render
      is its frame, and no cursor move was ever cut short by an edge of the screen. */
  lemma {:induction false} RunsDisplayTheirFrames(states: seq<System>, events: seq<Event>)
    requires IsRun(states, events) && Initial(states[0])
    ensures forall i :: 0 <= i < |states| ==> Invariant(states[i])
    ensures forall i :: 0 <= i < |events| && events[i].Render? ==> OnDisplay(events[i].frame, states[i + 1])
    decreases |events|
  {
    if events != [] {
      var n := |events| - 1;
      RunsDisplayTheirFrames(states[..n + 1], events[..n]);
      assert states[..n + 1][n] == states[n];
      StepKeepsInvariant(states[n], events[n], states[n + 1]);
      forall i | 0 <= i < |states|
        ensures Invariant(states[i])
      {
        assert i <= n ==> states[i] == states[..n + 1][i];
      }
      forall i | 0 <= i < |events| && events[i].Render?
        ensures OnDisplay(events[i].frame, states[i + 1])
      {
        assert i < n ==> events[i] == events[..n][i] && states[i + 1] == states[..n + 1][i + 1];
      }
    }
  }

  lemma StepKeepsInvariant(y: System, e: Event, z: System)
    requires Invariant(y) && Next(y, e, z)
    ensures Invariant(z)
    ensures e.Render? ==> OnDisplay(e.frame, z)
  {
    if e.Render? {
      var lines := WithResets(e.frame.lines);
      assert z.shot.screen.Rows() == RowsFrom(lines, z.shot.top, z.shot.top + z.shot.screen.height);
    }
  }

  // ----- scrollback -----

  /** Scrollback and screen together hold every line once, then blanks. */
  ghost predicate Exact(s: Shot) {
    InSync(s) && s.screen.history == RowsFrom(s.lines, 0, s.top + s.screen.height)
  }

  /** A frame that repeats what already scrolled off, or comes when nothing has. */
  ghost predicate KeepsHistory(s: Shot, lines: seq<string>) {
    s.top == 0 || ExtendsHistory(s, lines)
  }

  /** From an exact scrollback, a render ends in one if and only if it clears or its frame repeats
      what already scrolled off. */
  lemma RenderKeepsExact(y: System, frame: Frame, z: System)
    requires Invariant(y) && Next(y, Render(frame), z)
    requires Clears(y, frame) || Exact(y.shot)
    ensures Exact(z.shot) <==> Clears(y, frame) || KeepsHistory(y.shot, WithResets(frame.lines))
  {
    var s, r, lines := y.shot, z.shot, WithResets(frame.lines);
    ExactScrollback(r);
    if !Clears(y, frame) {
      assert s.screen.Scrollback() == RowsFrom(s.lines, 0, s.top);
      if KeepsHistory(s, lines) {
        KeptScrollback(s, lines, r);
      } else if Exact(r) {
        ExactMeansKept(s, lines, r);
      }
    }
  }

  lemma ExactScrollback(r: Shot)
    requires InSync(r)
    ensures Exact(r) <==> r.screen.Scrollback() == RowsFrom(r.lines, 0, r.top)
  {
    var rows := RowsFrom(r.lines, 0, r.top + r.screen.height);
    assert r.screen.history == r.screen.Scrollback() + r.screen.Rows();
    assert rows == RowsFrom(r.lines, 0, r.top) + RowsFrom(r.lines, r.top, r.top + r.screen.height);
    if Exact(r) {
      assert r.screen.Scrollback() == rows[..r.top];
    }
  }

  lemma KeptScrollback(s: Shot, lines: seq<string>, r: Shot)
    requires InSync(s) && s.screen.Scrollback() == RowsFrom(s.lines, 0, s.top)
    requires Redrawn(s, lines, r, false) && KeepsHistory(s, lines)
    ensures r.screen.Scrollback() == RowsFrom(lines, 0, r.top)
  {
    forall i | 0 <= i < |r.screen.Scrollback()|
      ensures r.screen.Scrollback()[i] == RowAt(lines, i)
    {
      if Scrolled(s, lines, r) && i < s.top {
        assert lines[i] == lines[..s.top][i] == s.lines[..s.top][i];
      }
    }
  }

  lemma ExactMeansKept(s: Shot, lines: seq<string>, r: Shot)
    requires InSync(s) && s.screen.Scrollback() == RowsFrom(s.lines, 0, s.top)
    requires Redrawn(s, lines, r, false)
    requires r.screen.Scrollback() == RowsFrom(lines, 0, r.top)
    ensures KeepsHistory(s, lines)
  {
    assert |r.screen.Scrollback()| == r.top;
    forall i | 0 <= i < s.top
      ensures i < |lines| && lines[i] == s.lines[i]
    {
      assert r.screen.Scrollback()[i] == RowsFrom(s.lines, 0, s.top)[i];
    }
  }

  /** The scrollback is exact, or the next render will clear. */
  ghost predicate ExactOrStale(y: System) { SizeChanged(y) || Exact(y.shot) }

  lemma StepKeepsExact(y: System, e: Event, z: System)
    requires Invariant(y) && ExactOrStale(y) && Next(y, e, z)
    requires e.Render? ==> Clears(y, e.frame) || KeepsHistory(y.shot, WithResets(e.frame.lines))
    ensures ExactOrStale(z) && (e.Render? ==> Exact(z.shot))
  {
    if e.Render? {
      RenderKeepsExact(y, e.frame, z);
    }
  }

  /** Over every run of renders, forced renders, resizes and changes of the option, as long as each
      render clears or repeats what scrolled off, every render leaves the scrollback exact. */
  lemma {:induction false} RunsKeepScrollbackExact(states: seq<System>, events: seq<Event>)
    requires IsRun(states, events) && Initial(states[0])
    requires forall i :: 0 <= i < |events| && events[i].Render? ==>
      Clears(states[i], events[i].frame) || KeepsHistory(states[i].shot, WithResets(events[i].frame.lines))
    ensures ExactOrStale(states[|events|])
    ensures forall i :: 0 <= i < |events| && events[i].Render? ==> Exact(states[i + 1].shot)
    decreases |events|
  {
    if events == [] {
      assert Cleared(states[0].shot.screen.height).history == RowsFrom([], 0, states[0].shot.screen.height);
    } else {
      var n := |events| - 1;
      RunsKeepScrollbackExact(states[..n + 1], events[..n]);
      RunsDisplayTheirFrames(states, events);
      assert states[..n + 1][n] == states[n];
      StepKeepsExact(states[n], events[n], states[n + 1]);
      forall i | 0 <= i < |events| && events[i].Render?
        ensures Exact(states[i + 1].shot)
      {
        assert i < n ==> events[i] == events[..n][i] && states[i + 1] == states[..n + 1][i + 1];
      }
    }
  }

  /** A forced render, and the first one after a resize, shows what the simple form would and makes
      the scrollback exact, whatever was there before. */
  lemma SizeChangeRebuilds(y: System, frame: Frame, z: System)
    requires Invariant(y) && SizeChanged(y) && Next(y, Render(frame), z)
    ensures z.shot.screen.history == Run(y.shot.screen, ClearAndPrint(WithResets(frame.lines))).history
  {
    RenderKeepsExact(y, frame, z);
    ExactIsSimple(y, frame, z);
  }

  // ----- when a render clears -----

  /** After a render the size counts as changed exactly if it is another one. */
  lemma SizeIsNoticed(y: System, frame: Frame, z: System, columns: int, screen: Screen)
    requires Invariant(y) && Next(y, Render(frame), z) && 1 <= z.shot.screen.height
    ensures SizeChanged(z.(columns := columns, shot := z.shot.(screen := screen))) <==>
      columns != z.columns || screen.height != z.shot.screen.height
  {
  }

  /** Content that ends above the viewport is repainted without clearing; content that is shorter than the last
      frame otherwise clears if the option is on, and with an overlay or without the option it never does. */
  lemma ShrinkingClears(y: System, frame: Frame)
    requires Invariant(y) && !SizeChanged(y)
    ensures frame.overlays || !y.clearOnShrink ==> !Clears(y, frame)
    ensures !frame.overlays && |frame.lines| < |y.shot.lines| ==>
      (Clears(y, frame) <==> y.clearOnShrink && Max(0, |frame.lines| - y.shot.screen.height) >= y.shot.top)
  {
  }

  lemma {:induction false} LongestWasRendered(states: seq<System>, events: seq<Event>) returns (k: nat)
    requires IsRun(states, events) && Initial(states[0])
    ensures states[|events|].maxLines == 0
      || (k < |events| && events[k].Render? && |events[k].frame.lines| == states[|events|].maxLines)
    decreases |events|
  {
    k := 0;
    if events != [] {
      var n := |events| - 1;
      k := LongestWasRendered(states[..n + 1], events[..n]);
      assert states[..n + 1][n] == states[n] && Next(states[n], events[n], states[n + 1]);
      if events[n].Render? && |events[n].frame.lines| == states[n + 1].maxLines {
        k := n;
      }
    }
  }

  /** Without a change of size, a render clears only for a frame that is shorter than an earlier one. */
  lemma ClearsForAShorterFrame(states: seq<System>, events: seq<Event>, frame: Frame) returns (k: nat)
    requires IsRun(states, events) && Initial(states[0])
    requires Clears(states[|events|], frame) && !SizeChanged(states[|events|])
    ensures k < |events| && events[k].Render? && |frame.lines| < |events[k].frame.lines|
    ensures states[|events|].clearOnShrink && !frame.overlays
  {
    k := LongestWasRendered(states, events);
  }

  // ----- a run that loses exactness -----

  function Plain(lines: seq<string>): Frame { Frame(lines, None, false) }

  /** One visible row shows `second`; the row before scrolled off. */
  function TwoLines(scrolled: string, first: string, second: string): System {
    System(
      Shot(
        WithResets([first, second]), 1, 1,
        Screen(1, [Shows(scrolled + SEGMENT_RESET), Shows(second + SEGMENT_RESET)], 1, AfterText, false)),
      80, 1, 80, 2, false)
  }

  /** On one row, two lines are rendered and then the first of them changes: it has scrolled off, and
      stays in the scrollback as it was, next to every terminal that the render may leave. */
  lemma ChangedHistoryIsStale(a: string, b: string, c: string)
    requires a != b
    ensures var start := System(Shot([], 0, 0, Cleared(1)), 0, 0, 80, 0, false);
      var events := [Render(Plain([a, c])), Render(Plain([b, c]))];
      && Initial(start) && IsRun([start, TwoLines(a, a, c), TwoLines(a, b, c)], events)
      && Exact(TwoLines(a, a, c).shot)
      && forall z :: Next(TwoLines(a, a, c), events[1], z) ==> !Exact(z.shot)
  {
    var start := System(Shot([], 0, 0, Cleared(1)), 0, 0, 80, 0, false);
    var y, z := TwoLines(a, a, c), TwoLines(a, b, c);
    FirstOfTwo(a, c);
    SecondOfTwo(a, b, c);
    var states, events := [start, y, z], [Render(Plain([a, c])), Render(Plain([b, c]))];
    assert forall i :: 0 <= i < 2 ==> Next(states[i], events[i], states[i + 1]);
    forall z' | Next(y, events[1], z') ensures !Exact(z'.shot) {
      RenderKeepsExact(y, Plain([b, c]), z');
      Differ(a, b, c);
    }
  }

  lemma Differ(a: string, b: string, c: string)
    requires a != b
    ensures !KeepsHistory(TwoLines(a, a, c).shot, WithResets([b, c]))
  {
    var old_, new_ := WithResets([a, c]), WithResets([b, c]);
    assert (a + SEGMENT_RESET)[..|a|] == a && (b + SEGMENT_RESET)[..|b|] == b;
    assert old_[..1][0] == a + SEGMENT_RESET && new_[..1][0] == b + SEGMENT_RESET;
    assert |a + SEGMENT_RESET| == |b + SEGMENT_RESET| ==> |a| == |b|;
  }

  lemma TwoLinesInSync(scrolled: string, first: string, second: string)
    ensures InSync(TwoLines(scrolled, first, second).shot)
    ensures Invariant(TwoLines(scrolled, first, second))
  {
    var s := TwoLines(scrolled, first, second).shot;
    assert s.screen.Rows() == RowsFrom(s.lines, 1, 2);
  }

  lemma FirstOfTwo(a: string, c: string)
    ensures var start := System(Shot([], 0, 0, Cleared(1)), 0, 0, 80, 0, false);
      Initial(start) && Next(start, Render(Plain([a, c])), TwoLines(a, a, c)) && Exact(TwoLines(a, a, c).shot)
  {
    var y := TwoLines(a, a, c);
    TwoLinesInSync(a, a, c);
    assert y.shot.screen.Scrollback() == RowsFrom(y.shot.lines, 0, 1);
    ExactScrollback(y.shot);
    assert Cleared(1).Scrollback() == [];
  }

  lemma SecondOfTwo(a: string, b: string, c: string)
    requires a != b
    ensures Next(TwoLines(a, a, c), Render(Plain([b, c])), TwoLines(a, b, c))
  {
    var y, z := TwoLines(a, a, c), TwoLines(a, b, c);
    TwoLinesInSync(a, b, c);
    assert y.shot.screen.Scrollback() == z.shot.screen.Scrollback();
    assert z.shot.screen.Scrollback() == y.shot.screen.Scrollback() + RowsFrom(z.shot.lines, 1, 1);
  }

  /** An exact, aligned render leaves the terminal, scrollback included, as the simple form
      would have left it. */
  lemma ExactIsSimple(y: System, frame: Frame, z: System)
    requires Invariant(y) && Next(y, Render(frame), z) && Exact(z.shot)
    requires z.shot.top == Max(0, |frame.lines| - z.shot.screen.height)
    ensures z.shot.screen.history == Run(y.shot.screen, ClearAndPrint(WithResets(frame.lines))).history
  {
    hide Run, ClearAndPrint, Clears, Rebuilt, Scrolled, Realigned;
    var t := Run(y.shot.screen, ClearAndPrint(WithResets(frame.lines)));
    SimpleForm(y.shot.screen, WithResets(frame.lines));
    assert t.history == t.Scrollback() + t.Rows();
    assert z.shot.screen.history == RowsFrom(WithResets(frame.lines), 0, z.shot.top + z.shot.screen.height);
  }
}
