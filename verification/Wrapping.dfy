/** Word wrapping of styled text (packages/tui/src/utils.ts): lines are cut between words, or
    inside words that are too long, and styles are closed and brought back at every cut. */
module Wrapping {
  import opened Style
  import opened StyledText
  import opened Tokens

  /** `token.trim() === ""`: blanks only, not even a code. */
  predicate IsWhitespace(t: Text) { forall i :: 0 <= i < |t| ==> IsBlankItem(t[i]) }

  /** No character is wider than a line. */
  ghost predicate Fits(t: Text, width: int) {
    0 <= width && forall i :: 0 <= i < |t| ==> ItemWidth(t[i]) <= width
  }

  ghost predicate BodiesFit(lines: seq<Text>, width: int) {
    forall i :: 0 <= i < |lines| ==> BodyWidth(lines[i]) <= width
  }

  /** The style at the end of a line read from a plain style. */
  function End(line: Text): Style { StyleAfter(Plain, line) }

  function LastLine(lines: seq<Text>): Text
    requires lines != []
  {
    lines[|lines| - 1]
  }

  // ----- where a text may be cut -----

  /** The columns from item `a` to item `b`. */
  function Width(t: Text, a: nat, b: nat): nat
    requires a <= b <= |t|
  {
    VisibleWidth(t[a..b])
  }

  /** The run at item `i` is wider than a line, and more than blanks. */
  predicate TooLong(t: Text, width: int, i: nat)
    requires i <= |t|
  {
    Width(t, RunStart(t, i), RunEnd(t, i)) > width && !IsWhitespace(t[RunStart(t, i)..RunEnd(t, i)])
  }

  /** The run that begins at `p` does not fit on the line that began at `q`, and is more than blanks. */
  ghost predicate NextRunTooWide(t: Text, width: int, q: nat, p: nat)
    requires q <= p <= |t|
  {
    0 < p < |t| && Boundary(t, p) && !IsWhitespace(t[p..RunEnd(t, p)]) && Width(t, q, RunEnd(t, p)) > width
  }

  /** The blanks that end at `p` did not fit on the line that began at `q`. */
  ghost predicate BlanksTooWide(t: Text, width: int, q: nat, p: nat)
    requires q <= p <= |t|
  {
    && 0 < p && Boundary(t, p) && q <= RunStart(t, p - 1)
    && IsWhitespace(t[RunStart(t, p - 1)..p]) && Width(t, q, p) > width
  }

  /** Inside a run that is too long, which began its own line: the next character does not fit. */
  ghost predicate InLongRun(t: Text, width: int, q: nat, p: nat)
    requires q <= p <= |t|
  {
    p < |t| && t[p].G? && TooLong(t, width, p) && RunStart(t, p) <= q && Width(t, q, p + 1) > width
  }

  /** The only reasons to end at item `p` a line that began at item `q`. */
  ghost predicate MayCut(t: Text, width: int, q: nat, p: nat)
    requires q <= p <= |t|
  {
    NextRunTooWide(t, width, q, p) || BlanksTooWide(t, width, q, p) || InLongRun(t, width, q, p)
  }

  /** The codes that bring back the style of the text at item `q`. */
  function Opened(t: Text, q: nat): Text
    requires q <= |t|
  {
    Codes(ActiveCodes(StyleAfter(Plain, t[..q])))
  }

  /** The codes that end a line at item `p`. */
  function Closing(t: Text, p: nat): Text
    requires p <= |t|
  {
    Codes(LineEndReset(StyleAfter(Plain, t[..p])))
  }

  /** The line `out` is what was cut from item `q` to `p`, without blanks at its end, unless a run that is too
      long follows. */
  ghost predicate IsLine(t: Text, width: int, q: nat, p: nat, out: Text) {
    && q <= p <= |t| && MayCut(t, width, q, p)
    && (Fits(t, width) ==> BodyWidth(t[q..p]) <= width)
    && (|| out == Opened(t, q) + TrimEnd(t[q..p]) + Closing(t, p)
        || (TooLong(t, width, p) && out == Opened(t, q) + t[q..p] + Closing(t, p)))
  }

  /** The last line is what is left from item `q` on, without blanks at its end. */
  ghost predicate IsLastLine(t: Text, width: int, q: nat, out: Text) {
    && q <= |t| && out == Opened(t, q) + TrimEnd(t[q..])
    && (Fits(t, width) ==> BodyWidth(t[q..]) <= width)
  }

  ghost predicate LineAt(t: Text, width: int, lines: seq<Text>, starts: seq<nat>, i: nat)
    requires i < |lines| && i + 1 < |starts|
  {
    IsLine(t, width, starts[i], starts[i + 1], lines[i])
  }

  /** The lines begin at the items `starts` of the text. */
  ghost predicate CutAt(t: Text, width: int, lines: seq<Text>, starts: seq<nat>) {
    && |lines| == |starts| > 0 && starts[0] == 0
    && (forall i :: 0 <= i < |lines| - 1 ==> LineAt(t, width, lines, starts, i))
    && IsLastLine(t, width, starts[|lines| - 1], lines[|lines| - 1])
  }

  /** How a text is wrapped: not at all if it fits, otherwise it is cut where nothing more fits. */
  ghost predicate WrapsTo(t: Text, width: int, lines: seq<Text>, starts: seq<nat>) {
    if t == [] || VisibleWidth(t) <= width then lines == [t] && starts == [0] else CutAt(t, width, lines, starts)
  }

  /**
   * A line ends only where the next run, with the blanks before it, does not fit any more; and inside a run
   * only if that run is wider than a line.
   */
  lemma CutsAreNeeded(t: Text, width: int, lines: seq<Text>, starts: seq<nat>, i: nat)
    requires WrapsTo(t, width, lines, starts) && i + 1 < |lines|
    ensures |starts| == |lines| && starts[i] <= starts[i + 1] <= |t|
    ensures var q, p := starts[i], starts[i + 1];
      && Width(t, q, RunEnd(t, p)) > width
      && (!Boundary(t, p) ==> Width(t, RunStart(t, p), RunEnd(t, p)) > width)
  {
    hide *;
    CutHolds(t, width, lines, starts, i);
    CutIsNeeded(t, width, starts[i], starts[i + 1]);
  }

  lemma CutHolds(t: Text, width: int, lines: seq<Text>, starts: seq<nat>, i: nat)
    requires WrapsTo(t, width, lines, starts) && i + 1 < |lines|
    ensures |starts| == |lines| && starts[i] <= starts[i + 1] <= |t| && MayCut(t, width, starts[i], starts[i + 1])
  {
    hide MayCut, IsLastLine, VisibleWidth, BodyWidth, TooLong, Opened, Closing, TrimEnd, Fits;
    assert LineAt(t, width, lines, starts, i);
  }

  lemma CutIsNeeded(t: Text, width: int, q: nat, p: nat)
    requires q <= p <= |t| && MayCut(t, width, q, p)
    ensures Width(t, q, RunEnd(t, p)) > width
    ensures !Boundary(t, p) ==> Width(t, RunStart(t, p), RunEnd(t, p)) > width
  {
    hide Boundary, RunStart, RunEnd, Width, IsWhitespace;
    if InLongRun(t, width, q, p) {
      WidthSplit(t, q, p + 1, RunEnd(t, p));
    } else if BlanksTooWide(t, width, q, p) {
      WidthSplit(t, q, p, RunEnd(t, p));
    }
  }

  /** After the first line, no line begins with blanks that could have been dropped at the cut. */
  lemma BlanksAreDropped(t: Text, width: int, lines: seq<Text>, starts: seq<nat>, i: nat)
    requires WrapsTo(t, width, lines, starts) && i + 1 < |lines|
    requires var p := starts[i + 1]; p < |t| && Boundary(t, p) && IsWhitespace(t[p..RunEnd(t, p)])
    ensures var p := starts[i + 1]; p > 0 && IsWhitespace(t[RunStart(t, p - 1)..p])
  {
    CutHolds(t, width, lines, starts, i);
    hide WrapsTo, RunStart, RunEnd, IsWhitespace, VisibleWidth;
  }

  // ----- widths and trimming -----

  lemma WidthSplit(t: Text, a: nat, b: nat, c: nat)
    requires a <= b <= c <= |t|
    ensures Width(t, a, c) == Width(t, a, b) + Width(t, b, c)
  {
    assert t[a..c] == t[a..b] + t[b..c];
    TextConcat(Plain, t[a..b], t[b..c]);
  }

  lemma CodesInFront(codes: seq<Code>, t: Text)
    ensures VisibleWidth(Codes(codes) + t) == VisibleWidth(t)
    ensures Cells(Plain, Codes(codes) + t) == Cells(ApplyAll(Plain, codes), t)
    ensures StyleAfter(Plain, Codes(codes) + t) == StyleAfter(ApplyAll(Plain, codes), t)
  {
    CodesOnly(Plain, codes);
    TextConcat(Plain, Codes(codes), t);
  }

  /** Trimming stops at codes. */
  lemma {:induction false} TrimAfterCodes(codes: Text, t: Text)
    requires AllCodes(codes)
    ensures TrimEnd(codes + t) == codes + TrimEnd(t)
    decreases |t|
  {
    if t != [] {
      var u := codes + t;
      assert u[|u| - 1] == t[|t| - 1] && u[..|u| - 1] == codes + t[..|t| - 1];
      if IsBlankItem(t[|t| - 1]) {
        TrimAfterCodes(codes, t[..|t| - 1]);
      }
    } else {
      assert codes + t == codes;
      assert codes != [] ==> codes[|codes| - 1].C?;
    }
  }

  lemma TrimBeforeCodes(t: Text, codes: Text)
    requires AllCodes(codes) && codes != []
    ensures TrimEnd(t + codes) == t + codes
  {
    assert (t + codes)[|t + codes| - 1] == codes[|codes| - 1];
  }

  lemma {:induction false} TrimTwice(t: Text)
    ensures TrimEnd(TrimEnd(t)) == TrimEnd(t)
    decreases |t|
  {
    if t != [] && IsBlankItem(t[|t| - 1]) {
      TrimTwice(t[..|t| - 1]);
    }
  }

  lemma {:induction false} TrimBlanks(t: Text, blanks: Text)
    requires IsWhitespace(blanks)
    ensures TrimEnd(t + blanks) == TrimEnd(t) && BodyWidth(t + blanks) == BodyWidth(t)
    ensures StyleAfter(Plain, t + blanks) == StyleAfter(Plain, t)
    decreases |blanks|
  {
    if blanks == [] {
      assert t + blanks == t;
    } else {
      var u := t + blanks;
      assert u[..|u| - 1] == t + blanks[..|blanks| - 1];
      TrimBlanks(t, blanks[..|blanks| - 1]);
    }
  }

  // ----- lines under construction -----

  /** The text up to item `pos` has become the lines `wrapped` and an unfinished line, which begins at the
      last of `starts`. */
  ghost predicate Cutting(t: Text, width: int, pos: nat, wrapped: seq<Text>, starts: seq<nat>) {
    && pos <= |t| && |starts| == |wrapped| + 1 && starts[0] == 0 && starts[|wrapped|] <= pos
    && (forall i :: 0 <= i < |wrapped| ==> LineAt(t, width, wrapped, starts, i))
    && (Fits(t, width) ==> BodyWidth(t[starts[|wrapped|]..pos]) <= width)
  }

  /** The unfinished line. */
  function Unfinished(t: Text, q: nat, pos: nat): Text
    requires q <= pos <= |t|
  {
    Opened(t, q) + t[q..pos]
  }

  lemma CutStarts(t: Text, width: int)
    ensures Cutting(t, width, 0, [], [0]) && Unfinished(t, 0, 0) == []
  {
    assert t[..0] == [] && t[0..0] == [];
    assert ActiveCodes(Plain) == [];
  }

  /** One more line. */
  lemma CutLine(t: Text, width: int, pos: nat, wrapped: seq<Text>, starts: seq<nat>, p: nat, out: Text)
    requires Cutting(t, width, pos, wrapped, starts) && IsLine(t, width, starts[|wrapped|], p, out) && pos <= p
    ensures Cutting(t, width, p, wrapped + [out], starts + [p])
    ensures Unfinished(t, p, p) == Opened(t, p)
  {
    hide IsLine, BodyWidth, Opened, Closing, Fits, Unfinished, LineAt, MayCut, TrimEnd, TooLong;
    CuttingInside(t, width, pos, wrapped, starts);
    IsLineInside(t, width, starts[|wrapped|], p, out);
    FreshLineIsEmpty(t, p);
    var lines, all := wrapped + [out], starts + [p];
    forall i | 0 <= i < |lines|
      ensures LineAt(t, width, lines, all, i)
    {
      if i < |wrapped| {
        LineStays(t, width, wrapped, starts, lines, all, i);
      } else {
        LineIsAt(t, width, lines, all, i);
      }
    }
  }

  lemma FreshLineIsEmpty(t: Text, p: nat)
    requires p <= |t|
    ensures Unfinished(t, p, p) == Opened(t, p) && BodyWidth(t[p..p]) == 0
  {
    hide Opened;
    assert t[p..p] == [];
  }

  lemma LineStays(
      t: Text, width: int, wrapped: seq<Text>, starts: seq<nat>, lines: seq<Text>, all: seq<nat>, i: nat)
    requires i < |wrapped| && i + 1 < |starts| && LineAt(t, width, wrapped, starts, i)
    requires wrapped <= lines && starts <= all
    ensures LineAt(t, width, lines, all, i)
  {
    hide IsLine;
  }

  lemma LineIsAt(t: Text, width: int, lines: seq<Text>, starts: seq<nat>, i: nat)
    requires i < |lines| && i + 1 < |starts| && IsLine(t, width, starts[i], starts[i + 1], lines[i])
    ensures LineAt(t, width, lines, starts, i)
  {
    hide IsLine;
  }

  lemma IsLineInside(t: Text, width: int, q: nat, p: nat, out: Text)
    requires IsLine(t, width, q, p, out)
    ensures q <= p <= |t| && (Fits(t, width) ==> 0 <= width)
  {
  }

  /** More text on the unfinished line. */
  lemma GoOn(t: Text, width: int, pos: nat, wrapped: seq<Text>, starts: seq<nat>, next: nat)
    requires Cutting(t, width, pos, wrapped, starts) && pos <= next <= |t|
    requires Fits(t, width) ==> BodyWidth(t[starts[|wrapped|]..next]) <= width
    ensures Cutting(t, width, next, wrapped, starts)
    ensures Unfinished(t, starts[|wrapped|], next) == Unfinished(t, starts[|wrapped|], pos) + t[pos..next]
  {
    hide BodyWidth, Opened, LineAt;
    var q := starts[|wrapped|];
    assert t[q..next] == t[q..pos] + t[pos..next];
  }

  // ----- breaking a long word -----

  /** Break a run that is wider than a line, character by character; it starts a new line at item `a`. */
  method BreakLongWord(word: Text, width: int, tracker: AnsiCodeTracker,
                       ghost t: Text, ghost a: nat, ghost wrapped: seq<Text>, ghost starts: seq<nat>)
    returns (lines: seq<Text>, ghost cuts: seq<nat>)
    requires IsRun(t, a, a + |word|) && word == t[a..a + |word|]
    requires Width(t, a, a + |word|) > width && !IsWhitespace(word)
    requires Cutting(t, width, a, wrapped, starts) && starts[|wrapped|] == a
    requires tracker.State() == StyleAfter(Plain, t[..a])
    modifies tracker
    ensures tracker.State() == StyleAfter(Plain, t[..a + |word|])
    ensures lines != [] && |cuts| == |wrapped| + |lines|
    ensures Cutting(t, width, a + |word|, wrapped + lines[..|lines| - 1], cuts)
    ensures LastLine(lines) == Unfinished(t, cuts[|cuts| - 1], a + |word|)
  {
    hide *;
    lines, cuts := [], starts;
    var currentLine := Codes(ActiveCodes(tracker.State()));
    var currentWidth: nat := 0;
    FreshLine(t, width, a, |word|, wrapped, starts);
    for i := 0 to |word|
      invariant Breaking(t, width, a, |word|, i, wrapped, lines, cuts, currentLine, currentWidth, tracker.State())
    {
      WordItem(t, width, a, |word|, i, wrapped, lines, cuts, currentLine, currentWidth, tracker.State());
      if word[i].C? {
        BreakItem(t, width, a, |word|, i, wrapped, lines, cuts, currentLine, currentWidth, tracker.State());
        currentLine := currentLine + [word[i]];
        tracker.Process(word[i].code);
      } else {
        var graphemeWidth := word[i].grapheme.width;
        if currentWidth + graphemeWidth > width {
          BreakHere(t, width, a, |word|, i, wrapped, lines, cuts, currentLine, currentWidth, tracker.State());
          lines, cuts := lines + [currentLine + Codes(LineEndReset(tracker.State()))], cuts + [a + i];
          currentLine := Codes(ActiveCodes(tracker.State()));
          currentWidth := 0;
        }
        CharacterFits(t, width, a + i, currentWidth);
        BreakItem(t, width, a, |word|, i, wrapped, lines, cuts, currentLine, currentWidth, tracker.State());
        currentLine := currentLine + [word[i]];
        currentWidth := currentWidth + graphemeWidth;
      }
    }
    BreakEnd(t, width, a, |word|, wrapped, lines, cuts, currentLine, currentWidth, tracker.State());
    lines := lines + [currentLine];
  }

  /** The word at item `a` is broken up to its item `i`. */
  ghost predicate Breaking(
      t: Text, width: int, a: nat, n: nat, i: nat, wrapped: seq<Text>, lines: seq<Text>, cuts: seq<nat>,
      current: Text, currentWidth: nat, s: Style)
  {
    && IsRun(t, a, a + n) && Width(t, a, a + n) > width && !IsWhitespace(t[a..a + n]) && i <= n
    && |cuts| == |wrapped| + |lines| + 1 && Cutting(t, width, a + i, wrapped + lines, cuts)
    && a <= cuts[|cuts| - 1]
    && current == Unfinished(t, cuts[|cuts| - 1], a + i) && currentWidth == Width(t, cuts[|cuts| - 1], a + i)
    && (Fits(t, width) ==> currentWidth <= width)
    && s == StyleAfter(Plain, t[..a + i])
  }

  lemma FreshLine(t: Text, width: int, a: nat, n: nat, wrapped: seq<Text>, starts: seq<nat>)
    requires IsRun(t, a, a + n) && Width(t, a, a + n) > width && !IsWhitespace(t[a..a + n])
    requires Cutting(t, width, a, wrapped, starts) && starts[|wrapped|] == a
    ensures var s := StyleAfter(Plain, t[..a]);
      Breaking(t, width, a, n, 0, wrapped, [], starts, Codes(ActiveCodes(s)), 0, s)
  {
    hide LineAt, Boundary, StyleAfter, ActiveCodes;
    assert t[a..a] == [] && wrapped + [] == wrapped && t[..a + 0] == t[..a];
    assert Opened(t, a) + [] == Opened(t, a);
  }

  lemma WordItem(
      t: Text, width: int, a: nat, n: nat, i: nat, wrapped: seq<Text>, lines: seq<Text>, cuts: seq<nat>,
      current: Text, currentWidth: nat, s: Style)
    requires Breaking(t, width, a, n, i, wrapped, lines, cuts, current, currentWidth, s) && i < n
    ensures a + i < a + n <= |t| && t[a..a + n][i] == t[a + i] && (Fits(t, width) ==> currentWidth <= width)
    ensures t[a + i].C? ==> ItemWidth(t[a + i]) == 0 && ApplyItem(s, t[a + i]) == Apply(s, t[a + i].code)
    ensures t[a + i].G? ==>
      ItemWidth(t[a + i]) == t[a + i].grapheme.width && ApplyItem(s, t[a + i]) == s
  {
    hide Boundary, Cutting, Unfinished, IsWhitespace, Fits;
  }

  lemma CharacterFits(t: Text, width: int, i: nat, currentWidth: nat)
    requires i < |t| && (currentWidth == 0 || currentWidth + ItemWidth(t[i]) <= width)
    ensures Fits(t, width) ==> currentWidth + ItemWidth(t[i]) <= width
  {
  }

  /** One item more on the line. */
  lemma BreakItem(
      t: Text, width: int, a: nat, n: nat, i: nat, wrapped: seq<Text>, lines: seq<Text>, cuts: seq<nat>,
      current: Text, currentWidth: nat, s: Style)
    requires Breaking(t, width, a, n, i, wrapped, lines, cuts, current, currentWidth, s) && i < n
    requires a + i < |t| && (Fits(t, width) ==> currentWidth + ItemWidth(t[a + i]) <= width)
    ensures Breaking(t, width, a, n, i + 1, wrapped, lines, cuts, current + [t[a + i]],
      currentWidth + ItemWidth(t[a + i]), ApplyItem(s, t[a + i]))
  {
    hide Cutting, Unfinished, Width, Fits, Boundary, IsWhitespace, StyleAfter, ApplyItem, ItemWidth;
    ItemOn(t, width, a + i, wrapped + lines, cuts);
    StyleStep(t, a + i);
  }

  lemma ItemOn(t: Text, width: int, pos: nat, wrapped: seq<Text>, starts: seq<nat>)
    requires Cutting(t, width, pos, wrapped, starts) && pos < |t|
    requires var q := starts[|wrapped|]; Fits(t, width) ==> Width(t, q, pos) + ItemWidth(t[pos]) <= width
    ensures Cutting(t, width, pos + 1, wrapped, starts)
    ensures var q := starts[|wrapped|];
      && q <= pos && Unfinished(t, q, pos + 1) == Unfinished(t, q, pos) + [t[pos]]
      && Width(t, q, pos + 1) == Width(t, q, pos) + ItemWidth(t[pos])
  {
    hide Opened, LineAt, Fits;
    var q := starts[|wrapped|];
    assert t[pos..pos + 1] == [t[pos]];
    WidthSplit(t, q, pos, pos + 1);
    OneItem(Plain, t[pos]);
    BodyWidthBound(t[q..pos + 1]);
    hide VisibleWidth, BodyWidth;
    GoOn(t, width, pos, wrapped, starts, pos + 1);
  }

  lemma StyleStep(t: Text, i: nat)
    requires i < |t|
    ensures StyleAfter(Plain, t[..i + 1]) == ApplyItem(StyleAfter(Plain, t[..i]), t[i])
  {
    assert t[..i + 1][..i] == t[..i];
  }

  /** A cut inside the word. */
  lemma BreakHere(
      t: Text, width: int, a: nat, n: nat, i: nat, wrapped: seq<Text>, lines: seq<Text>, cuts: seq<nat>,
      current: Text, currentWidth: nat, s: Style)
    requires Breaking(t, width, a, n, i, wrapped, lines, cuts, current, currentWidth, s) && i < n
    requires a + i < |t| && t[a + i].G? && currentWidth + ItemWidth(t[a + i]) > width
    ensures Breaking(t, width, a, n, i, wrapped, lines + [current + Codes(LineEndReset(s))], cuts + [a + i],
      Codes(ActiveCodes(s)), 0, s)
  {
    hide LineAt, VisibleWidth, BodyWidth, Boundary, StyleAfter, ActiveCodes, LineEndReset, IsWhitespace;
    var q, p, line := cuts[|cuts| - 1], a + i, current + Codes(LineEndReset(s));
    WordLine(t, width, a, a + n, q, p, line);
    assert wrapped + (lines + [line]) == wrapped + lines + [line];
    NoWidth(t, p);
    IsLineInside(t, width, q, p, line);
    hide IsLine;
    CutLine(t, width, p, wrapped + lines, cuts, p, line);
  }

  lemma BreakEnd(
      t: Text, width: int, a: nat, n: nat, wrapped: seq<Text>, lines: seq<Text>, cuts: seq<nat>,
      current: Text, currentWidth: nat, s: Style)
    requires Breaking(t, width, a, n, n, wrapped, lines, cuts, current, currentWidth, s)
    ensures var all := lines + [current];
      && |cuts| == |wrapped| + |all| && a + n <= |t| && cuts[|cuts| - 1] <= a + n
      && Cutting(t, width, a + n, wrapped + all[..|all| - 1], cuts)
      && LastLine(all) == Unfinished(t, cuts[|cuts| - 1], a + n) && s == StyleAfter(Plain, t[..a + n])
  {
    hide Cutting, Unfinished, Width, Fits, Boundary, IsWhitespace, StyleAfter;
    CuttingInside(t, width, a + n, wrapped + lines, cuts);
    assert (lines + [current])[..|lines|] == lines;
  }

  lemma WordLine(t: Text, width: int, a: nat, b: nat, q: nat, p: nat, line: Text)
    requires IsRun(t, a, b) && Width(t, a, b) > width && !IsWhitespace(t[a..b]) && a <= q <= p < b && t[p].G?
    requires line == Unfinished(t, q, p) + Closing(t, p)
    requires Width(t, q, p) + ItemWidth(t[p]) > width && (Fits(t, width) ==> Width(t, q, p) <= width)
    ensures IsLine(t, width, q, p, line)
  {
    hide VisibleWidth, BodyWidth, Opened, Closing, Boundary;
    RunOf(t, a, b, p);
    WidthSplit(t, q, p, p + 1);
    assert t[p..p + 1] == [t[p]];
    OneItem(Plain, t[p]);
    BodyWidthBound(t[q..p]);
    assert InLongRun(t, width, q, p);
  }

  method UpdateTrackerFromText(text: Text, tracker: AnsiCodeTracker)
    modifies tracker
    ensures tracker.State() == StyleAfter(old(tracker.State()), text)
  {
    for i := 0 to |text|
      invariant tracker.State() == StyleAfter(old(tracker.State()), text[..i])
    {
      assert text[..i + 1][..i] == text[..i];
      if text[i].C? {
        tracker.Process(text[i].code);
      }
    }
    assert text[..|text|] == text;
  }

  // ----- one line -----

  /** One round of the wrapping loop: where the next token goes. */
  method WrapToken(token: Text, width: int, tracker: AnsiCodeTracker, wrapped: seq<Text>, current: Text,
                   currentWidth: nat, ghost t: Text, ghost a: nat, ghost starts: seq<nat>)
    returns (wrapped': seq<Text>, current': Text, currentWidth': nat, ghost cuts: seq<nat>)
    requires IsRun(t, a, a + |token|) && token == t[a..a + |token|]
    requires Cutting(t, width, a, wrapped, starts)
    requires current == Unfinished(t, starts[|wrapped|], a) && currentWidth == Width(t, starts[|wrapped|], a)
    requires tracker.State() == StyleAfter(Plain, t[..a])
    modifies tracker
    ensures tracker.State() == StyleAfter(Plain, t[..a + |token|])
    ensures Cutting(t, width, a + |token|, wrapped', cuts)
    ensures current' == Unfinished(t, cuts[|wrapped'|], a + |token|)
    ensures currentWidth' == Width(t, cuts[|wrapped'|], a + |token|)
  {
    hide VisibleWidth, StyleAfter, BodyWidth, LineAt, IsRun, ActiveCodes, LineEndReset;
    ghost var b := a + |token|;
    wrapped', current', cuts := wrapped, current, starts;
    var tokenWidth := VisibleWidth(token);
    if tokenWidth > width && !IsWhitespace(token) {
      if current != [] {
        var line := current + Codes(LineEndReset(tracker.State()));
        CutBeforeLong(t, width, a, b, wrapped, starts, line);
        wrapped', cuts := wrapped + [line], starts + [a];
      } else {
        EmptyIsFresh(t, starts[|wrapped|], a);
      }
      var broken;
      broken, cuts := BreakLongWord(token, width, tracker, t, a, wrapped', cuts);
      wrapped' := wrapped' + broken[..|broken| - 1];
      current' := LastLine(broken);
      UnfinishedWidth(t, cuts[|cuts| - 1], b);
      currentWidth' := VisibleWidth(current');
      return;
    }
    if currentWidth + tokenWidth > width && currentWidth > 0 {
      var line := TrimEnd(current) + Codes(LineEndReset(tracker.State()));
      if IsWhitespace(token) {
        CutAtBlanks(t, width, a, b, wrapped, starts, line);
        wrapped', cuts := wrapped + [line], starts + [b];
        current' := Codes(ActiveCodes(tracker.State()));
        currentWidth' := 0;
      } else {
        CutBeforeRun(t, width, a, b, wrapped, starts, line);
        wrapped', cuts := wrapped + [line], starts + [a];
        current' := Codes(ActiveCodes(tracker.State())) + token;
        currentWidth' := tokenWidth;
      }
    } else {
      RunFits(t, width, a, b, wrapped, starts);
      current' := current + token;
      currentWidth' := currentWidth + tokenWidth;
    }
    UpdateTrackerFromText(token, tracker);
    StyleOver(t, a, b);
  }

  lemma StyleOver(t: Text, a: nat, b: nat)
    requires a <= b <= |t|
    ensures StyleAfter(Plain, t[..b]) == StyleAfter(StyleAfter(Plain, t[..a]), t[a..b])
  {
    assert t[..b] == t[..a] + t[a..b];
    TextConcat(Plain, t[..a], t[a..b]);
  }

  lemma UnfinishedWidth(t: Text, q: nat, pos: nat)
    requires q <= pos <= |t|
    ensures VisibleWidth(Unfinished(t, q, pos)) == Width(t, q, pos)
  {
    CodesInFront(ActiveCodes(StyleAfter(Plain, t[..q])), t[q..pos]);
  }

  lemma TrimUnfinished(t: Text, q: nat, pos: nat)
    requires q <= pos <= |t|
    ensures TrimEnd(Unfinished(t, q, pos)) == Opened(t, q) + TrimEnd(t[q..pos])
  {
    hide ActiveCodes, StyleAfter;
    TrimAfterCodes(Opened(t, q), t[q..pos]);
  }

  lemma EmptyIsFresh(t: Text, q: nat, pos: nat)
    requires q <= pos <= |t| && Unfinished(t, q, pos) == []
    ensures q == pos
  {
    assert |t[q..pos]| == 0;
  }

  /** An unfinished line that shows something, or holds codes, begins after some text. */
  lemma NotAtStart(t: Text, q: nat, pos: nat)
    requires q <= pos <= |t| && (Unfinished(t, q, pos) != [] || Width(t, q, pos) > 0)
    ensures pos > 0
  {
    assert t[..0] == [] && t[0..0] == [] && ActiveCodes(Plain) == [];
  }

  lemma CutBeforeLong(t: Text, width: int, a: nat, b: nat, wrapped: seq<Text>, starts: seq<nat>, line: Text)
    requires IsRun(t, a, b) && Cutting(t, width, a, wrapped, starts)
    requires Width(t, a, b) > width && !IsWhitespace(t[a..b])
    requires var q := starts[|wrapped|]; Unfinished(t, q, a) != [] && line == Unfinished(t, q, a) + Closing(t, a)
    ensures Cutting(t, width, a, wrapped + [line], starts + [a]) && (starts + [a])[|wrapped + [line]|] == a
  {
    hide VisibleWidth, StyleAfter, Opened, Closing, BodyWidth, LineAt;
    var q := starts[|wrapped|];
    NotAtStart(t, q, a);
    RunOf(t, a, b, a);
    WidthSplit(t, q, a, b);
    assert NextRunTooWide(t, width, q, a);
    hide Boundary, RunStart, RunEnd, Cutting;
    CutLine(t, width, a, wrapped, starts, a, line);
  }

  lemma CutBeforeRun(t: Text, width: int, a: nat, b: nat, wrapped: seq<Text>, starts: seq<nat>, line: Text)
    requires IsRun(t, a, b) && Cutting(t, width, a, wrapped, starts)
    requires Width(t, a, b) <= width && !IsWhitespace(t[a..b])
    requires var q := starts[|wrapped|];
      && Width(t, q, a) > 0 && Width(t, q, a) + Width(t, a, b) > width
      && line == TrimEnd(Unfinished(t, q, a)) + Closing(t, a)
    ensures Cutting(t, width, b, wrapped + [line], starts + [a])
    ensures Unfinished(t, a, b) == Opened(t, a) + t[a..b]
  {
    hide VisibleWidth, StyleAfter, Opened, Closing, BodyWidth, LineAt;
    var q := starts[|wrapped|];
    NotAtStart(t, q, a);
    RunOf(t, a, b, a);
    WidthSplit(t, q, a, b);
    TrimUnfinished(t, q, a);
    assert NextRunTooWide(t, width, q, a);
    hide Boundary, RunStart, RunEnd, Cutting;
    CutLine(t, width, a, wrapped, starts, a, line);
    BodyWidthBound(t[a..b]);
    GoOn(t, width, a, wrapped + [line], starts + [a], b);
  }

  /** Blanks that do not fit end the line and are dropped. */
  lemma CutAtBlanks(t: Text, width: int, a: nat, b: nat, wrapped: seq<Text>, starts: seq<nat>, line: Text)
    requires IsRun(t, a, b) && Cutting(t, width, a, wrapped, starts) && IsWhitespace(t[a..b])
    requires var q := starts[|wrapped|];
      && Width(t, q, a) + Width(t, a, b) > width
      && line == TrimEnd(Unfinished(t, q, a)) + Closing(t, a)
    ensures Cutting(t, width, b, wrapped + [line], starts + [b])
    ensures Unfinished(t, b, b) == Opened(t, b) == Opened(t, a) && Width(t, b, b) == 0
  {
    hide *;
    CuttingInside(t, width, a, wrapped, starts);
    RunInside(t, a, b);
    CutFits(t, width, a, wrapped, starts);
    var q := starts[|wrapped|];
    BlankLine(t, width, a, b, q, line);
    NoWidth(t, b);
    SameCodes(t, a, b);
    CutLine(t, width, a, wrapped, starts, b, line);
  }

  lemma CutFits(t: Text, width: int, pos: nat, wrapped: seq<Text>, starts: seq<nat>)
    requires Cutting(t, width, pos, wrapped, starts)
    ensures Fits(t, width) ==> BodyWidth(t[starts[|wrapped|]..pos]) <= width
  {
  }

  /** Blanks change no style. */
  lemma SameCodes(t: Text, a: nat, b: nat)
    requires a <= b <= |t| && IsWhitespace(t[a..b])
    ensures Opened(t, b) == Opened(t, a) && Closing(t, b) == Closing(t, a)
  {
    hide ActiveCodes, LineEndReset, StyleAfter;
    assert t[..b] == t[..a] + t[a..b];
    TrimBlanks(t[..a], t[a..b]);
  }

  lemma BlankLine(t: Text, width: int, a: nat, b: nat, q: nat, line: Text)
    requires IsRun(t, a, b) && IsWhitespace(t[a..b]) && q <= a && Width(t, q, a) + Width(t, a, b) > width
    requires line == TrimEnd(Unfinished(t, q, a)) + Closing(t, a)
    requires Fits(t, width) ==> BodyWidth(t[q..a]) <= width
    ensures IsLine(t, width, q, b, line)
  {
    hide Width, BodyWidth, Opened, Closing, Boundary, TrimEnd, Unfinished, IsWhitespace, Fits, TooLong;
    RunOf(t, a, b, b - 1);
    WidthSplit(t, q, a, b);
    TrimUnfinished(t, q, a);
    assert t[q..b] == t[q..a] + t[a..b];
    TrimBlanks(t[q..a], t[a..b]);
    SameCodes(t, a, b);
    assert BlanksTooWide(t, width, q, b);
  }

  lemma NoWidth(t: Text, p: nat)
    requires p <= |t|
    ensures Width(t, p, p) == 0
  {
    assert t[p..p] == [];
  }

  /** The run goes on the line: it fits, or nothing is shown there yet. */
  lemma RunFits(t: Text, width: int, a: nat, b: nat, wrapped: seq<Text>, starts: seq<nat>)
    requires IsRun(t, a, b) && Cutting(t, width, a, wrapped, starts)
    requires Width(t, a, b) <= width || IsWhitespace(t[a..b])
    requires var q := starts[|wrapped|]; Width(t, q, a) + Width(t, a, b) <= width || Width(t, q, a) == 0
    ensures Cutting(t, width, b, wrapped, starts)
    ensures var q := starts[|wrapped|];
      && q <= a && Unfinished(t, q, b) == Unfinished(t, q, a) + t[a..b]
      && Width(t, q, b) == Width(t, q, a) + Width(t, a, b)
  {
    hide VisibleWidth, StyleAfter, Opened, BodyWidth, LineAt, Boundary;
    var q := starts[|wrapped|];
    WidthSplit(t, q, a, b);
    assert t[q..b] == t[q..a] + t[a..b];
    if Width(t, q, b) <= width {
      BodyWidthBound(t[q..b]);
    } else {
      TrimBlanks(t[q..a], t[a..b]);
    }
    GoOn(t, width, a, wrapped, starts, b);
  }

  /** Wrap one line. */
  method WrapSingleLine(line: Text, width: int) returns (lines: seq<Text>, ghost starts: seq<nat>)
    ensures WrapsTo(line, width, lines, starts)
    ensures WellWrapped(line, width, lines)
  {
    hide WellWrapped, CutAt;
    if line == [] {
      lines, starts := [[]], [0];
    } else if VisibleWidth(line) <= width {
      lines, starts := [line], [0];
    } else {
      var tokens := SplitIntoTokensWithAnsi(line);
      lines, starts := WrapTokens(line, tokens, width);
    }
    WrappedWell(line, width, lines, starts);
  }

  /** The wrapping loop. */
  method WrapTokens(ghost line: Text, tokens: seq<Text>, width: int) returns (lines: seq<Text>, ghost starts: seq<nat>)
    requires line != [] && Tokenized(line, tokens)
    ensures CutAt(line, width, lines, starts)
  {
    hide Cutting, CutAt, VisibleWidth, IsRun, Tokenized, Flatten;
    var tracker := new AnsiCodeTracker();
    var currentLine: Text := [];
    var currentVisibleLength := 0;
    var wrapped: seq<Text> := [];
    starts := [0];
    CutStarts(line, width);
    NoWidth(line, 0);
    AtStart(line, tokens);
    for k := 0 to |tokens|
      invariant |Flatten(tokens[..k])| <= |line| && Cutting(line, width, |Flatten(tokens[..k])|, wrapped, starts)
      invariant |starts| == |wrapped| + 1 && starts[|wrapped|] <= |Flatten(tokens[..k])|
      invariant currentLine == Unfinished(line, starts[|wrapped|], |Flatten(tokens[..k])|)
      invariant currentVisibleLength == Width(line, starts[|wrapped|], |Flatten(tokens[..k])|)
      invariant tracker.State() == StyleAfter(Plain, line[..|Flatten(tokens[..k])|])
      invariant fresh(tracker)
    {
      TokensAreRuns(line, tokens, k);
      TokenPlace(tokens, k);
      RunInside(line, |Flatten(tokens[..k])|, |Flatten(tokens[..k + 1])|);
      ghost var cuts;
      wrapped, currentLine, currentVisibleLength, cuts :=
        WrapToken(tokens[k], width, tracker, wrapped, currentLine, currentVisibleLength, line,
          |Flatten(tokens[..k])|, starts);
      starts := cuts;
      CuttingInside(line, width, |Flatten(tokens[..k + 1])|, wrapped, starts);
    }
    AtEnd(line, tokens);
    if currentLine != [] {
      ghost var before := wrapped;
      wrapped := wrapped + [currentLine];
      lines := TrimLines(wrapped);
      LastLineLeft(line, width, before, starts, lines);
    } else {
      lines := TrimLines(wrapped);
      NothingLeft(line, width, wrapped, starts, lines);
      starts := starts[..|wrapped|];
    }
    if lines == [] {
      assert false;  // some line was cut, or is left
    }
  }

  /** `trimEnd` on every line. */
  method TrimLines(wrapped: seq<Text>) returns (lines: seq<Text>)
    ensures |lines| == |wrapped| && forall i :: 0 <= i < |lines| ==> lines[i] == TrimEnd(wrapped[i])
  {
    lines := [];
    for i := 0 to |wrapped|
      invariant |lines| == i && forall k :: 0 <= k < i ==> lines[k] == TrimEnd(wrapped[k])
    {
      lines := lines + [TrimEnd(wrapped[i])];
    }
  }

  lemma AtStart(line: Text, tokens: seq<Text>)
    ensures |Flatten(tokens[..0])| == 0 && StyleAfter(Plain, line[..0]) == Plain
  {
    assert line[..0] == [];
  }

  lemma AtEnd(line: Text, tokens: seq<Text>)
    requires Tokenized(line, tokens)
    ensures |Flatten(tokens[..|tokens|])| == |line|
  {
    assert tokens[..|tokens|] == tokens;
  }

  lemma RunInside(t: Text, a: nat, b: nat)
    requires IsRun(t, a, b)
    ensures a < b <= |t|
  {
  }

  lemma CuttingInside(t: Text, width: int, pos: nat, wrapped: seq<Text>, starts: seq<nat>)
    requires Cutting(t, width, pos, wrapped, starts)
    ensures pos <= |t| && |starts| == |wrapped| + 1 && starts[|wrapped|] <= pos
  {
  }

  /** The last trimming changes a line only where no codes close it. */
  lemma TrimmedLine(t: Text, width: int, q: nat, p: nat, out: Text)
    requires IsLine(t, width, q, p, out)
    ensures IsLine(t, width, q, p, TrimEnd(out))
  {
    hide ActiveCodes, StyleAfter, LineEndReset, MayCut, BodyWidth, TooLong;
    var kept := if out == Opened(t, q) + TrimEnd(t[q..p]) + Closing(t, p) then TrimEnd(t[q..p]) else t[q..p];
    assert out == Opened(t, q) + kept + Closing(t, p);
    if Closing(t, p) == [] {
      assert out == Opened(t, q) + kept;
      TrimAfterCodes(Opened(t, q), kept);
      TrimTwice(t[q..p]);
      assert TrimEnd(out) == Opened(t, q) + TrimEnd(t[q..p]) + Closing(t, p);
    } else {
      TrimBeforeCodes(Opened(t, q) + kept, Closing(t, p));
    }
  }

  lemma TrimmedLines(t: Text, width: int, wrapped: seq<Text>, starts: seq<nat>, lines: seq<Text>)
    requires Cutting(t, width, |t|, wrapped, starts)
    requires |lines| >= |wrapped| && forall i :: 0 <= i < |wrapped| ==> lines[i] == TrimEnd(wrapped[i])
    ensures forall i :: 0 <= i < |wrapped| ==> LineAt(t, width, lines, starts, i)
  {
    hide IsLine;
    forall i | 0 <= i < |wrapped|
      ensures LineAt(t, width, lines, starts, i)
    {
      assert LineAt(t, width, wrapped, starts, i);
      TrimmedLine(t, width, starts[i], starts[i + 1], wrapped[i]);
    }
  }

  lemma LastLineLeft(t: Text, width: int, wrapped: seq<Text>, starts: seq<nat>, lines: seq<Text>)
    requires Cutting(t, width, |t|, wrapped, starts)
    requires var all := wrapped + [Unfinished(t, starts[|wrapped|], |t|)];
      |lines| == |all| && forall i :: 0 <= i < |lines| ==> lines[i] == TrimEnd(all[i])
    ensures CutAt(t, width, lines, starts)
  {
    hide LineAt, BodyWidth, Opened;
    var n := |wrapped|;
    var all := wrapped + [Unfinished(t, starts[n], |t|)];
    assert forall i :: 0 <= i < n ==> all[i] == wrapped[i];
    assert all[n] == Unfinished(t, starts[n], |t|);
    TrimmedLines(t, width, wrapped, starts, lines);
    TrimUnfinished(t, starts[n], |t|);
    assert t[starts[n]..|t|] == t[starts[n]..];
  }

  /** Blanks were dropped at the end, and no code is to be brought back: nothing is left for one more line. */
  lemma NothingLeft(t: Text, width: int, wrapped: seq<Text>, starts: seq<nat>, lines: seq<Text>)
    requires Cutting(t, width, |t|, wrapped, starts) && t != [] && Unfinished(t, starts[|wrapped|], |t|) == []
    requires |lines| == |wrapped| && forall i :: 0 <= i < |lines| ==> lines[i] == TrimEnd(wrapped[i])
    ensures lines != [] && CutAt(t, width, lines, starts[..|wrapped|])
  {
    hide IsLine, BodyWidth, StyleAfter, ActiveCodes, TrimEnd;
    EmptyIsFresh(t, starts[|wrapped|], |t|);
    TrimmedLines(t, width, wrapped, starts, lines);
    var n, all := |wrapped| - 1, starts[..|wrapped|];
    assert LineAt(t, width, wrapped, starts, n);
    LineIsLast(t, width, starts[n], wrapped[n]);
    forall i | 0 <= i < n
      ensures LineAt(t, width, lines, all, i)
    {
      assert LineAt(t, width, lines, starts, i);
    }
  }

  lemma LineIsLast(t: Text, width: int, q: nat, out: Text)
    requires IsLine(t, width, q, |t|, out) && Opened(t, |t|) == []
    ensures IsLastLine(t, width, q, TrimEnd(out))
  {
    TrimmedLine(t, width, q, |t|, out);
    assert t[..|t|] == t && t[q..|t|] == t[q..];
    NothingToClose(StyleAfter(Plain, t));
    hide ActiveCodes, StyleAfter, LineEndReset, MayCut, BodyWidth, TooLong, RunEnd, RunStart;
    assert Closing(t, |t|) == [];
    TrimAfterCodes(Opened(t, q), t[q..]);
    TrimTwice(t[q..]);
    assert Opened(t, q) + TrimEnd(t[q..]) + [] == Opened(t, q) + TrimEnd(t[q..]);
    assert Opened(t, q) + t[q..] + [] == Opened(t, q) + t[q..];
    TrimAfterCodes(Opened(t, q), TrimEnd(t[q..]));
  }

  lemma NothingToClose(s: Style)
    requires ActiveCodes(s) == []
    ensures LineEndReset(s) == []
  {
  }

  // ----- what wrapped lines show -----

  /** What wrapping a line promises: each line shows a stretch of the input, every character in
      its style, and only blanks between the stretches are lost; each line can be read on its own or
      after the one before, the first line begins with the codes of the input, all but the last end without
      underline and hyperlink, and no line is too wide if every character fits. */
  ghost predicate WellWrapped(line: Text, width: int, lines: seq<Text>) {
    && lines != []
    && Spread(Cells(Plain, line), lines)
    && Continuous(lines)
    && End(LastLine(lines)) == StyleAfter(Plain, line)
    && LeadingCodes(line) <= lines[0]
    && (forall i :: 0 <= i < |lines| - 1 ==> IsClosed(End(lines[i])))
    && (Fits(line, width) ==> BodiesFit(lines, width))
  }

  predicate IsClosed(s: Style) { !s.flags.underline && s.link.None? }

  /** The codes a text begins with. */
  function LeadingCodes(t: Text): (lead: Text)
    ensures lead <= t && AllCodes(lead)
    ensures |lead| == |t| || t[|lead|].G?
  {
    if t == [] || t[0].G? then [] else [t[0]] + LeadingCodes(t[1..])
  }

  /** What a line shows and how it ends. */
  lemma OpenedShows(t: Text, q: nat, p: nat, kept: Text)
    requires q <= p <= |t| && (kept == t[q..p] || kept == TrimEnd(t[q..p]))
    ensures var s, x := StyleAfter(Plain, t[..q]), Opened(t, q) + kept;
      && Trails(Cells(s, t[q..p]), Cells(Plain, x))
      && End(x) == StyleAfter(Plain, t[..p])
      && BodyWidth(x) == BodyWidth(t[q..p])
      && forall before :: PartOf(before, s) ==> Restarts(before, x)
  {
    hide ActiveCodes, Cells, StyleAfter, BodyWidth, PartOf, Restarts, Reachable, Trails;
    var s := StyleAfter(Plain, t[..q]);
    TextKeepsReachable(Plain, t[..q]);
    ActiveCodesRestart(Plain, s, []);
    CodesInFront(ActiveCodes(s), kept);
    TrimEndTrails(s, t[q..p]);
    TrailsSelf(Cells(s, t[q..p]));
    StyleOver(t, q, p);
    TrimEndBodyWidth(t[q..p]);
    BodyWidthInFront(ActiveCodes(s), kept);
    forall before | PartOf(before, s)
      ensures Restarts(before, Opened(t, q) + kept)
    {
      ActiveCodesRestart(before, s, kept);
    }
    CodesOnly(Plain, ActiveCodes(s));
  }

  lemma TrailsSelf(a: seq<Cell>)
    ensures Trails(a, a)
  {
  }

  lemma {:induction false} BodyWidthInFront(codes: seq<Code>, t: Text)
    ensures BodyWidth(Codes(codes) + t) == BodyWidth(t)
    decreases |t|
  {
    if t == [] {
      assert Codes(codes) + t == [] + Codes(codes);
      BodyWidthTail([], Codes(codes));
    } else {
      var x := Codes(codes) + t;
      assert x[..|x| - 1] == Codes(codes) + t[..|t| - 1];
      CodesInFront(codes, t);
      BodyWidthInFront(codes, t[..|t| - 1]);
    }
  }

  lemma LineShows(t: Text, width: int, q: nat, p: nat, out: Text)
    requires IsLine(t, width, q, p, out)
    ensures q <= p <= |t| && Trails(Cells(StyleAfter(Plain, t[..q]), t[q..p]), Cells(Plain, out))
    ensures End(out) == Closed(StyleAfter(Plain, t[..p]))
    ensures BodyWidth(out) == BodyWidth(t[q..p])
    ensures forall before :: PartOf(before, StyleAfter(Plain, t[..q])) ==> Restarts(before, out)
  {
    hide ActiveCodes, Cells, StyleAfter, BodyWidth, PartOf, Restarts, LineEndReset, Trails, Opened, MayCut, TooLong;
    var s := StyleAfter(Plain, t[..p]);
    var kept := if out == Opened(t, q) + TrimEnd(t[q..p]) + Closing(t, p) then TrimEnd(t[q..p]) else t[q..p];
    OpenedShows(t, q, p, kept);
    var x, reset := Opened(t, q) + kept, Codes(LineEndReset(s));
    assert out == x + reset;
    TextConcat(Plain, x, reset);
    CodesOnly(s, LineEndReset(s));
    LineEndResetCloses(s);
    BodyWidthTail(x, reset);
    assert Cells(Plain, x) + [] == Cells(Plain, x);
    forall before | PartOf(before, StyleAfter(Plain, t[..q]))
      ensures Restarts(before, out)
    {
      RestartsConcat(before, x, reset);
    }
  }

  lemma LastLineShows(t: Text, width: int, q: nat, out: Text)
    requires IsLastLine(t, width, q, out)
    ensures q <= |t| && Trails(Cells(StyleAfter(Plain, t[..q]), t[q..]), Cells(Plain, out))
    ensures End(out) == StyleAfter(Plain, t) && BodyWidth(out) == BodyWidth(t[q..])
    ensures forall before :: PartOf(before, StyleAfter(Plain, t[..q])) ==> Restarts(before, out)
  {
    assert t[q..|t|] == t[q..] && t[..|t|] == t;
    OpenedShows(t, q, |t|, TrimEnd(t[q..]));
  }

  /** The first `n` lines show the text up to where the next one begins. */
  lemma {:induction false} LinesSpread(t: Text, width: int, lines: seq<Text>, starts: seq<nat>, n: nat)
    requires CutAt(t, width, lines, starts) && n < |lines|
    ensures starts[n] <= |t| && Spread(Cells(Plain, t[..starts[n]]), lines[..n])
    decreases n
  {
    hide *;
    CutInside(t, width, lines, starts, n);
    if n == 0 {
      assert t[..0] == [] && lines[..0] == [];
      NoCells(Plain);
      SpreadNothing();
    } else {
      CutInside(t, width, lines, starts, n - 1);
      var q, p := starts[n - 1], starts[n];
      LinesSpread(t, width, lines, starts, n - 1);
      LineShows(t, width, q, p, lines[n - 1]);
      CellsOver(t, q, p);
      SpreadLine(Cells(Plain, t[..q]), lines[..n - 1], Cells(StyleAfter(Plain, t[..q]), t[q..p]), lines[n - 1]);
      assert lines[..n] == lines[..n - 1] + [lines[n - 1]];
    }
  }

  lemma CutInside(t: Text, width: int, lines: seq<Text>, starts: seq<nat>, i: nat)
    requires CutAt(t, width, lines, starts) && i < |lines|
    ensures |starts| == |lines| && starts[0] == 0 && starts[i] <= |t|
    ensures i + 1 < |lines| ==> IsLine(t, width, starts[i], starts[i + 1], lines[i])
  {
    hide MayCut, BodyWidth, TooLong;
    if i + 1 < |lines| {
      assert LineAt(t, width, lines, starts, i);
    }
  }

  lemma SpreadNothing()
    ensures Spread([], [])
  {
  }

  lemma CellsOver(t: Text, q: nat, p: nat)
    requires q <= p <= |t|
    ensures Cells(Plain, t[..p]) == Cells(Plain, t[..q]) + Cells(StyleAfter(Plain, t[..q]), t[q..p])
  {
    assert t[..p] == t[..q] + t[q..p];
    TextConcat(Plain, t[..q], t[q..p]);
  }

  lemma AllSpread(t: Text, width: int, lines: seq<Text>, starts: seq<nat>)
    requires CutAt(t, width, lines, starts)
    ensures Spread(Cells(Plain, t), lines)
  {
    hide Cells, Spread, StyleAfter, Trails, IsLine;
    var n := |lines| - 1;
    var q := starts[n];
    LinesSpread(t, width, lines, starts, n);
    LastLineShows(t, width, q, lines[n]);
    CellsOver(t, q, |t|);
    SpreadLine(Cells(Plain, t[..q]), lines[..n], Cells(StyleAfter(Plain, t[..q]), t[q..]), lines[n]);
    assert lines == lines[..n] + [lines[n]] && t[..|t|] == t && t[q..|t|] == t[q..];
  }

  lemma LineFits(t: Text, width: int, q: nat, p: nat, out: Text)
    requires IsLine(t, width, q, p, out)
    ensures Fits(t, width) ==> BodyWidth(t[q..p]) <= width
  {
  }

  lemma LastLineIs(t: Text, width: int, lines: seq<Text>, starts: seq<nat>)
    requires CutAt(t, width, lines, starts)
    ensures var n := |lines| - 1;
      && IsLastLine(t, width, starts[n], lines[n])
      && starts[n] <= |t| && (Fits(t, width) ==> BodyWidth(t[starts[n]..]) <= width)
  {
    hide LineAt;
  }

  /** How line `i` begins and ends. */
  lemma LineEnds(t: Text, width: int, lines: seq<Text>, starts: seq<nat>, i: nat)
    requires CutAt(t, width, lines, starts) && i < |lines|
    ensures starts[i] <= |t|
    ensures forall before :: PartOf(before, StyleAfter(Plain, t[..starts[i]])) ==> Restarts(before, lines[i])
    ensures Fits(t, width) ==> BodyWidth(lines[i]) <= width
    ensures i < |lines| - 1 ==>
      starts[i + 1] <= |t| && End(lines[i]) == Closed(StyleAfter(Plain, t[..starts[i + 1]]))
  {
    hide *;
    CutInside(t, width, lines, starts, i);
    if i < |lines| - 1 {
      LineShows(t, width, starts[i], starts[i + 1], lines[i]);
      LineFits(t, width, starts[i], starts[i + 1], lines[i]);
    } else {
      LastLineIs(t, width, lines, starts);
      LastLineShows(t, width, starts[i], lines[i]);
    }
  }

  lemma CutsContinue(t: Text, width: int, lines: seq<Text>, starts: seq<nat>)
    requires CutAt(t, width, lines, starts)
    ensures Continuous(lines)
  {
    hide CutAt, Restarts, PartOf, Closed, StyleAfter;
    forall i | 0 < i < |lines|
      ensures Restarts(StyleAfter(Plain, lines[i - 1]), lines[i])
    {
      CutInside(t, width, lines, starts, i);
      LineEnds(t, width, lines, starts, i - 1);
      LineEnds(t, width, lines, starts, i);
      LineEndResetCloses(StyleAfter(Plain, t[..starts[i]]));
    }
  }

  /** The codes at the start of the text are on the first line. */
  lemma LeadIsFirst(t: Text, width: int, lines: seq<Text>, starts: seq<nat>)
    requires CutAt(t, width, lines, starts)
    ensures LeadingCodes(t) <= lines[0]
  {
    hide LeadingCodes, TrimEnd, LineEndReset, BodyWidth, StyleAfter, VisibleWidth, MayCut, TooLong;
    CutInside(t, width, lines, starts, 0);
    NothingOpened(t);
    if |lines| == 1 {
      LeadKept(t, t[0..]);
      assert [] + TrimEnd(t[0..]) == lines[0];
    } else {
      var p := starts[1];
      LeadBeforeCut(t, width, 0, p);
      LeadKept(t, t[0..p]);
      hide IsLine, Opened, Closing, CutAt;
      FirstLineKeeps(t, width, p, lines[0]);
    }
  }

  lemma FirstLineKeeps(t: Text, width: int, p: nat, out: Text)
    requires IsLine(t, width, 0, p, out) && Opened(t, 0) == []
    ensures TrimEnd(t[0..p]) <= out || t[0..p] <= out
  {
    hide TrimEnd, Closing, Opened, BodyWidth, MayCut, TooLong, Fits;
  }

  lemma NothingOpened(t: Text)
    ensures Opened(t, 0) == []
  {
    assert t[..0] == [] && ActiveCodes(Plain) == [];
  }

  lemma LeadKept(t: Text, x: Text)
    requires LeadingCodes(t) <= x
    ensures LeadingCodes(t) <= TrimEnd(x)
  {
    var lead, r := LeadingCodes(t), TrimEnd(x);
    TrimEndIsPrefix(x);
    assert forall k :: 0 <= k < |lead| ==> x[k] == lead[k];
    assert |r| < |lead| ==> IsBlankItem(x[|r|]);
  }

  lemma LeadBeforeCut(t: Text, width: int, q: nat, p: nat)
    requires q <= p <= |t| && MayCut(t, width, q, p)
    ensures |LeadingCodes(t)| <= p
  {
    hide RunStart, RunEnd, TooLong, NextChar;
    var lead := LeadingCodes(t);
    assert forall k :: 0 <= k < |lead| ==> t[k].C?;
  }

  /** Lines that are cut where nothing more fits show the text. */
  lemma WrappedWell(line: Text, width: int, lines: seq<Text>, starts: seq<nat>)
    requires WrapsTo(line, width, lines, starts)
    ensures WellWrapped(line, width, lines)
  {
    hide Spread, Cells, StyleAfter, Continuous, LeadingCodes, BodyWidth, VisibleWidth;
    if lines == [line] && (line == [] || VisibleWidth(line) <= width) {
      AsItIs(line, width);
    } else {
      AllSpread(line, width, lines, starts);
      CutsContinue(line, width, lines, starts);
      LeadIsFirst(line, width, lines, starts);
      LastLineShows(line, width, starts[|lines| - 1], lines[|lines| - 1]);
      forall i | 0 <= i < |lines|
        ensures i < |lines| - 1 ==> IsClosed(End(lines[i]))
        ensures Fits(line, width) ==> BodyWidth(lines[i]) <= width
      {
        LineEnds(line, width, lines, starts, i);
      }
    }
  }

  lemma AsItIs(line: Text, width: int)
    requires VisibleWidth(line) <= width || line == []
    ensures WellWrapped(line, width, [line])
  {
    assert VisibleWidth([]) == 0;
    hide Cells, StyleAfter, VisibleWidth, BodyWidth, Spread, Trails, LeadingCodes, Restarts, IsClosed;
    SpreadNothing();
    TrailsSelf(Cells(Plain, line));
    SpreadLine([], [], Cells(Plain, line), line);
    BodyWidthBound(line);
    assert [] + [line] == [line] && [] + Cells(Plain, line) == Cells(Plain, line);
  }

  // ----- many lines -----

  /** Input line `k`, in the style in which the lines before it end. */
  function Carried(inputLines: seq<Text>, k: nat): Text
    requires k < |inputLines|
  {
    Codes(ActiveCodes(StyleAfter(Plain, Flatten(inputLines[..k])))) + inputLines[k]
  }

  function Concatenated(groups: seq<seq<Text>>): seq<Text> {
    if groups == [] then [] else Concatenated(groups[..|groups| - 1]) + groups[|groups| - 1]
  }

  /** Each input line becomes a group of lines, cut at `cuts`. */
  ghost predicate GroupsWrap(
      inputLines: seq<Text>, width: int, groups: seq<seq<Text>>, cuts: seq<seq<nat>>, n: nat)
    requires n <= |inputLines|
  {
    |groups| == |cuts| == n && forall k :: 0 <= k < n ==> WrapsTo(Carried(inputLines, k), width, groups[k], cuts[k])
  }

  /** Wrap a text given as its lines, carrying the style over line ends. */
  method WrapTextWithAnsi(inputLines: seq<Text>, width: int)
    returns (result: seq<Text>, ghost groups: seq<seq<Text>>, ghost cuts: seq<seq<nat>>)
    requires inputLines != []
    ensures result != []
    // Every input line is cut only where nothing more fits.
    ensures result == Concatenated(groups) && GroupsWrap(inputLines, width, groups, cuts, |inputLines|)
    // Each line shows a stretch of the input, in its style; only blanks between lines are lost.
    ensures Spread(Cells(Plain, Flatten(inputLines)), result)
    // The lines show the same read one by one or one after the other.
    ensures Cells(Plain, Flatten(result)) == LineCells(result)
    // No line is too wide, but for blanks at its end.
    ensures Fits(Flatten(inputLines), width) ==> BodiesFit(result, width)
  {
    hide WrappedText, WellWrapped, WrapsTo, Spread, Continuous, BodiesFit, Cells, LineCells, ActiveCodes, StyleAfter,
      Flatten;
    result, groups, cuts := [], [], [];
    var tracker := new AnsiCodeTracker();
    NoText(width, Fits(Flatten(inputLines), width));
    NothingBefore(inputLines);
    if Fits(Flatten(inputLines), width) {
      LinesFit(inputLines, width);
    }
    for k := 0 to |inputLines|
      invariant fresh(tracker) && tracker.State() == StyleAfter(Plain, Flatten(inputLines[..k]))
      invariant WrappedText(Flatten(inputLines[..k]), tracker.State(), result, width, Fits(Flatten(inputLines), width))
      invariant k == 0 <==> result == []
      invariant result == Concatenated(groups) && GroupsWrap(inputLines, width, groups, cuts, k)
    {
      var prefix: Text := if |result| > 0 then Codes(ActiveCodes(tracker.State())) else [];
      var wrappedLines;
      ghost var starts;
      wrappedLines, starts := WrapSingleLine(prefix + inputLines[k], width);
      NextLine(inputLines, k, tracker.State(), result, width, prefix, wrappedLines);
      WellWrappedNotEmpty(prefix + inputLines[k], width, wrappedLines);
      assert (groups + [wrappedLines])[..k] == groups;
      result, groups, cuts := result + wrappedLines, groups + [wrappedLines], cuts + [starts];
      UpdateTrackerFromText(inputLines[k], tracker);
      StylesOn(inputLines, k);
    }
    assert inputLines[..|inputLines|] == inputLines;
    TextWrapped(Flatten(inputLines), tracker.State(), result, width, Fits(Flatten(inputLines), width));
  }

  lemma NothingBefore(inputLines: seq<Text>)
    ensures Flatten(inputLines[..0]) == [] && StyleAfter(Plain, []) == Plain && Codes(ActiveCodes(Plain)) == []
  {
  }

  lemma StylesOn(inputLines: seq<Text>, k: nat)
    requires k < |inputLines|
    ensures Flatten(inputLines[..k + 1]) == Flatten(inputLines[..k]) + inputLines[k]
    ensures StyleAfter(Plain, Flatten(inputLines[..k + 1])) ==
      StyleAfter(StyleAfter(Plain, Flatten(inputLines[..k])), inputLines[k])
  {
    assert inputLines[..k + 1][..k] == inputLines[..k];
    TextConcat(Plain, Flatten(inputLines[..k]), inputLines[k]);
  }

  lemma {:induction false} LinesFit(lines: seq<Text>, width: int)
    requires Fits(Flatten(lines), width)
    ensures forall i :: 0 <= i < |lines| ==> Fits(lines[i], width)
    decreases |lines|
  {
    if lines != [] {
      var n := |lines| - 1;
      var before := Flatten(lines[..n]);
      assert forall i :: 0 <= i < |before| ==> Flatten(lines)[i] == before[i];
      assert forall i :: 0 <= i < |lines[n]| ==> Flatten(lines)[|before| + i] == lines[n][i];
      LinesFit(lines[..n], width);
    }
  }

  lemma NoText(width: int, fits: bool)
    ensures WrappedText([], Plain, [], width, fits)
  {
  }

  lemma WellWrappedNotEmpty(line: Text, width: int, lines: seq<Text>)
    requires WellWrapped(line, width, lines)
    ensures lines != []
  {
  }

  lemma TextWrapped(done: Text, s: Style, result: seq<Text>, width: int, fits: bool)
    requires WrappedText(done, s, result, width, fits)
    ensures Spread(Cells(Plain, done), result)
    ensures Cells(Plain, Flatten(result)) == LineCells(result)
    ensures fits ==> BodiesFit(result, width)
  {
    ContinuousReading(result);
  }

  ghost predicate WrappedText(done: Text, s: Style, result: seq<Text>, width: int, fits: bool) {
    && Reachable(s) && s == StyleAfter(Plain, done)
    && Spread(Cells(Plain, done), result)
    && Continuous(result)
    && (if result == [] then done == [] else End(LastLine(result)) == s)
    && (fits ==> BodiesFit(result, width))
  }

  lemma NextLine(inputLines: seq<Text>, k: nat, s: Style, result: seq<Text>, width: int,
                 prefix: Text, wrapped: seq<Text>)
    requires k < |inputLines|
    requires WrappedText(Flatten(inputLines[..k]), s, result, width, Fits(Flatten(inputLines), width))
    requires prefix == (if result != [] then Codes(ActiveCodes(s)) else []) && (k == 0 ==> result == [])
    requires WellWrapped(prefix + inputLines[k], width, wrapped)
    requires Fits(Flatten(inputLines), width) ==> Fits(inputLines[k], width)
    ensures WrappedText(Flatten(inputLines[..k + 1]), StyleAfter(s, inputLines[k]), result + wrapped, width,
      Fits(Flatten(inputLines), width))
  {
    hide Spread, Continuous, LineCells, Cells, StyleAfter, BodyWidth, LeadingCodes, VisibleWidth, ActiveCodes,
      Reachable, PartOf, AllCodes, Fits, Flatten;
    var done, input, fits := Flatten(inputLines[..k]), inputLines[k], Fits(Flatten(inputLines), width);
    StylesOn(inputLines, k);
    PrefixStyle(done, s, result, prefix, input, width, fits);
    TextConcat(Plain, done, input);
    TextKeepsReachable(s, input);
    SpreadConcat(Cells(Plain, done), result, Cells(s, input), wrapped);
    NextContinuous(s, result, prefix, input, wrapped);
    NextFits(prefix, input, width, fits);
  }

  lemma NextFits(prefix: Text, input: Text, width: int, fits: bool)
    requires AllCodes(prefix) && (fits ==> Fits(input, width))
    ensures fits ==> Fits(prefix + input, width)
  {
  }

  /** The codes put before the next line restore the style so far and show nothing. */
  lemma PrefixStyle(done: Text, s: Style, result: seq<Text>, prefix: Text, input: Text, width: int, fits: bool)
    requires WrappedText(done, s, result, width, fits)
    requires prefix == if result != [] then Codes(ActiveCodes(s)) else []
    ensures AllCodes(prefix)
    ensures Cells(Plain, prefix + input) == Cells(s, input)
    ensures StyleAfter(Plain, prefix + input) == StyleAfter(s, input)
  {
    CodesOnly(Plain, ActiveCodes(s));
    ActiveCodesRestart(Plain, s, []);
    TextConcat(Plain, prefix, input);
    assert StyleAfter(Plain, prefix) == s && Cells(Plain, prefix) == [];
  }

  lemma NextContinuous(s: Style, result: seq<Text>, prefix: Text, input: Text, wrapped: seq<Text>)
    requires Continuous(result) && Continuous(wrapped) && wrapped != []
    requires Reachable(s) && (result != [] ==> End(LastLine(result)) == s && prefix == Codes(ActiveCodes(s)))
    requires LeadingCodes(prefix + input) <= wrapped[0]
    ensures Continuous(result + wrapped)
  {
    hide Continuous, Cells, StyleAfter, LeadingCodes;
    if result != [] {
      PrefixFirst(s, prefix, input, wrapped[0]);
      ActiveCodesRestart(End(LastLine(result)), s, wrapped[0][|prefix|..]);
      assert prefix + wrapped[0][|prefix|..] == wrapped[0];
    }
    JoinedContinuous(result, wrapped);
  }

  lemma PrefixFirst(s: Style, prefix: Text, input: Text, first: Text)
    requires prefix == Codes(ActiveCodes(s)) && LeadingCodes(prefix + input) <= first
    ensures prefix <= first
  {
    var lead := LeadingCodes(prefix + input);
    assert forall i :: 0 <= i < |prefix| ==> (prefix + input)[i].C?;
  }

  lemma JoinedContinuous(a: seq<Text>, b: seq<Text>)
    requires Continuous(a) && Continuous(b)
    requires a != [] && b != [] ==> Restarts(End(LastLine(a)), b[0])
    ensures Continuous(a + b)
  {
    var c := a + b;
    forall i | 0 < i < |c|
      ensures Restarts(StyleAfter(Plain, c[i - 1]), c[i])
    {
      if i < |a| {
        assert c[i - 1] == a[i - 1];
      } else if i > |a| {
        assert c[i - 1] == b[i - 1 - |a|];
      }
    }
  }
}
