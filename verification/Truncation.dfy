/**
 * Truncation of styled text to a width (packages/tui/src/utils.ts). A tab is a character three
 * columns wide.
 */
module Truncation {
  import opened Strings
  import opened Style
  import opened StyledText

  const RESET := C(Sgr(["0"]))

  const SPACE := Grapheme(" ", 1, true, true, false)

  function Spaces(n: nat): (t: Text)
    ensures |t| == n
    ensures forall i :: 0 <= i < n ==> t[i] == G(SPACE)
  {
    seq(n, i => G(SPACE))
  }

  lemma {:induction false} SpacesWidth(n: nat)
    ensures VisibleWidth(Spaces(n)) == n
  {
    if n > 0 {
      SpacesWidth(n - 1);
      assert Spaces(n)[..n - 1] == Spaces(n - 1);
    }
  }

  lemma WidthConcat(a: Text, b: Text)
    ensures VisibleWidth(a + b) == VisibleWidth(a) + VisibleWidth(b)
  {
    hide Cells, StyleAfter, VisibleWidth;
    TextConcat(Plain, a, b);
  }

  /** Characters one column wide each, and no codes. */
  predicate PrintableAscii(t: Text) {
    forall i :: 0 <= i < |t| ==> t[i].G? && t[i].grapheme.width == 1
  }

  lemma {:induction false} AsciiWidth(t: Text)
    requires PrintableAscii(t)
    ensures VisibleWidth(t) == |t|
  {
    if t != [] { AsciiWidth(t[..|t| - 1]); }
  }

  // ----- the longest prefix that fits -----

  /**
   * `n` ends the longest prefix of `t` that is at most `width` columns wide and ends in a character:
   * codes after its last character are not part of it.
   */
  ghost predicate LongestFit(t: Text, width: nat, n: nat) {
    && n <= |t| && (n > 0 ==> t[n - 1].G?)
    && VisibleWidth(t[..n]) <= width
    && forall m :: n < m <= |t| && t[m - 1].G? ==> VisibleWidth(t[..m]) > width
  }

  lemma LongestFitIsUnique(t: Text, width: nat, n: nat, m: nat)
    requires LongestFit(t, width, n) && LongestFit(t, width, m)
    ensures n == m
  {
  }

  lemma PrefixWidth(t: Text, i: nat)
    requires i < |t|
    ensures VisibleWidth(t[..i + 1]) == VisibleWidth(t[..i]) + ItemWidth(t[i])
  {
    assert t[..i + 1][..i] == t[..i];
  }

  lemma {:induction false} PrefixesGrow(t: Text, i: nat, j: nat)
    requires i <= j <= |t|
    ensures VisibleWidth(t[..i]) <= VisibleWidth(t[..j])
    decreases j
  {
    if i < j {
      PrefixesGrow(t, i, j - 1);
      PrefixWidth(t, j - 1);
    }
  }

  /**
   * After `i` items: what was kept ends the longest fit so far. While nothing was left out, only
   * codes come after it; once something was, nothing fits any more.
   */
  ghost predicate Fitting(t: Text, width: nat, i: nat, n: nat, all: bool) {
    && i <= |t| && n <= i && (n > 0 ==> t[n - 1].G?)
    && VisibleWidth(t[..n]) <= width
    && (forall m :: n < m <= i && t[m - 1].G? ==> VisibleWidth(t[..m]) > width)
    && (if all then VisibleWidth(t[..n]) == VisibleWidth(t[..i]) else VisibleWidth(t[..i]) > width)
  }

  lemma FittingStep(t: Text, width: nat, i: nat, n: nat, all: bool)
    requires i < |t| && Fitting(t, width, i, n, all)
    ensures all ==> VisibleWidth(t[..n]) == VisibleWidth(t[..i])
    ensures t[i].C? ==> Fitting(t, width, i + 1, n, all)
    ensures t[i].G? && all && VisibleWidth(t[..n]) + t[i].grapheme.width <= width ==>
      Fitting(t, width, i + 1, i + 1, true)
    ensures t[i].G? && !(all && VisibleWidth(t[..n]) + t[i].grapheme.width <= width) ==>
      Fitting(t, width, i + 1, n, false)
  {
    PrefixWidth(t, i);
  }

  lemma FittingStarts(t: Text, width: nat)
    ensures t[..0] == [] && VisibleWidth([]) == 0 && Fitting(t, width, 0, 0, true)
  {
    assert t[..0] == [];
  }

  lemma FittingEnds(t: Text, width: nat, i: nat, n: nat, all: bool)
    requires Fitting(t, width, i, n, all) && (i == |t| || !all)
    ensures LongestFit(t, width, n)
  {
    forall m | n < m <= |t| && t[m - 1].G? ensures VisibleWidth(t[..m]) > width {
      if m > i { PrefixesGrow(t, i, m); }
    }
  }

  lemma EmptyFits(width: nat)
    ensures LongestFit([], width, 0)
  {
  }

  /** Short text with nothing but one-column characters: the prefix is counted, not measured. */
  lemma AsciiFit(t: Text, width: nat)
    requires PrintableAscii(t) && width <= |t|
    ensures LongestFit(t, width, width) && VisibleWidth(t[..width]) == width
  {
    forall m | 0 <= m <= |t| ensures VisibleWidth(t[..m]) == m { AsciiWidth(t[..m]); }
  }

  lemma AsciiFragment(t: Text, width: nat, n: nat)
    requires PrintableAscii(t) && n == if width < |t| then width else |t|
    ensures LongestFit(t, width, n) && VisibleWidth(t[..n]) == n
  {
    AsciiFit(t, n);
  }

  // ----- fragments -----

  /** The start of `t` that fits, without the codes after its last character. */
  method TruncateFragmentToWidth(t: Text, maxWidth: int) returns (result: Text, width: nat)
    ensures maxWidth <= 0 ==> result == []
    ensures maxWidth > 0 ==> LongestFit(t, maxWidth, |result|) && result == t[..|result|]
    ensures width == VisibleWidth(result)
  {
    hide VisibleWidth, Fitting, LongestFit, PrintableAscii;
    EmptyWidth();
    if maxWidth <= 0 { return [], 0; }
    if t == [] {
      EmptyFits(maxWidth);
      return [], 0;
    }
    if PrintableAscii(t) {
      var n := if maxWidth < |t| then maxWidth else |t|;
      result, width := t[..n], n;
      AsciiFragment(t, maxWidth, n);
      return;
    }
    FittingStarts(t, maxWidth);
    var pending := [];
    result, width := [], 0;
    var i := 0;
    while i < |t|
      invariant i <= |t| && result + pending == t[..i] && width == VisibleWidth(result)
      invariant result == t[..|result|] && Fitting(t, maxWidth, i, |result|, true)
    {
      FittingStep(t, maxWidth, i, |result|, true);
      assert t[..i + 1] == t[..i] + [t[i]];
      if t[i].C? {
        pending := pending + [t[i]];
      } else {
        if width + t[i].grapheme.width > maxWidth {
          FittingEnds(t, maxWidth, i + 1, |result|, false);
          return;
        }
        PrefixWidth(t, i);
        result, pending := result + pending + [t[i]], [];
        width := width + t[i].grapheme.width;
      }
      i := i + 1;
    }
    FittingEnds(t, maxWidth, i, |result|, true);
  }

  // ----- truncation -----

  function Ending(ellipsis: Text): Text {
    if ellipsis != [] then [RESET] + ellipsis + [RESET] else [RESET]
  }

  function Padding(pad: bool, n: int): Text { if pad && n > 0 then Spaces(n) else [] }

  method FinalizeTruncatedResult(
      prefix: Text, prefixWidth: nat, ellipsis: Text, ellipsisWidth: nat, maxWidth: nat, pad: bool)
    returns (result: Text)
    ensures result == prefix + Ending(ellipsis) + Padding(pad, maxWidth - (prefixWidth + ellipsisWidth))
  {
    result := if ellipsis != [] then prefix + ([RESET] + ellipsis + [RESET]) else prefix + [RESET];
    if pad && prefixWidth + ellipsisWidth < maxWidth {
      result := result + Spaces(maxWidth - (prefixWidth + ellipsisWidth));
    }
  }

  /** What truncation comes to: `n` and `e` end the parts kept of the text and of the ellipsis. */
  ghost predicate Truncated(t: Text, maxWidth: int, ellipsis: Text, pad: bool, result: Text, n: nat, e: nat) {
    if maxWidth <= 0 then result == []
    else if VisibleWidth(t) <= maxWidth then result == t + Padding(pad, maxWidth - VisibleWidth(t))
    else if VisibleWidth(ellipsis) < maxWidth then
      && LongestFit(t, maxWidth - VisibleWidth(ellipsis), n)
      && result == t[..n] + Ending(ellipsis) + Padding(pad, maxWidth - (VisibleWidth(t[..n]) + VisibleWidth(ellipsis)))
    else
      && LongestFit(ellipsis, maxWidth, e)
      && result == if VisibleWidth(ellipsis[..e]) == 0 then Padding(pad, maxWidth)
                   else Ending(ellipsis[..e]) + Padding(pad, maxWidth - VisibleWidth(ellipsis[..e]))
  }

  ghost predicate IsTruncation(t: Text, maxWidth: int, ellipsis: Text, pad: bool, result: Text) {
    exists n, e :: Truncated(t, maxWidth, ellipsis, pad, result, n, e)
  }

  /** The general scan: keeps the prefix that fits and stops when the text is too wide. */
  method ScanText(t: Text, maxWidth: nat, targetWidth: nat)
    returns (result: Text, keptWidth: nat, visibleSoFar: nat, overflowed: bool)
    requires targetWidth <= maxWidth
    ensures overflowed <==> VisibleWidth(t) > maxWidth
    ensures !overflowed ==> visibleSoFar == VisibleWidth(t)
    ensures overflowed ==> LongestFit(t, targetWidth, |result|) && result == t[..|result|]
    ensures keptWidth == VisibleWidth(result)
  {
    hide VisibleWidth, Fitting, LongestFit;
    FittingStarts(t, targetWidth);
    var pending, all := [], true;
    result, keptWidth, visibleSoFar, overflowed := [], 0, 0, false;
    var i := 0;
    while i < |t|
      invariant i <= |t| && keptWidth == VisibleWidth(result) && visibleSoFar == VisibleWidth(t[..i]) <= maxWidth
      invariant |result| <= i && result == t[..|result|] && (all ==> result + pending == t[..i])
      invariant Fitting(t, targetWidth, i, |result|, all) && !overflowed
    {
      FittingStep(t, targetWidth, i, |result|, all);
      PrefixWidth(t, i);
      assert t[..i + 1] == t[..i] + [t[i]];
      if t[i].C? {
        pending := pending + [t[i]];
      } else {
        var width := t[i].grapheme.width;
        if all && keptWidth + width <= targetWidth {
          result, pending := result + pending + [t[i]], [];
          keptWidth := keptWidth + width;
        } else {
          all, pending := false, [];
        }
        visibleSoFar := visibleSoFar + width;
        if visibleSoFar > maxWidth {
          overflowed := true;
          FittingEnds(t, targetWidth, i + 1, |result|, all);
          PrefixesGrow(t, i + 1, |t|);
          assert t[..|t|] == t;
          return;
        }
      }
      i := i + 1;
    }
    assert t[..|t|] == t;
  }

  method TruncateToWidth(t: Text, maxWidth: int, ellipsis: Text, pad: bool) returns (result: Text)
    ensures IsTruncation(t, maxWidth, ellipsis, pad, result)
  {
    hide LongestFit, VisibleWidth, PrintableAscii;
    ghost var n, e := 0, 0;
    if maxWidth <= 0 {
      result := [];
    } else if t == [] {
      EmptyWidth();
      result := Padding(pad, maxWidth);
    } else {
      var ellipsisWidth := VisibleWidth(ellipsis);
      if ellipsisWidth >= maxWidth {
        result, e := TruncateEllipsis(t, maxWidth, ellipsis, pad);
      } else if PrintableAscii(t) {
        AsciiWidth(t);
        if |t| <= maxWidth {
          result := t + Padding(pad, maxWidth - |t|);
        } else {
          n := maxWidth - ellipsisWidth;
          AsciiFit(t, n);
          var targetWidth := maxWidth - ellipsisWidth;
          result := FinalizeTruncatedResult(t[..targetWidth], targetWidth, ellipsis, ellipsisWidth, maxWidth, pad);
        }
      } else {
        var prefix, keptWidth, visibleSoFar, overflowed := ScanText(t, maxWidth, maxWidth - ellipsisWidth);
        if !overflowed {
          result := t + Padding(pad, maxWidth - visibleSoFar);
        } else {
          n := |prefix|;
          result := FinalizeTruncatedResult(prefix, keptWidth, ellipsis, ellipsisWidth, maxWidth, pad);
        }
      }
    }
    assert Truncated(t, maxWidth, ellipsis, pad, result, n, e);
  }

  /** The ellipsis leaves no room for the text: what fits of it stands for the text. */
  method TruncateEllipsis(t: Text, maxWidth: nat, ellipsis: Text, pad: bool) returns (result: Text, ghost e: nat)
    requires maxWidth > 0 && VisibleWidth(ellipsis) >= maxWidth
    ensures Truncated(t, maxWidth, ellipsis, pad, result, 0, e)
  {
    hide LongestFit, VisibleWidth;
    e := 0;
    var textWidth := VisibleWidth(t);
    if textWidth <= maxWidth {
      return t + Padding(pad, maxWidth - textWidth), e;
    }
    var clipped, clippedWidth := TruncateFragmentToWidth(ellipsis, maxWidth);
    e := |clipped|;
    if clippedWidth == 0 {
      return Padding(pad, maxWidth), e;
    }
    result := FinalizeTruncatedResult([], 0, clipped, clippedWidth, maxWidth, pad);
  }

  lemma EmptyWidth()
    ensures VisibleWidth([]) == 0
  {
  }

  // ----- what truncation keeps -----

  lemma EndingWidth(ellipsis: Text)
    ensures VisibleWidth(Ending(ellipsis)) == VisibleWidth(ellipsis)
  {
    OneItem(Plain, RESET);
    WidthConcat([RESET], ellipsis);
    WidthConcat([RESET] + ellipsis, [RESET]);
  }

  lemma PaddingWidth(pad: bool, n: int)
    ensures VisibleWidth(Padding(pad, n)) == if pad && n > 0 then n else 0
  {
    if pad && n > 0 { SpacesWidth(n); }
  }

  lemma PaddedWidth(a: Text, pad: bool, n: int)
    ensures VisibleWidth(a + Padding(pad, n)) == VisibleWidth(a) + if pad && n > 0 then n else 0
  {
    hide VisibleWidth, Padding;
    PaddingWidth(pad, n);
    WidthConcat(a, Padding(pad, n));
  }

  /** The result is never wider than allowed, and exactly as wide when padded. */
  lemma TruncationFits(t: Text, maxWidth: nat, ellipsis: Text, pad: bool, result: Text)
    requires IsTruncation(t, maxWidth, ellipsis, pad, result)
    ensures VisibleWidth(result) <= maxWidth
    ensures pad ==> VisibleWidth(result) == maxWidth
  {
    hide Truncated, VisibleWidth;
    var n, e :| Truncated(t, maxWidth, ellipsis, pad, result, n, e);
    TruncatedFits(t, maxWidth, ellipsis, pad, result, n, e);
  }

  lemma TruncatedFits(t: Text, maxWidth: nat, ellipsis: Text, pad: bool, result: Text, n: nat, e: nat)
    requires Truncated(t, maxWidth, ellipsis, pad, result, n, e)
    ensures VisibleWidth(result) <= maxWidth
    ensures pad ==> VisibleWidth(result) == maxWidth
  {
    hide VisibleWidth, Ending, Padding;
    EmptyWidth();
    if maxWidth > 0 {
      PaddedWidth(t, pad, maxWidth - VisibleWidth(t));
      PaddingWidth(pad, maxWidth);
      if VisibleWidth(t) > maxWidth && VisibleWidth(ellipsis) < maxWidth {
        EndingWidth(ellipsis);
        WidthConcat(t[..n], Ending(ellipsis));
        PaddedWidth(t[..n] + Ending(ellipsis), pad, maxWidth - (VisibleWidth(t[..n]) + VisibleWidth(ellipsis)));
      } else if VisibleWidth(t) > maxWidth {
        EndingWidth(ellipsis[..e]);
        PaddedWidth(Ending(ellipsis[..e]), pad, maxWidth - VisibleWidth(ellipsis[..e]));
      }
    }
  }

  /** Without padding, truncating again changes nothing. */
  lemma TruncationIsIdempotent(t: Text, maxWidth: int, ellipsis: Text, result: Text, again: Text)
    requires IsTruncation(t, maxWidth, ellipsis, false, result)
    requires IsTruncation(result, maxWidth, ellipsis, false, again)
    ensures again == result
  {
    if maxWidth > 0 { TruncationFits(t, maxWidth, ellipsis, false, result); }
    hide LongestFit, VisibleWidth;
    var n, e :| Truncated(result, maxWidth, ellipsis, false, again, n, e);
    if maxWidth <= 0 {
      var n2, e2 :| Truncated(t, maxWidth, ellipsis, false, result, n2, e2);
    }
  }

  /** Truncation is a function of the text: the prefix and the ellipsis that are kept are determined. */
  lemma TruncationIsDetermined(t: Text, maxWidth: int, ellipsis: Text, pad: bool, result: Text, other: Text)
    requires IsTruncation(t, maxWidth, ellipsis, pad, result)
    requires IsTruncation(t, maxWidth, ellipsis, pad, other)
    ensures result == other
  {
    hide VisibleWidth;
    var n, e :| Truncated(t, maxWidth, ellipsis, pad, result, n, e);
    var n2, e2 :| Truncated(t, maxWidth, ellipsis, pad, other, n2, e2);
    if maxWidth > 0 && VisibleWidth(t) > maxWidth {
      if VisibleWidth(ellipsis) < maxWidth {
        LongestFitIsUnique(t, maxWidth - VisibleWidth(ellipsis), n, n2);
      } else {
        LongestFitIsUnique(ellipsis, maxWidth, e, e2);
      }
    }
  }

  lemma EndingCells(s: Style, ellipsis: Text)
    ensures Cells(s, Ending(ellipsis)) == Cells(ResetSgr(s), ellipsis)
  {
    hide Cells, StyleAfter;
    OneItem(s, RESET);
    NoCells(ResetSgr(s));
    if ellipsis != [] {
      TextConcat(s, [RESET], ellipsis);
      OneItem(StyleAfter(s, [RESET] + ellipsis), RESET);
      TextConcat(s, [RESET] + ellipsis, [RESET]);
    }
  }

  /**
   * What is kept of the text is shown in its own style. The ellipsis is shown without attributes and
   * colors, but inside the hyperlink that was open: a reset does not close one.
   */
  lemma TruncationKeepsStyle(
      s: Style, t: Text, maxWidth: nat, ellipsis: Text, pad: bool, result: Text, n: nat, e: nat)
    requires Truncated(t, maxWidth, ellipsis, pad, result, n, e)
    requires maxWidth > 0 && VisibleWidth(t) > maxWidth && VisibleWidth(ellipsis) < maxWidth
    ensures Cells(s, t[..n]) <= Cells(s, t)
    ensures Cells(s, t[..n]) + Cells(Plain.(link := StyleAfter(s, t[..n]).link), ellipsis) <= Cells(s, result)
  {
    hide Cells, StyleAfter, VisibleWidth, Ending, Padding;
    TextConcat(s, t[..n], t[n..]);
    assert t[..n] + t[n..] == t;
    EndingCells(StyleAfter(s, t[..n]), ellipsis);
    TextConcat(s, t[..n], Ending(ellipsis));
    TextConcat(s, t[..n] + Ending(ellipsis),
      Padding(pad, maxWidth - (VisibleWidth(t[..n]) + VisibleWidth(ellipsis))));
  }

  lemma SpacesKeepStyle(s: Style, pad: bool, n: int)
    ensures StyleAfter(s, Padding(pad, n)) == s
  {
    NoCodesKeepStyle(s, Padding(pad, n));
  }

  lemma {:induction false} NoCodesKeepStyle(s: Style, t: Text)
    requires forall i :: 0 <= i < |t| ==> t[i].G?
    ensures StyleAfter(s, t) == s
  {
    if t != [] { NoCodesKeepStyle(s, t[..|t| - 1]); }
  }

  /** After the ellipsis there are no attributes and no colors; the hyperlink is the ellipsis's own, or else
      the one that was open before it. */
  lemma EndingStyle(s: Style, ellipsis: Text)
    ensures StyleAfter(s, Ending(ellipsis)) == ResetSgr(StyleAfter(ResetSgr(s), ellipsis))
  {
    hide Cells, StyleAfter;
    OneItem(s, RESET);
    NoCodesKeepStyle(ResetSgr(s), []);
    if ellipsis != [] {
      TextConcat(s, [RESET], ellipsis);
      OneItem(StyleAfter(s, [RESET] + ellipsis), RESET);
      TextConcat(s, [RESET] + ellipsis, [RESET]);
    }
  }

  /** The style a truncated text leaves behind. */
  lemma TruncationLeaves(
      s: Style, t: Text, maxWidth: nat, ellipsis: Text, pad: bool, result: Text, n: nat, e: nat)
    requires Truncated(t, maxWidth, ellipsis, pad, result, n, e)
    requires maxWidth > 0 && VisibleWidth(t) > maxWidth && VisibleWidth(ellipsis) < maxWidth
    ensures StyleAfter(s, result) == ResetSgr(StyleAfter(ResetSgr(StyleAfter(s, t[..n])), ellipsis))
  {
    hide Cells, StyleAfter, VisibleWidth, Ending, Padding;
    var padding := maxWidth - (VisibleWidth(t[..n]) + VisibleWidth(ellipsis));
    TextConcat(s, t[..n], Ending(ellipsis));
    EndingStyle(StyleAfter(s, t[..n]), ellipsis);
    TextConcat(s, t[..n] + Ending(ellipsis), Padding(pad, padding));
    SpacesKeepStyle(StyleAfter(s, t[..n] + Ending(ellipsis)), pad, padding);
  }

  /**
   * With an ellipsis that has no codes, a truncated text ends plain if and only if no hyperlink is open
   * where it was cut; otherwise that hyperlink runs on into whatever comes next.
   */
  lemma TruncationEndsPlain(
      s: Style, t: Text, maxWidth: nat, ellipsis: Text, pad: bool, result: Text, n: nat, e: nat)
    requires Truncated(t, maxWidth, ellipsis, pad, result, n, e)
    requires maxWidth > 0 && VisibleWidth(t) > maxWidth && VisibleWidth(ellipsis) < maxWidth
    requires forall i :: 0 <= i < |ellipsis| ==> ellipsis[i].G?
    ensures StyleAfter(s, result) == Plain.(link := StyleAfter(s, t[..n]).link)
    ensures StyleAfter(s, result) == Plain <==> StyleAfter(s, t[..n]).link.None?
  {
    hide StyleAfter, VisibleWidth;
    TruncationLeaves(s, t, maxWidth, ellipsis, pad, result, n, e);
    NoCodesKeepStyle(ResetSgr(StyleAfter(s, t[..n])), ellipsis);
  }

  /** A text that closes its hyperlink loses the closing code to truncation, and the link stays open. */
  lemma TruncationLeavesLinkOpen(a: Grapheme, b: Grapheme, h: Hyperlink)
    requires a.width == 1 && b.width == 1 && h.url != ""
    ensures var t := [C(Link(h)), G(a), G(b), C(Link(h.(url := "")))];
      var result := [C(Link(h)), G(a), RESET];
      && StyleAfter(Plain, t) == Plain
      && (forall other :: IsTruncation(t, 1, [], false, other) <==> other == result)
      && StyleAfter(Plain, result) == Plain.(link := Some(h))
  {
    var open, close := C(Link(h)), C(Link(h.(url := "")));
    var t, result := [open, G(a), G(b), close], [open, G(a), RESET];
    LinkedText(open, close, a, b);
    assert t[..2] == [open, G(a)];
    assert Truncated(t, 1, [], false, result, 2, 0) by {
      assert t[..2] + Ending([]) + Padding(false, 1 - (VisibleWidth(t[..2]) + 0)) == result;
    }
    forall other | IsTruncation(t, 1, [], false, other) ensures other == result {
      TruncationIsDetermined(t, 1, [], false, other, result);
    }
    FirstThree(Plain, open, G(a), RESET);
    FirstThree(Plain, open, G(a), G(b));
    StyleAppend(Plain, t[..3], close);
    assert t[..3] == [open, G(a), G(b)] && t[..3] + [close] == t;
  }

  lemma StyleAppend(s: Style, t: Text, x: Item)
    ensures StyleAfter(s, t + [x]) == ApplyItem(StyleAfter(s, t), x)
  {
    assert (t + [x])[..|t|] == t;
  }

  lemma FirstThree(s: Style, x: Item, y: Item, z: Item)
    ensures StyleAfter(s, [x, y, z]) == ApplyItem(ApplyItem(ApplyItem(s, x), y), z)
  {
    StyleAppend(s, [], x);
    StyleAppend(s, [x], y);
    StyleAppend(s, [x, y], z);
    assert [] + [x] == [x] && [x] + [y] == [x, y] && [x, y] + [z] == [x, y, z];
  }

  lemma LinkedText(open: Item, close: Item, a: Grapheme, b: Grapheme)
    requires open.C? && close.C? && a.width == 1 && b.width == 1
    ensures var t := [open, G(a), G(b), close];
      VisibleWidth([]) == 0 && VisibleWidth(t[..2]) == 1 && VisibleWidth(t) == 2 && LongestFit(t, 1, 2)
  {
    var t := [open, G(a), G(b), close];
    assert t[..0] == [] && t[..4] == t;
    EmptyWidth();
    PrefixWidth(t, 0);
    PrefixWidth(t, 1);
    PrefixWidth(t, 2);
    PrefixWidth(t, 3);
    hide VisibleWidth;
  }
}
