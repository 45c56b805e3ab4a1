/** Placing overlays on the screen and splicing their lines into the content (packages/tui/src/tui.ts). */
module Overlay {
  import opened Numbers
  import opened Strings
  import opened Style
  import opened StyledText
  import opened Truncation
  import opened Columns

  // ----- layout -----

  /** A number of cells or a percentage; a text that is neither falls back to the default. */
  datatype SizeValue = Number(n: int) | Percent(p: real) | Malformed

  datatype Side = Start | Middle | End

  /** The nine anchors: a side for the rows and one for the columns. */
  datatype Anchor = Anchor(vertical: Side, horizontal: Side)

  datatype Margin = Margin(top: int, right: int, bottom: int, left: int)

  datatype Options = Options(
    width: Option<SizeValue>, minWidth: Option<int>, maxHeight: Option<SizeValue>,
    anchor: Option<Anchor>, offsetX: Option<int>, offsetY: Option<int>,
    row: Option<SizeValue>, col: Option<SizeValue>, margin: Margin)

  datatype Layout = Layout(width: int, row: int, col: int, maxHeight: Option<int>)

  function ParseSizeValue(value: Option<SizeValue>, reference: int): Option<int> {
    match value
    case Some(Number(n)) => Some(n)
    case Some(Percent(p)) => Some((reference as real * p / 100.0).Floor)
    case _ => None
  }

  /** Where a box of `size` goes in the space between the margins; division rounds down. */
  function ResolveAnchor(side: Side, size: int, available: int, margin: int): int {
    match side
    case Start => margin
    case End => margin + available - size
    case Middle => margin + (available - size) / 2
  }

  function ResolvePosition(value: Option<SizeValue>, anchor: Side, size: int, available: int, margin: int): int {
    match value
    case Some(Number(n)) => n
    case Some(Percent(p)) => margin + (Max(0, available - size) as real * (p / 100.0)).Floor
    case Some(Malformed) => ResolveAnchor(Middle, size, available, margin)
    case None => ResolveAnchor(anchor, size, available, margin)
  }

  function Offset(offset: Option<int>): int { if offset.Some? then offset.value else 0 }

  function EffectiveHeight(maxHeight: Option<int>, overlayHeight: nat): int {
    if maxHeight.Some? then Min(overlayHeight, maxHeight.value) else overlayHeight
  }

  function ResolveOverlayLayout(o: Options, overlayHeight: nat, termWidth: int, termHeight: int): Layout {
    var top, right := Max(0, o.margin.top), Max(0, o.margin.right);
    var bottom, left := Max(0, o.margin.bottom), Max(0, o.margin.left);
    var availWidth, availHeight := Max(1, termWidth - left - right), Max(1, termHeight - top - bottom);
    var parsed := ParseSizeValue(o.width, termWidth);
    var wanted := if parsed.Some? then parsed.value else Min(80, availWidth);
    var atLeast := if o.minWidth.Some? then Max(wanted, o.minWidth.value) else wanted;
    var width := Max(1, Min(atLeast, availWidth));
    var parsedHeight := ParseSizeValue(o.maxHeight, termHeight);
    var maxHeight := if parsedHeight.Some? then Some(Max(1, Min(parsedHeight.value, availHeight))) else None;
    var height := EffectiveHeight(maxHeight, overlayHeight);
    var anchor := if o.anchor.Some? then o.anchor.value else Anchor(Middle, Middle);
    var row := ResolvePosition(o.row, anchor.vertical, height, availHeight, top) + Offset(o.offsetY);
    var col := ResolvePosition(o.col, anchor.horizontal, width, availWidth, left) + Offset(o.offsetX);
    Layout(
      width,
      Max(top, Min(row, termHeight - bottom - height)),
      Max(left, Min(col, termWidth - right - width)),
      maxHeight)
  }

  /** The width and the height limit do not depend on how many lines the overlay has. */
  lemma SizeIgnoresHeight(o: Options, h1: nat, h2: nat, termWidth: int, termHeight: int)
    ensures ResolveOverlayLayout(o, h1, termWidth, termHeight).width ==
      ResolveOverlayLayout(o, h2, termWidth, termHeight).width
    ensures ResolveOverlayLayout(o, h1, termWidth, termHeight).maxHeight
      == ResolveOverlayLayout(o, h2, termWidth, termHeight).maxHeight
  {
    hide ResolvePosition, ParseSizeValue;
  }

  /**
   * The columns of an overlay lie between the margins if and only if the margins leave a column, and
   * on the screen if and only if the left margin does. Its rows lie between the margins if and only if
   * they leave enough of them.
   */
  lemma LayoutFits(o: Options, overlayHeight: nat, termWidth: int, termHeight: int)
    ensures var l := ResolveOverlayLayout(o, overlayHeight, termWidth, termHeight);
      var top, right := Max(0, o.margin.top), Max(0, o.margin.right);
      var bottom, left := Max(0, o.margin.bottom), Max(0, o.margin.left);
      var height := EffectiveHeight(l.maxHeight, overlayHeight);
      && l.width >= 1 && l.col >= left >= 0 && l.row >= top >= 0
      && (l.col + l.width <= termWidth - right <==> termWidth - left - right >= 1)
      && (l.col + l.width <= termWidth <==> left < termWidth)
      && (l.row + height <= termHeight - bottom <==> top + height <= termHeight - bottom)
  {
    hide ResolvePosition, ParseSizeValue;
  }

  // ----- where the box is -----

  /** In the middle between `first` and `last`, rounded down. */
  predicate Centered(first: int, last: int, pos: int) { 0 <= (last - pos) - (pos - first) <= 1 }

  /** Where a box may begin that fits from `first` to `last`, before any offset: at a given cell, at a share of
      the way, at the side it is anchored to, or in the middle. */
  predicate BeginsAt(value: Option<SizeValue>, anchor: Option<Side>, first: int, last: int, pos: int) {
    match value
    case Some(Number(n)) => pos == n
    case Some(Percent(p)) => pos as real <= first as real + (last - first) as real * p / 100.0 < (pos + 1) as real
    case Some(Malformed) => Centered(first, last, pos)
    case None =>
      match anchor
      case Some(Start) => pos == first
      case Some(End) => pos == last
      case _ => Centered(first, last, pos)
  }

  function RowSide(o: Options): Option<Side> { if o.anchor.Some? then Some(o.anchor.value.vertical) else None }

  function ColSide(o: Options): Option<Side> { if o.anchor.Some? then Some(o.anchor.value.horizontal) else None }

  /** The box is moved by its offset, and stays from `first` to `last`. */
  ghost predicate IsPlaced(
      value: Option<SizeValue>, anchor: Option<Side>, offset: Option<int>, first: int, last: int, pos: int)
  {
    exists begin ::
      && BeginsAt(value, anchor, first, last, begin)
      && (offset.None? ==> pos == Max(first, Min(begin, last)))
      && (offset.Some? ==> pos == Max(first, Min(begin + offset.value, last)))
  }

  /** Where the overlay is, row and column: whatever fits between the margins is where the options say. */
  lemma LayoutPlaces(o: Options, overlayHeight: nat, termWidth: int, termHeight: int)
    ensures var l := ResolveOverlayLayout(o, overlayHeight, termWidth, termHeight);
      var top, bottom := Max(0, o.margin.top), Max(0, o.margin.bottom);
      var height := EffectiveHeight(l.maxHeight, overlayHeight);
      Max(1, height) <= termHeight - top - bottom ==>
        IsPlaced(o.row, RowSide(o), o.offsetY, top, termHeight - bottom - height, l.row)
    ensures var l := ResolveOverlayLayout(o, overlayHeight, termWidth, termHeight);
      var left, right := Max(0, o.margin.left), Max(0, o.margin.right);
      1 <= termWidth - left - right ==>
        IsPlaced(o.col, ColSide(o), o.offsetX, left, termWidth - right - l.width, l.col)
  {
    var l := ResolveOverlayLayout(o, overlayHeight, termWidth, termHeight);
    var top, bottom := Max(0, o.margin.top), Max(0, o.margin.bottom);
    var height := EffectiveHeight(l.maxHeight, overlayHeight);
    var left, right := Max(0, o.margin.left), Max(0, o.margin.right);
    hide ParseSizeValue, ResolvePosition, IsPlaced;
    if Max(1, height) <= termHeight - top - bottom {
      PositionPlaces(o.row, RowSide(o), o.offsetY, height, top, termHeight - bottom - height, l.row);
    }
    if 1 <= termWidth - left - right {
      PositionPlaces(o.col, ColSide(o), o.offsetX, l.width, left, termWidth - right - l.width, l.col);
    }
  }

  lemma PositionPlaces(
      value: Option<SizeValue>, anchor: Option<Side>, offset: Option<int>, size: int, first: int, last: int, pos: int)
    requires first <= last
    requires pos == Max(first, Min(
      ResolvePosition(value, if anchor.Some? then anchor.value else Middle, size, last + size - first, first)
        + Offset(offset), last))
    ensures IsPlaced(value, anchor, offset, first, last, pos)
  {
    var side := if anchor.Some? then anchor.value else Middle;
    var begin := ResolvePosition(value, side, size, last + size - first, first);
    assert BeginsAt(value, anchor, first, last, begin) by {
      if value.Some? && value.value.Percent? {
        var share := (last - first) as real * (value.value.p / 100.0);
        assert share == (last - first) as real * value.value.p / 100.0;
        assert begin == first + share.Floor;
      }
    }
  }

  /** The beginning is the only one there is, so the place is determined. */
  lemma BeginsOnce(value: Option<SizeValue>, anchor: Option<Side>, first: int, last: int, a: int, b: int)
    requires BeginsAt(value, anchor, first, last, a) && BeginsAt(value, anchor, first, last, b)
    ensures a == b
  {
  }

  /** A box that fits and has no offset: anchors and 0% and 100% touch the margins, the middle leaves gaps that
      differ by at most one, and a cell between the margins is used as given. */
  lemma AnchorsTouch(o: Options, overlayHeight: nat, termWidth: int, termHeight: int)
    requires var l := ResolveOverlayLayout(o, overlayHeight, termWidth, termHeight);
      var top, bottom := Max(0, o.margin.top), Max(0, o.margin.bottom);
      Max(1, EffectiveHeight(l.maxHeight, overlayHeight)) <= termHeight - top - bottom
    requires 1 <= termWidth - Max(0, o.margin.left) - Max(0, o.margin.right)
    ensures var l := ResolveOverlayLayout(o, overlayHeight, termWidth, termHeight);
      var top, bottom := Max(0, o.margin.top), Max(0, o.margin.bottom);
      var height := EffectiveHeight(l.maxHeight, overlayHeight);
      o.offsetY.None? ==>
        && (o.row == Some(Percent(0.0)) || (o.row.None? && RowSide(o) == Some(Start)) ==> l.row == top)
        && (o.row == Some(Percent(100.0)) || (o.row.None? && RowSide(o) == Some(End)) ==>
              l.row + height == termHeight - bottom)
        && (o.row.None? && (RowSide(o).None? || RowSide(o) == Some(Middle)) ==>
              0 <= (termHeight - bottom - l.row - height) - (l.row - top) <= 1)
        && (forall n :: o.row == Some(Number(n)) && top <= n <= termHeight - bottom - height ==> l.row == n)
    ensures var l := ResolveOverlayLayout(o, overlayHeight, termWidth, termHeight);
      var left, right := Max(0, o.margin.left), Max(0, o.margin.right);
      o.offsetX.None? ==>
        && (o.col == Some(Percent(0.0)) || (o.col.None? && ColSide(o) == Some(Start)) ==> l.col == left)
        && (o.col == Some(Percent(100.0)) || (o.col.None? && ColSide(o) == Some(End)) ==>
              l.col + l.width == termWidth - right)
        && (o.col.None? && (ColSide(o).None? || ColSide(o) == Some(Middle)) ==>
              0 <= (termWidth - right - l.col - l.width) - (l.col - left) <= 1)
        && (forall n :: o.col == Some(Number(n)) && left <= n <= termWidth - right - l.width ==> l.col == n)
  {
    LayoutPlaces(o, overlayHeight, termWidth, termHeight);
    LayoutFits(o, overlayHeight, termWidth, termHeight);
    hide ResolveOverlayLayout;
  }

  /** The size of the box: what is asked for, as far as the margins leave room. */
  lemma LayoutSizes(o: Options, overlayHeight: nat, termWidth: int, termHeight: int)
    ensures var l := ResolveOverlayLayout(o, overlayHeight, termWidth, termHeight);
      var room := termWidth - Max(0, o.margin.left) - Max(0, o.margin.right);
      room >= 1 ==>
        && 1 <= l.width <= room
        && (o.minWidth.Some? ==> l.width >= Min(o.minWidth.value, room))
        && (o.minWidth.None? ==>
              match o.width
              case Some(Number(n)) => l.width == Max(1, Min(n, room))
              case Some(Percent(p)) =>
                1 < l.width < room ==> l.width as real <= termWidth as real * p / 100.0 < (l.width + 1) as real
              case _ => l.width == Min(80, room))
    ensures var l := ResolveOverlayLayout(o, overlayHeight, termWidth, termHeight);
      var room := termHeight - Max(0, o.margin.top) - Max(0, o.margin.bottom);
      room >= 1 ==>
        match o.maxHeight
        case Some(Number(n)) => l.maxHeight == Some(Max(1, Min(n, room)))
        case Some(Percent(p)) =>
          && l.maxHeight.Some? && 1 <= l.maxHeight.value <= room
          && (1 < l.maxHeight.value < room ==>
                l.maxHeight.value as real <= termHeight as real * p / 100.0 < (l.maxHeight.value + 1) as real)
        case _ => l.maxHeight == None
  {
    hide ResolvePosition;
  }

  // ----- one line -----

  const SEGMENT_RESET := [RESET, C(Link(Hyperlink("", "", true)))]

  /** After a segment reset nothing of the style before it is left. */
  lemma ResetClears(s: Style)
    ensures StyleAfter(s, SEGMENT_RESET) == Plain && Cells(s, SEGMENT_RESET) == [] && VisibleWidth(SEGMENT_RESET) == 0
  {
    var close := C(Link(Hyperlink("", "", true)));
    assert SEGMENT_RESET == [RESET] + [close];
    TextConcat(s, [RESET], [close]);
    OneItem(s, RESET);
    OneItem(ResetSgr(s), close);
  }

  /** How a composited line was cut: the segments of the base line, and the overlay's part. */
  datatype Cut = Cut(before: Text, shown: Text, after: Text, b: nat, a: nat, c: nat, k: nat, e: nat)

  function Gap(n: int): Text { if n > 0 then Spaces(n) else [] }

  ghost predicate CutFrom(base: Text, overlay: Text, startCol: nat, overlayWidth: nat, totalWidth: nat, cut: Cut) {
    && Segmented(base, startCol, startCol + overlayWidth, totalWidth, true, cut.before, cut.after, cut.b, cut.a, cut.c)
    && if overlayWidth == 0 then cut.shown == [] else Sliced(overlay, 0, overlayWidth, true, cut.shown, cut.k, cut.e)
  }

  function OverlayPart(cut: Cut, overlayWidth: nat): Text {
    SEGMENT_RESET + cut.shown + Gap(overlayWidth - VisibleWidth(cut.shown)) + SEGMENT_RESET
  }

  /** The segments side by side, each filled up with spaces to the columns it has. */
  function FullLine(cut: Cut, startCol: nat, overlayWidth: nat, totalWidth: nat): Text {
    cut.before + Gap(startCol - VisibleWidth(cut.before))
    + OverlayPart(cut, overlayWidth)
    + cut.after + Gap(Max(0, totalWidth - startCol - overlayWidth) - VisibleWidth(cut.after))
  }

  ghost predicate Composited(
      base: Text, overlay: Text, startCol: nat, overlayWidth: nat, totalWidth: nat, result: Text, cut: Cut)
  {
    && CutFrom(base, overlay, startCol, overlayWidth, totalWidth, cut)
    && var full := FullLine(cut, startCol, overlayWidth, totalWidth);
       if VisibleWidth(full) <= totalWidth then result == full
       else if totalWidth == 0 then result == []
       else exists k, e :: Sliced(full, 0, totalWidth, true, result, k, e)
  }

  ghost predicate IsComposite(
      base: Text, overlay: Text, startCol: nat, overlayWidth: nat, totalWidth: nat, result: Text)
  {
    exists cut :: Composited(base, overlay, startCol, overlayWidth, totalWidth, result, cut)
  }

  lemma GapWidth(t: Text, n: int)
    ensures VisibleWidth(t + Gap(n)) == VisibleWidth(t) + Max(0, n)
  {
    EmptyWidth();
    if n > 0 { SpacesWidth(n); }
    WidthConcat(t, Gap(n));
  }

  lemma CutFits(base: Text, overlay: Text, startCol: nat, overlayWidth: nat, totalWidth: nat, cut: Cut)
    requires CutFrom(base, overlay, startCol, overlayWidth, totalWidth, cut)
    ensures VisibleWidth(cut.before) <= startCol && VisibleWidth(cut.shown) <= overlayWidth
    ensures VisibleWidth(cut.after) <= Max(0, totalWidth - startCol - overlayWidth)
  {
    hide Segmented, Sliced, VisibleWidth;
    EmptyWidth();
    SegmentsFit(base, startCol, startCol + overlayWidth, totalWidth, cut.before, cut.after, cut.b, cut.a, cut.c);
    if overlayWidth > 0 { SlicesFit(overlay, 0, overlayWidth, cut.shown, cut.k, cut.e); }
  }

  lemma OverlayPartWidth(cut: Cut, overlayWidth: nat)
    requires VisibleWidth(cut.shown) <= overlayWidth
    ensures VisibleWidth(OverlayPart(cut, overlayWidth)) == overlayWidth
  {
    hide VisibleWidth, Gap;
    ResetClears(Plain);
    WidthConcat(SEGMENT_RESET, cut.shown);
    GapWidth(SEGMENT_RESET + cut.shown, overlayWidth - VisibleWidth(cut.shown));
    WidthConcat(SEGMENT_RESET + cut.shown + Gap(overlayWidth - VisibleWidth(cut.shown)), SEGMENT_RESET);
  }

  /** The full line is exactly as wide as the screen, unless the overlay sticks out. */
  lemma FullLineWidth(base: Text, overlay: Text, startCol: nat, overlayWidth: nat, totalWidth: nat, cut: Cut)
    requires CutFrom(base, overlay, startCol, overlayWidth, totalWidth, cut)
    ensures VisibleWidth(FullLine(cut, startCol, overlayWidth, totalWidth)) == Max(totalWidth, startCol + overlayWidth)
  {
    hide VisibleWidth, Gap, CutFrom, OverlayPart;
    CutFits(base, overlay, startCol, overlayWidth, totalWidth, cut);
    var left := cut.before + Gap(startCol - VisibleWidth(cut.before));
    GapWidth(cut.before, startCol - VisibleWidth(cut.before));
    OverlayPartWidth(cut, overlayWidth);
    WidthConcat(left, OverlayPart(cut, overlayWidth));
    WidthConcat(left + OverlayPart(cut, overlayWidth), cut.after);
    GapWidth(left + OverlayPart(cut, overlayWidth) + cut.after,
      Max(0, totalWidth - startCol - overlayWidth) - VisibleWidth(cut.after));
  }

  /** A composited line never gets wider than the screen; one whose overlay fits is exactly as wide, uncut. */
  lemma CompositeWidth(
      base: Text, overlay: Text, startCol: nat, overlayWidth: nat, totalWidth: nat, result: Text, cut: Cut)
    requires Composited(base, overlay, startCol, overlayWidth, totalWidth, result, cut)
    ensures VisibleWidth(result) <= totalWidth
    ensures startCol + overlayWidth <= totalWidth ==>
      VisibleWidth(result) == totalWidth && result == FullLine(cut, startCol, overlayWidth, totalWidth)
  {
    hide VisibleWidth, CutFrom, FullLine, Sliced;
    EmptyWidth();
    FullLineWidth(base, overlay, startCol, overlayWidth, totalWidth, cut);
    var full := FullLine(cut, startCol, overlayWidth, totalWidth);
    if VisibleWidth(full) > totalWidth && totalWidth > 0 {
      var k, e :| Sliced(full, 0, totalWidth, true, result, k, e);
      SlicesFit(full, 0, totalWidth, result, k, e);
    }
  }

  lemma OverlayPartShows(s: Style, cut: Cut, overlayWidth: nat)
    ensures StyleAfter(s, OverlayPart(cut, overlayWidth)) == Plain
    ensures Cells(s, OverlayPart(cut, overlayWidth)) ==
      Cells(Plain, cut.shown) + Cells(StyleAfter(Plain, cut.shown), Gap(overlayWidth - VisibleWidth(cut.shown)))
  {
    hide VisibleWidth, Gap, Cells, StyleAfter;
    var gap := Gap(overlayWidth - VisibleWidth(cut.shown));
    ResetClears(s);
    TextConcat(s, SEGMENT_RESET, cut.shown);
    TextConcat(s, SEGMENT_RESET + cut.shown, gap);
    ResetClears(StyleAfter(s, SEGMENT_RESET + cut.shown + gap));
    TextConcat(s, SEGMENT_RESET + cut.shown + gap, SEGMENT_RESET);
  }

  /**
   * What a composited line shows: the base line up to the overlay, the overlay from a plain style, and
   * the base line after it in the style it has there; an overlay that sticks out is cut at the edge.
   */
  lemma CompositeShows(
      base: Text, overlay: Text, startCol: nat, overlayWidth: nat, totalWidth: nat, result: Text, cut: Cut)
    requires Composited(base, overlay, startCol, overlayWidth, totalWidth, result, cut)
    ensures cut.b <= |base| && cut.before == base[..cut.b]
    ensures cut.after != [] ==> cut.a < cut.c <= |base|
    ensures Cells(Plain, result) <= FullCells(base, startCol, overlayWidth, totalWidth, cut)
    ensures startCol + overlayWidth <= totalWidth ==>
      Cells(Plain, result) == FullCells(base, startCol, overlayWidth, totalWidth, cut)
  {
    hide VisibleWidth, Cells, StyleAfter, FullCells, FullLine, CutFrom, Sliced;
    CutOf(base, overlay, startCol, overlayWidth, totalWidth, result, cut);
    SegmentsAre(base, overlay, startCol, overlayWidth, totalWidth, cut);
    FullLineShows(base, overlay, startCol, overlayWidth, totalWidth, cut);
    CompositeWidth(base, overlay, startCol, overlayWidth, totalWidth, result, cut);
    var full := FullLine(cut, startCol, overlayWidth, totalWidth);
    NoCells(Plain);
    if VisibleWidth(full) > totalWidth && totalWidth > 0 {
      var k, e :| Sliced(full, 0, totalWidth, true, result, k, e);
      SlicePrefixShows(full, totalWidth, result, k, e);
    }
  }

  lemma SlicePrefixShows(full: Text, end: nat, result: Text, k: nat, e: nat)
    requires Sliced(full, 0, end, true, result, k, e)
    ensures Cells(Plain, result) <= Cells(Plain, full)
  {
    hide Cells, StyleAfter, VisibleWidth, Splice, CodesOf;
    SliceFromStart(full, end, true, result, k, e);
    assert full[..e] + full[e..] == full;
    TextConcat(Plain, full[..e], full[e..]);
  }

  /** What the segments show side by side, each with the gap after it. */
  ghost function FullCells(base: Text, startCol: nat, overlayWidth: nat, totalWidth: nat, cut: Cut): seq<Cell>
    requires cut.b <= |base| && (cut.after != [] ==> cut.a < cut.c <= |base|)
  {
    Cells(Plain, base[..cut.b]) + Cells(StyleAfter(Plain, cut.before), Gap(startCol - VisibleWidth(cut.before)))
    + (Cells(Plain, cut.shown) + Cells(StyleAfter(Plain, cut.shown), Gap(overlayWidth - VisibleWidth(cut.shown))))
    + (if cut.after == [] then [] else Cells(StyleAfter(Plain, base[..cut.a]), base[cut.a..cut.c]))
    + Cells(StyleAfter(Plain, cut.after), Gap(Max(0, totalWidth - startCol - overlayWidth) - VisibleWidth(cut.after)))
  }

  lemma FullLineShows(base: Text, overlay: Text, startCol: nat, overlayWidth: nat, totalWidth: nat, cut: Cut)
    requires CutFrom(base, overlay, startCol, overlayWidth, totalWidth, cut)
    ensures cut.b <= |base| && (cut.after != [] ==> cut.a < cut.c <= |base|)
    ensures Cells(Plain, FullLine(cut, startCol, overlayWidth, totalWidth)) ==
      FullCells(base, startCol, overlayWidth, totalWidth, cut)
  {
    hide VisibleWidth, Gap, Cells, StyleAfter, CutFrom, OverlayPart;
    SegmentsAre(base, overlay, startCol, overlayWidth, totalWidth, cut);
    var gap := Gap(startCol - VisibleWidth(cut.before));
    var last := Gap(Max(0, totalWidth - startCol - overlayWidth) - VisibleWidth(cut.after));
    OverlayPartShows(StyleAfter(Plain, cut.before + gap), cut, overlayWidth);
    FiveParts(cut.before, gap, OverlayPart(cut, overlayWidth), cut.after, last);
    NoCells(Plain);
  }

  lemma CutOf(
      base: Text, overlay: Text, startCol: nat, overlayWidth: nat, totalWidth: nat, result: Text, cut: Cut)
    requires Composited(base, overlay, startCol, overlayWidth, totalWidth, result, cut)
    ensures CutFrom(base, overlay, startCol, overlayWidth, totalWidth, cut)
  {
  }

  lemma FiveParts(before: Text, gap: Text, middle: Text, after: Text, last: Text)
    requires StyleAfter(StyleAfter(Plain, before + gap), middle) == Plain
    ensures Cells(Plain, before + gap + middle + after + last) ==
      Cells(Plain, before) + Cells(StyleAfter(Plain, before), gap)
      + Cells(StyleAfter(Plain, before + gap), middle)
      + Cells(Plain, after) + Cells(StyleAfter(Plain, after), last)
  {
    hide Cells, StyleAfter;
    TextConcat(Plain, before, gap);
    TextConcat(Plain, before + gap, middle);
    TextConcat(Plain, before + gap + middle, after);
    TextConcat(Plain, before + gap + middle + after, last);
  }

  lemma SegmentsAre(base: Text, overlay: Text, startCol: nat, overlayWidth: nat, totalWidth: nat, cut: Cut)
    requires CutFrom(base, overlay, startCol, overlayWidth, totalWidth, cut)
    ensures cut.b <= |base| && cut.before == base[..cut.b]
    ensures cut.after != [] ==>
      cut.a < cut.c <= |base| && Cells(Plain, cut.after) == Cells(StyleAfter(Plain, base[..cut.a]), base[cut.a..cut.c])
  {
    hide Cells, StyleAfter;
    SegmentsKeepStyle(base, startCol, startCol + overlayWidth, totalWidth, true,
      cut.before, cut.after, cut.b, cut.a, cut.c);
  }

  method CompositeLineAt(base: Text, overlay: Text, startCol: nat, overlayWidth: nat, totalWidth: nat)
    returns (result: Text)
    ensures IsComposite(base, overlay, startCol, overlayWidth, totalWidth, result)
  {
    hide Segmented, Sliced, VisibleWidth, Gap;
    var afterStart := startCol + overlayWidth;
    var before, beforeWidth, after, afterWidth;
    ghost var b, a, c, k, e;
    before, beforeWidth, after, afterWidth, b, a, c :=
      ExtractSegments(base, startCol, afterStart, totalWidth - afterStart, true);
    var shown, shownWidth;
    shown, shownWidth, k, e := SliceWithWidth(overlay, 0, overlayWidth, true);
    ghost var cut := Cut(before, shown, after, b, a, c, k, e);
    assert CutFrom(base, overlay, startCol, overlayWidth, totalWidth, cut);
    CutFits(base, overlay, startCol, overlayWidth, totalWidth, cut);
    var beforePad, overlayPad := startCol - beforeWidth, overlayWidth - shownWidth;
    var actualBeforeWidth, actualOverlayWidth := Max(startCol, beforeWidth), Max(overlayWidth, shownWidth);
    var afterTarget := Max(0, totalWidth - actualBeforeWidth - actualOverlayWidth);
    var afterPad := afterTarget - afterWidth;
    result := before + Gap(beforePad) + (SEGMENT_RESET + shown + Gap(overlayPad) + SEGMENT_RESET) + after
      + Gap(afterPad);
    assert result == FullLine(cut, startCol, overlayWidth, totalWidth);
    if VisibleWidth(result) > totalWidth {
      var width;
      ghost var k2, e2;
      result, width, k2, e2 := SliceWithWidth(result, 0, totalWidth, true);
    }
    assert Composited(base, overlay, startCol, overlayWidth, totalWidth, result, cut);
  }

  // ----- all overlays -----

  /** An overlay on the stack; `render` stands for the component, which is asked for lines of a width. */
  datatype Entry = Entry(options: Options, visible: bool, focusOrder: nat, render: int -> seq<Text>)

  function VisibleOf(stack: seq<Entry>): (visible: seq<Entry>)
    ensures forall e :: e in visible <==> e in stack && e.visible
    ensures forall e: Entry :: e.visible ==> multiset(visible)[e] == multiset(stack)[e]
  {
    if |stack| == 0 then []
    else
      assert stack == [stack[0]] + stack[1..];
      (if stack[0].visible then [stack[0]] else []) + VisibleOf(stack[1..])
  }

  /** Puts an entry after those that got the focus no later. */
  function InsertByFocus(sorted: seq<Entry>, e: Entry): seq<Entry> {
    if |sorted| == 0 || sorted[|sorted| - 1].focusOrder <= e.focusOrder then sorted + [e]
    else InsertByFocus(sorted[..|sorted| - 1], e) + [sorted[|sorted| - 1]]
  }

  /** The last to get the focus comes last, and so on top. */
  function SortByFocus(entries: seq<Entry>): seq<Entry> {
    if |entries| == 0 then []
    else InsertByFocus(SortByFocus(entries[..|entries| - 1]), entries[|entries| - 1])
  }

  ghost predicate InFocusOrder(entries: seq<Entry>) {
    forall i, j :: 0 <= i < j < |entries| ==> entries[i].focusOrder <= entries[j].focusOrder
  }

  lemma {:induction false} InsertAdds(sorted: seq<Entry>, e: Entry)
    ensures multiset(InsertByFocus(sorted, e)) == multiset(sorted) + multiset{e}
    decreases |sorted|
  {
    if |sorted| > 0 && sorted[|sorted| - 1].focusOrder > e.focusOrder {
      var front, last := sorted[..|sorted| - 1], sorted[|sorted| - 1];
      InsertAdds(front, e);
      assert sorted == front + [last];
    }
  }

  ghost predicate AtMost(entries: seq<Entry>, focusOrder: nat) {
    forall i :: 0 <= i < |entries| ==> entries[i].focusOrder <= focusOrder
  }

  lemma {:induction false} InsertBelow(sorted: seq<Entry>, e: Entry, focusOrder: nat)
    requires AtMost(sorted, focusOrder) && e.focusOrder <= focusOrder
    ensures AtMost(InsertByFocus(sorted, e), focusOrder)
    decreases |sorted|
  {
    if |sorted| > 0 && sorted[|sorted| - 1].focusOrder > e.focusOrder {
      InsertBelow(sorted[..|sorted| - 1], e, focusOrder);
    }
  }

  lemma {:induction false} InsertKeepsOrder(sorted: seq<Entry>, e: Entry)
    requires InFocusOrder(sorted)
    ensures InFocusOrder(InsertByFocus(sorted, e))
    decreases |sorted|
  {
    if |sorted| > 0 && sorted[|sorted| - 1].focusOrder > e.focusOrder {
      var front, last := sorted[..|sorted| - 1], sorted[|sorted| - 1];
      InsertKeepsOrder(front, e);
      InsertBelow(front, e, last.focusOrder);
    }
  }

  /** The visible overlays, each once, in the order they got the focus. */
  lemma {:induction false} SortedByFocus(entries: seq<Entry>)
    ensures InFocusOrder(SortByFocus(entries))
    ensures multiset(SortByFocus(entries)) == multiset(entries)
  {
    if |entries| > 0 {
      var front, last := entries[..|entries| - 1], entries[|entries| - 1];
      SortedByFocus(front);
      InsertKeepsOrder(SortByFocus(front), last);
      InsertAdds(SortByFocus(front), last);
      assert entries == front + [last];
    }
  }

  /** The entries with one focus number, in their order. */
  function WithFocus(entries: seq<Entry>, focusOrder: nat): seq<Entry> {
    if |entries| == 0 then []
    else
      WithFocus(entries[..|entries| - 1], focusOrder)
      + (if entries[|entries| - 1].focusOrder == focusOrder then [entries[|entries| - 1]] else [])
  }

  /** Overlays with the same focus number stay in the order of the stack. */
  lemma {:induction false} SortIsStable(entries: seq<Entry>, focusOrder: nat)
    ensures WithFocus(SortByFocus(entries), focusOrder) == WithFocus(entries, focusOrder)
  {
    if |entries| > 0 {
      var front := entries[..|entries| - 1];
      SortIsStable(front, focusOrder);
      SortedByFocus(front);
      InsertIsStable(SortByFocus(front), entries[|entries| - 1], focusOrder);
    }
  }

  lemma {:induction false} InsertIsStable(sorted: seq<Entry>, e: Entry, focusOrder: nat)
    requires InFocusOrder(sorted)
    ensures WithFocus(InsertByFocus(sorted, e), focusOrder) ==
      WithFocus(sorted, focusOrder) + (if e.focusOrder == focusOrder then [e] else [])
    decreases |sorted|
  {
    if |sorted| > 0 && sorted[|sorted| - 1].focusOrder > e.focusOrder {
      var front, last := sorted[..|sorted| - 1], sorted[|sorted| - 1];
      InsertIsStable(front, e, focusOrder);
      var all := InsertByFocus(front, e) + [last];
      assert all[..|all| - 1] == InsertByFocus(front, e);
    } else {
      var all := sorted + [e];
      assert all[..|all| - 1] == sorted;
    }
  }

  datatype Placed = Placed(lines: seq<Text>, row: nat, col: nat, width: nat)

  /** The overlay's lines, cut to its height limit, and where they go. */
  function Place(entry: Entry, termWidth: nat, termHeight: nat): Placed {
    var size := ResolveOverlayLayout(entry.options, 0, termWidth, termHeight);
    LayoutFits(entry.options, 0, termWidth, termHeight);
    var rendered := entry.render(size.width);
    var lines := if size.maxHeight.Some? && |rendered| > size.maxHeight.value >= 0
      then rendered[..size.maxHeight.value] else rendered;
    var place := ResolveOverlayLayout(entry.options, |lines|, termWidth, termHeight);
    LayoutFits(entry.options, |lines|, termWidth, termHeight);
    Placed(lines, place.row, place.col, size.width)
  }

  /** An overlay is asked for lines of its width, shows the first of them up to its height limit, and is placed
      by the number of lines it shows. */
  lemma PlacedByItsLines(entry: Entry, termWidth: nat, termHeight: nat)
    ensures var p := Place(entry, termWidth, termHeight);
      var rendered := entry.render(p.width);
      var l := ResolveOverlayLayout(entry.options, |p.lines|, termWidth, termHeight);
      && p.width == l.width && p.row == l.row && p.col == l.col && EffectiveHeight(l.maxHeight, |p.lines|) == |p.lines|
      && p.lines <= rendered
      && (l.maxHeight.None? ==> p.lines == rendered)
      && (l.maxHeight.Some? ==> |p.lines| == Min(l.maxHeight.value, |rendered|))
  {
    hide ResolvePosition, ParseSizeValue, ResolveOverlayLayout;
    var o, n := entry.options, |Place(entry, termWidth, termHeight).lines|;
    SizeIgnoresHeight(o, 0, n, termWidth, termHeight);
    LimitIsPositive(o, 0, termWidth, termHeight);
  }

  lemma LimitIsPositive(o: Options, overlayHeight: nat, termWidth: int, termHeight: int)
    ensures var l := ResolveOverlayLayout(o, overlayHeight, termWidth, termHeight);
      l.maxHeight.Some? ==> l.maxHeight.value >= 1
  {
    hide ResolvePosition, ParseSizeValue;
  }

  function PlaceAll(entries: seq<Entry>, termWidth: nat, termHeight: nat): (placed: seq<Placed>)
    ensures |placed| == |entries|
    ensures forall i :: 0 <= i < |entries| ==> placed[i] == Place(entries[i], termWidth, termHeight)
  {
    seq(|entries|, i requires 0 <= i < |entries| => Place(entries[i], termWidth, termHeight))
  }

  /** The rows that the content and the overlays take. */
  function LinesNeeded(n: nat, placed: seq<Placed>): nat {
    if placed == [] then n
    else
      var last := placed[|placed| - 1];
      Max(LinesNeeded(n, placed[..|placed| - 1]), last.row + |last.lines|)
  }

  /** The last row that the content or an overlay takes, and no further. */
  lemma {:induction false} LinesNeededIsLeast(n: nat, placed: seq<Placed>)
    ensures n <= LinesNeeded(n, placed)
    ensures forall i :: 0 <= i < |placed| ==> placed[i].row + |placed[i].lines| <= LinesNeeded(n, placed)
    ensures LinesNeeded(n, placed) == n ||
      exists i :: 0 <= i < |placed| && LinesNeeded(n, placed) == placed[i].row + |placed[i].lines|
    decreases |placed|
  {
    if placed != [] {
      var m := |placed| - 1;
      LinesNeededIsLeast(n, placed[..m]);
      assert forall i :: 0 <= i < m ==> placed[..m][i] == placed[i];
      assert placed[m] in placed;
    }
  }

  function LineAt(lines: seq<Text>, idx: nat): Text { if idx < |lines| then lines[idx] else [] }

  predicate Covers(p: Placed, start: nat, idx: nat) { start + p.row <= idx < start + p.row + |p.lines| }

  /** An overlay line that is too wide is cut to the overlay's width. */
  ghost predicate Clipped(line: Text, width: nat, clipped: Text) {
    if VisibleWidth(line) <= width then clipped == line
    else if width == 0 then clipped == []
    else exists k, e :: Sliced(line, 0, width, true, clipped, k, e)
  }

  ghost predicate Spliced(base: Text, line: Text, p: Placed, totalWidth: nat, result: Text) {
    exists clipped :: Clipped(line, p.width, clipped) && IsComposite(base, clipped, p.col, p.width, totalWidth, result)
  }

  /** Line `idx` is the base line with the overlays that cover it spliced in, from the lowest to the topmost. */
  ghost predicate Stacked(base: Text, placed: seq<Placed>, start: nat, idx: nat, totalWidth: nat, result: Text)
    decreases |placed|
  {
    if placed == [] then result == base
    else
      var rest, top := placed[..|placed| - 1], placed[|placed| - 1];
      if Covers(top, start, idx) then
        exists below ::
          Stacked(base, rest, start, idx, totalWidth, below)
          && Spliced(below, top.lines[idx - start - top.row], top, totalWidth, result)
      else Stacked(base, rest, start, idx, totalWidth, result)
  }

  /** Line `i` of the topmost overlay is spliced in `row + i` rows below the top of the screen, on top of what the
      others show there, and the overlay changes no other row. */
  lemma OverlayRows(
      base: Text, rest: seq<Placed>, p: Placed, start: nat, idx: nat, totalWidth: nat, result: Text)
    requires Stacked(base, rest + [p], start, idx, totalWidth, result)
    ensures forall i :: 0 <= i < |p.lines| && idx == start + p.row + i ==>
      exists below ::
        Stacked(base, rest, start, idx, totalWidth, below) && Spliced(below, p.lines[i], p, totalWidth, result)
    ensures idx < start + p.row || idx >= start + p.row + |p.lines| ==>
      Stacked(base, rest, start, idx, totalWidth, result)
  {
    hide Spliced;
    assert (rest + [p])[..|rest|] == rest;
  }

  /** The topmost overlay that covers a line. */
  function Topmost(placed: seq<Placed>, start: nat, idx: nat): (top: Option<Placed>)
    ensures top.Some? ==> top.value in placed && Covers(top.value, start, idx)
    ensures top.None? ==> forall i :: 0 <= i < |placed| ==> !Covers(placed[i], start, idx)
  {
    if placed == [] then None
    else if Covers(placed[|placed| - 1], start, idx) then Some(placed[|placed| - 1])
    else Topmost(placed[..|placed| - 1], start, idx)
  }

  /** Lines no overlay covers are untouched; a covered line is at most as wide as the screen, and exactly
      as wide if the topmost overlay on it fits. */
  lemma {:induction false} StackedWidth(
      base: Text, placed: seq<Placed>, start: nat, idx: nat, totalWidth: nat, result: Text)
    requires Stacked(base, placed, start, idx, totalWidth, result)
    ensures Topmost(placed, start, idx).None? ==> result == base
    ensures Topmost(placed, start, idx).Some? ==> VisibleWidth(result) <= totalWidth
    ensures var top := Topmost(placed, start, idx);
      top.Some? && top.value.col + top.value.width <= totalWidth ==> VisibleWidth(result) == totalWidth
    decreases |placed|
  {
    hide Spliced, Composited, VisibleWidth, Covers;
    if placed != [] {
      var rest, top := placed[..|placed| - 1], placed[|placed| - 1];
      if Covers(top, start, idx) {
        TopStacked(base, rest, top, start, idx, totalWidth, result);
      } else {
        StackedWidth(base, rest, start, idx, totalWidth, result);
      }
    }
  }

  lemma TopStacked(
      base: Text, rest: seq<Placed>, top: Placed, start: nat, idx: nat, totalWidth: nat, result: Text)
    requires Covers(top, start, idx)
    requires exists below ::
      Stacked(base, rest, start, idx, totalWidth, below)
      && Spliced(below, top.lines[idx - start - top.row], top, totalWidth, result)
    ensures VisibleWidth(result) <= totalWidth
    ensures top.col + top.width <= totalWidth ==> VisibleWidth(result) == totalWidth
  {
    hide Spliced, Stacked, VisibleWidth;
    var below :|
      Stacked(base, rest, start, idx, totalWidth, below)
      && Spliced(below, top.lines[idx - start - top.row], top, totalWidth, result);
    SplicedWidth(below, top.lines[idx - start - top.row], top, totalWidth, result);
  }

  lemma SplicedWidth(base: Text, line: Text, p: Placed, totalWidth: nat, result: Text)
    requires Spliced(base, line, p, totalWidth, result)
    ensures VisibleWidth(result) <= totalWidth
    ensures p.col + p.width <= totalWidth ==> VisibleWidth(result) == totalWidth
  {
    hide Clipped, Composited, VisibleWidth;
    var clipped :| Clipped(line, p.width, clipped) && IsComposite(base, clipped, p.col, p.width, totalWidth, result);
    var cut :| Composited(base, clipped, p.col, p.width, totalWidth, result, cut);
    CompositeWidth(base, clipped, p.col, p.width, totalWidth, result, cut);
  }

  method SpliceLine(base: Text, line: Text, p: Placed, totalWidth: nat) returns (result: Text)
    ensures Spliced(base, line, p, totalWidth, result)
  {
    hide Sliced, IsComposite, VisibleWidth;
    var clipped := line;
    if VisibleWidth(line) > p.width {
      var width;
      ghost var k, e;
      clipped, width, k, e := SliceWithWidth(line, 0, p.width, true);
    }
    assert Clipped(line, p.width, clipped);
    result := CompositeLineAt(base, clipped, p.col, p.width, totalWidth);
  }

  /** Splices one overlay into the lines it covers, in place. */
  method CompositeOverlay(
      result: array<Text>, p: Placed, start: nat, totalWidth: nat, ghost lines: seq<Text>, ghost placed: seq<Placed>)
    requires forall idx :: 0 <= idx < result.Length ==>
      Stacked(LineAt(lines, idx), placed, start, idx, totalWidth, result[idx])
    modifies result
    ensures forall idx :: 0 <= idx < result.Length ==>
      Stacked(LineAt(lines, idx), placed + [p], start, idx, totalWidth, result[idx])
  {
    hide Spliced, Stacked, LineAt;
    var i := 0;
    while i < |p.lines|
      invariant i <= |p.lines|
      invariant forall idx :: 0 <= idx < result.Length ==>
        if start + p.row <= idx < start + p.row + i
        then Stacked(LineAt(lines, idx), placed + [p], start, idx, totalWidth, result[idx])
        else Stacked(LineAt(lines, idx), placed, start, idx, totalWidth, result[idx])
    {
      var idx := start + p.row + i;
      if idx < result.Length {
        ghost var below := result[idx];
        result[idx] := SpliceLine(result[idx], p.lines[i], p, totalWidth);
        StackedCovered(LineAt(lines, idx), placed, p, start, idx, totalWidth, below, result[idx]);
      }
      i := i + 1;
    }
    forall idx | 0 <= idx < result.Length
      ensures Stacked(LineAt(lines, idx), placed + [p], start, idx, totalWidth, result[idx])
    {
      if !Covers(p, start, idx) {
        StackedUncovered(LineAt(lines, idx), placed, p, start, idx, totalWidth, result[idx]);
      }
    }
  }

  lemma StackedCovered(
      base: Text, placed: seq<Placed>, p: Placed, start: nat, idx: nat, totalWidth: nat, below: Text, result: Text)
    requires Stacked(base, placed, start, idx, totalWidth, below) && Covers(p, start, idx)
    requires Spliced(below, p.lines[idx - start - p.row], p, totalWidth, result)
    ensures Stacked(base, placed + [p], start, idx, totalWidth, result)
  {
    hide Spliced;
    assert (placed + [p])[..|placed|] == placed;
  }

  lemma StackedUncovered(
      base: Text, placed: seq<Placed>, p: Placed, start: nat, idx: nat, totalWidth: nat, result: Text)
    requires Stacked(base, placed, start, idx, totalWidth, result) && !Covers(p, start, idx)
    ensures Stacked(base, placed + [p], start, idx, totalWidth, result)
  {
    hide Spliced;
    assert (placed + [p])[..|placed|] == placed;
  }

  method RenderOverlays(n: nat, entries: seq<Entry>, termWidth: nat, termHeight: nat)
    returns (rendered: seq<Placed>, minLinesNeeded: nat)
    ensures rendered == PlaceAll(entries, termWidth, termHeight)
    ensures minLinesNeeded == LinesNeeded(n, rendered) >= n
  {
    hide Place;
    rendered, minLinesNeeded := [], n;
    var i := 0;
    while i < |entries|
      invariant i <= |entries| && rendered == PlaceAll(entries, termWidth, termHeight)[..i]
      invariant minLinesNeeded == LinesNeeded(n, rendered) >= n
    {
      var p := Place(entries[i], termWidth, termHeight);
      assert (rendered + [p])[..i] == rendered;
      rendered := rendered + [p];
      minLinesNeeded := Max(minLinesNeeded, p.row + |p.lines|);
      i := i + 1;
    }
  }

  /** The overlays that are shown, the topmost last. */
  function ShownOf(stack: seq<Entry>): seq<Entry> { SortByFocus(VisibleOf(stack)) }

  /** Without overlays the lines are as they were; hidden ones still pad them to the screen. */
  method CompositeOverlays(lines: seq<Text>, stack: seq<Entry>, termWidth: nat, termHeight: nat)
    returns (result: array<Text>)
    ensures stack == [] ==> result[..] == lines
    ensures stack != [] ==>
      result.Length == Max(termHeight, LinesNeeded(|lines|, PlaceAll(ShownOf(stack), termWidth, termHeight)))
    ensures stack != [] ==> forall idx :: 0 <= idx < result.Length ==>
      Stacked(LineAt(lines, idx), PlaceAll(ShownOf(stack), termWidth, termHeight), result.Length - termHeight, idx,
        termWidth, result[idx])
  {
    hide Place, Stacked, ShownOf;
    if |stack| == 0 {
      result := new Text[|lines|](i requires 0 <= i < |lines| => lines[i]);
      assert result[..] == lines;
      return;
    }
    var entries := ShownOf(stack);
    var rendered, minLinesNeeded := RenderOverlays(|lines|, entries, termWidth, termHeight);
    var workingHeight := Max(Max(|lines|, termHeight), minLinesNeeded);
    result := new Text[workingHeight](i => LineAt(lines, if i >= 0 then i else 0));
    var viewportStart := workingHeight - termHeight;
    var n := 0;
    forall idx | 0 <= idx < result.Length
      ensures Stacked(LineAt(lines, idx), rendered[..0], viewportStart, idx, termWidth, result[idx])
    {
      NothingStacked(LineAt(lines, idx), viewportStart, idx, termWidth);
    }
    while n < |rendered|
      invariant n <= |rendered|
      invariant forall idx :: 0 <= idx < result.Length ==>
        Stacked(LineAt(lines, idx), rendered[..n], viewportStart, idx, termWidth, result[idx])
    {
      CompositeOverlay(result, rendered[n], viewportStart, termWidth, lines, rendered[..n]);
      assert rendered[..n] + [rendered[n]] == rendered[..n + 1];
      n := n + 1;
    }
    assert rendered[..n] == rendered;
  }

  lemma NothingStacked(base: Text, start: nat, idx: nat, totalWidth: nat)
    ensures Stacked(base, [], start, idx, totalWidth, base)
  {
  }

  /**
   * A line that overlays cover is exactly as wide as the screen whenever the margin to the left of the
   * topmost one leaves a column of the screen.
   */
  lemma CoveredLinesFill(
      lines: seq<Text>, entries: seq<Entry>, termWidth: nat, termHeight: nat, start: nat, idx: nat, result: Text)
    requires Stacked(LineAt(lines, idx), PlaceAll(entries, termWidth, termHeight), start, idx, termWidth, result)
    requires forall i :: 0 <= i < |entries| ==> entries[i].options.margin.left < termWidth && termWidth > 0
    ensures var top := Topmost(PlaceAll(entries, termWidth, termHeight), start, idx);
      if top.Some? then VisibleWidth(result) == termWidth else result == LineAt(lines, idx)
  {
    hide Stacked, VisibleWidth, Place, Covers;
    var placed := PlaceAll(entries, termWidth, termHeight);
    StackedWidth(LineAt(lines, idx), placed, start, idx, termWidth, result);
    var top := Topmost(placed, start, idx);
    if top.Some? {
      var i :| 0 <= i < |placed| && placed[i] == top.value;
      PlacedInside(entries[i], termWidth, termHeight);
    }
  }

  lemma PlacedInside(entry: Entry, termWidth: nat, termHeight: nat)
    requires entry.options.margin.left < termWidth && termWidth > 0
    ensures Place(entry, termWidth, termHeight).col + Place(entry, termWidth, termHeight).width <= termWidth
  {
    hide ResolveOverlayLayout;
    var p := Place(entry, termWidth, termHeight);
    LayoutFits(entry.options, |p.lines|, termWidth, termHeight);
    SizeIgnoresHeight(entry.options, 0, |p.lines|, termWidth, termHeight);
  }
}
