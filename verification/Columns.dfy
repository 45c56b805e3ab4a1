/** Cutting a line of styled text by columns (packages/tui/src/utils.ts). */
module Columns {
  import opened Strings
  import opened Style
  import opened StyledText
  import opened Truncation

  /** The column at which item `i` of a line starts. */
  function Col(line: Text, i: nat): nat
    requires i <= |line|
  {
    VisibleWidth(line[..i])
  }

  lemma ColStep(line: Text, i: nat)
    requires i < |line|
    ensures Col(line, i + 1) == Col(line, i) + ItemWidth(line[i])
  {
    PrefixWidth(line, i);
  }

  lemma ColGrows(line: Text, i: nat, j: nat)
    requires i <= j <= |line|
    ensures Col(line, i) <= Col(line, j)
  {
    PrefixesGrow(line, i, j);
  }

  /** A stretch of a line is as wide as its columns say. */
  lemma StretchWidth(line: Text, i: nat, j: nat)
    requires i <= j <= |line|
    ensures VisibleWidth(line[i..j]) == Col(line, j) - Col(line, i)
  {
    assert line[..j] == line[..i] + line[i..j];
    TextConcat(Plain, line[..i], line[i..j]);
  }

  // ----- slices -----

  function CodesOf(t: Text): Text {
    if t == [] then [] else CodesOf(t[..|t| - 1]) + (if t[|t| - 1].C? then [t[|t| - 1]] else [])
  }

  /** `t` with some codes put before its first character. */
  function Splice(codes: Text, t: Text): Text {
    if t == [] then [] else if t[0].G? then codes + t else [t[0]] + Splice(codes, t[1..])
  }

  lemma GraphemeInTail(t: Text)
    requires t != []
    ensures HasGrapheme(t) <==> t[0].G? || HasGrapheme(t[1..])
  {
    if HasGrapheme(t) && !t[0].G? {
      var i :| 0 <= i < |t| && t[i].G?;
      assert t[1..][i - 1].G?;
    }
    if HasGrapheme(t[1..]) {
      var i :| 0 <= i < |t[1..]| && t[1..][i].G?;
      assert t[i + 1].G?;
    }
  }

  lemma {:induction false} SpliceExtends(codes: Text, t: Text, x: Item)
    requires HasGrapheme(t)
    ensures Splice(codes, t + [x]) == Splice(codes, t) + [x]
    decreases |t|
  {
    GraphemeInTail(t);
    hide HasGrapheme;
    if t[0].G? {
      assert codes + (t + [x]) == (codes + t) + [x];
    } else {
      assert (t + [x])[1..] == t[1..] + [x];
      SpliceExtends(codes, t[1..], x);
      assert [t[0]] + (Splice(codes, t[1..]) + [x]) == ([t[0]] + Splice(codes, t[1..])) + [x];
    }
  }

  lemma {:induction false} SpliceOnCodes(codes: Text, t: Text, x: Item)
    requires !HasGrapheme(t)
    ensures Splice(codes, t) == t
    ensures Splice(codes, t + [x]) == if x.G? then t + codes + [x] else t + [x]
    decreases |t|
  {
    if t == [] {
      assert [x][1..] == [] && t + [x] == [x];
    } else {
      GraphemeInTail(t);
      hide HasGrapheme;
      assert (t + [x])[1..] == t[1..] + [x];
      SpliceOnCodes(codes, t[1..], x);
      assert t == [t[0]] + t[1..];
    }
  }

  lemma SpliceAppend(codes: Text, t: Text, x: Item)
    ensures HasGrapheme(t) || x.C? ==> Splice(codes, t + [x]) == Splice(codes, t) + [x]
    ensures !HasGrapheme(t) ==> Splice(codes, t) == t
    ensures !HasGrapheme(t) && x.G? ==> Splice(codes, t + [x]) == t + codes + [x]
  {
    hide HasGrapheme, Splice;
    if HasGrapheme(t) { SpliceExtends(codes, t, x); } else { SpliceOnCodes(codes, t, x); }
  }

  lemma {:induction false} SpliceWidth(codes: Text, t: Text)
    requires forall i :: 0 <= i < |codes| ==> codes[i].C?
    ensures VisibleWidth(Splice(codes, t)) == VisibleWidth(t)
    decreases |t|
  {
    if t != [] {
      if t[0].G? {
        CodesTakeNoWidth(codes);
        TextConcat(Plain, codes, t);
      } else {
        SpliceWidth(codes, t[1..]);
        TextConcat(Plain, [t[0]], Splice(codes, t[1..]));
        TextConcat(Plain, [t[0]], t[1..]);
        assert [t[0]] + t[1..] == t;
      }
    }
  }

  lemma {:induction false} CodesTakeNoWidth(codes: Text)
    requires forall i :: 0 <= i < |codes| ==> codes[i].C?
    ensures VisibleWidth(codes) == 0
  {
    if codes != [] { CodesTakeNoWidth(codes[..|codes| - 1]); }
  }

  lemma {:induction false} CodesOfAreCodes(t: Text)
    ensures forall i :: 0 <= i < |CodesOf(t)| ==> CodesOf(t)[i].C?
  {
    if t != [] { CodesOfAreCodes(t[..|t| - 1]); }
  }

  lemma {:induction false} CodesOfKeepStyle(s: Style, t: Text)
    ensures StyleAfter(s, CodesOf(t)) == StyleAfter(s, t)
  {
    if t != [] {
      var u := t[..|t| - 1];
      CodesOfKeepStyle(s, u);
      if t[|t| - 1].C? {
        TextConcat(s, CodesOf(u), [t[|t| - 1]]);
        OneItem(StyleAfter(s, u), t[|t| - 1]);
      } else {
        assert CodesOf(t) == CodesOf(u);
      }
    }
  }

  /**
   * The slice is the stretch `line[k..e]`, the items that start at column `start` or later and end
   * by `end`, with the codes from before it put in front of its first character.
   */
  ghost predicate Sliced(line: Text, start: nat, end: nat, strict: bool, result: Text, k: nat, e: nat) {
    && k <= e <= |line|
    && (forall j :: 0 <= j < k ==> Col(line, j) < start)
    && (k < e ==> Col(line, k) >= start)
    && (forall j :: k <= j < e ==> Col(line, j) < end)
    && (strict && k < e ==> Col(line, e) <= end)
    && (e == |line| || Col(line, e) >= end || (strict && Col(line, e + 1) > end))
    && result == Splice(CodesOf(line[..k]), line[k..e])
  }

  /** The state of the scan at item `i`. */
  ghost predicate Slicing(line: Text, start: nat, end: nat, i: nat, k: nat, result: Text, pending: Text) {
    && k <= i <= |line| && Col(line, i) < end
    && (forall j :: 0 <= j < k ==> Col(line, j) < start)
    && (k < i ==> Col(line, k) >= start)
    && (forall j :: k <= j < i ==> Col(line, j) < end)
    && result == Splice(CodesOf(line[..k]), line[k..i])
    && pending == if HasGrapheme(line[k..i]) then [] else CodesOf(line[..k])
  }

  lemma SlicingStarts(line: Text, start: nat, end: nat)
    requires start < end
    ensures Col(line, 0) == 0 && Slicing(line, start, end, 0, 0, [], [])
  {
    assert line[..0] == [] == line[0..0];
  }

  lemma SlicingInside(line: Text, start: nat, end: nat, i: nat, k: nat, result: Text, pending: Text)
    requires Slicing(line, start, end, i, k, result, pending)
    ensures Col(line, i) < end && forall j :: 0 <= j < |pending| ==> pending[j].C?
  {
    CodesOfAreCodes(line[..k]);
  }

  lemma SlicingSkips(line: Text, start: nat, end: nat, i: nat, k: nat, result: Text, pending: Text)
    requires Slicing(line, start, end, i, k, result, pending)
    requires i < |line| && Col(line, i) < start <= end
    ensures k == i && result == []
    ensures var next := if line[i].C? then pending + [line[i]] else pending;
      Col(line, i + 1) < end ==> Slicing(line, start, end, i + 1, i + 1, [], next)
  {
    hide Col;
    if k < i { ColGrows(line, k, i); }
    assert k == i;
    assert line[k..i] == [] && line[i + 1..i + 1] == [];
    assert forall codes :: Splice(codes, []) == [];
    assert !HasGrapheme([]);
    hide Splice, HasGrapheme;
    assert line[..i + 1][..i] == line[..i];
  }

  lemma GraphemeWidth(result: Text, pending: Text, x: Item)
    requires forall j :: 0 <= j < |pending| ==> pending[j].C?
    ensures VisibleWidth(result + pending + [x]) == VisibleWidth(result) + ItemWidth(x)
  {
    hide VisibleWidth;
    CodesTakeNoWidth(pending);
    TextConcat(Plain, result, pending);
    TextConcat(Plain, result + pending, [x]);
    OneItem(Plain, x);
  }

  lemma SlicingEnds(line: Text, start: nat, end: nat, strict: bool, k: nat, result: Text, pending: Text)
    requires Slicing(line, start, end, |line|, k, result, pending)
    ensures Sliced(line, start, end, strict, result, k, |line|)
  {
  }

  /** The scan stops at a character that reaches the end column. */
  lemma SlicingStops(
      line: Text, start: nat, end: nat, strict: bool, i: nat, k: nat, result: Text, pending: Text)
    requires Slicing(line, start, end, i, k, result, pending)
    requires i < |line| && line[i].G? && start <= end <= Col(line, i + 1)
    ensures Col(line, i) < start ==> Sliced(line, start, end, strict, result, i + 1, i + 1)
    ensures Col(line, i) >= start ==>
      if strict && Col(line, i + 1) > end then Sliced(line, start, end, strict, result, k, i)
      else Sliced(line, start, end, strict, result + pending + [line[i]], k, i + 1)
  {
    if Col(line, i) < start {
      SlicingSkips(line, start, end, i, k, result, pending);
      assert line[i + 1..i + 1] == [];
    } else {
      SlicingTakes(line, start, end, i, k, result, pending);
    }
  }

  lemma SlicingTakes(line: Text, start: nat, end: nat, i: nat, k: nat, result: Text, pending: Text)
    requires Slicing(line, start, end, i, k, result, pending)
    requires i < |line| && Col(line, i) >= start
    ensures line[i].C? ==> Slicing(line, start, end, i + 1, k, result + [line[i]], pending)
    ensures line[i].G? ==> Splice(CodesOf(line[..k]), line[k..i + 1]) == result + pending + [line[i]]
    ensures line[i].G? && Col(line, i + 1) < end ==>
      Slicing(line, start, end, i + 1, k, result + pending + [line[i]], [])
  {
    ColStep(line, i);
    hide Col;
    SpliceAppend(CodesOf(line[..k]), line[k..i], line[i]);
    assert line[k..i + 1] == line[k..i] + [line[i]];
    if HasGrapheme(line[k..i]) {
      var j :| 0 <= j < |line[k..i]| && line[k..i][j].G?;
      assert line[k..i + 1][j].G?;
    }
    if line[i].G? { assert line[k..i + 1][i - k].G?; }
  }

  /** `k` and `e` bound the stretch of the line that was taken. */
  method SliceWithWidth(line: Text, startCol: nat, length: int, strict: bool)
    returns (result: Text, width: nat, ghost k: nat, ghost e: nat)
    ensures length <= 0 ==> result == []
    ensures length > 0 ==> Sliced(line, startCol, startCol + length, strict, result, k, e)
    ensures width == VisibleWidth(result)
  {
    hide Slicing, Splice, CodesOf, VisibleWidth;
    k, e := 0, 0;
    EmptyWidth();
    if length <= 0 { return [], 0, k, e; }
    var endCol := startCol + length;
    var currentCol, i, pending := 0, 0, [];
    result, width := [], 0;
    SlicingStarts(line, startCol, endCol);
    while i < |line|
      invariant k <= i <= |line| && currentCol == Col(line, i)
      invariant Slicing(line, startCol, endCol, i, k, result, pending) && width == VisibleWidth(result)
    {
      ColStep(line, i);
      if currentCol >= startCol {
        SlicingTakes(line, startCol, endCol, i, k, result, pending);
      } else {
        SlicingSkips(line, startCol, endCol, i, k, result, pending);
      }
      SlicingInside(line, startCol, endCol, i, k, result, pending);
      if line[i].G? && currentCol + line[i].grapheme.width >= endCol {
        SlicingStops(line, startCol, endCol, strict, i, k, result, pending);
      }
      if line[i].C? {
        OneItem(Plain, line[i]);
        TextConcat(Plain, result, [line[i]]);
        if currentCol >= startCol && currentCol < endCol {
          result := result + [line[i]];
        } else if currentCol < startCol {
          pending := pending + [line[i]];
          k := i + 1;
        }
      } else {
        var w := line[i].grapheme.width;
        var inRange := currentCol >= startCol && currentCol < endCol;
        var fits := !strict || currentCol + w <= endCol;
        if !inRange { k := i + 1; }
        if inRange && fits {
          GraphemeWidth(result, pending, line[i]);
          result, pending := result + pending + [line[i]], [];
          width := width + w;
        }
        currentCol := currentCol + w;
        if currentCol >= endCol {
          e := if inRange && !fits then i else i + 1;
          return;
        }
      }
      i := i + 1;
    }
    e := i;
    assert Sliced(line, startCol, endCol, strict, result, k, e) by {
      SlicingEnds(line, startCol, endCol, strict, k, result, pending);
    }
  }

  /** A strict slice is never wider than asked, and as wide as the stretch it shows. */
  lemma SlicesFit(line: Text, start: nat, end: nat, result: Text, k: nat, e: nat)
    requires Sliced(line, start, end, true, result, k, e) && start <= end
    ensures VisibleWidth(result) == VisibleWidth(line[k..e]) <= end - start
  {
    hide Splice, CodesOf;
    CodesOfAreCodes(line[..k]);
    SpliceWidth(CodesOf(line[..k]), line[k..e]);
    StretchWidth(line, k, e);
  }

  /** A slice from the first column is a prefix of the line. */
  lemma SliceFromStart(line: Text, end: nat, strict: bool, result: Text, k: nat, e: nat)
    requires Sliced(line, 0, end, strict, result, k, e)
    ensures result == line[..e]
  {
    assert k > 0 ==> Col(line, 0) < 0;
    assert CodesOf(line[..0]) == [];
    SpliceNothing(line[0..e]);
  }

  lemma {:induction false} SpliceNothing(t: Text)
    ensures Splice([], t) == t
  {
    if t != [] && !t[0].G? { SpliceNothing(t[1..]); }
  }

  /** The codes of `t` before its first character. */
  function Edge(t: Text): Text {
    if t == [] || t[0].G? then [] else [t[0]] + Edge(t[1..])
  }

  lemma {:induction false} SpliceParts(codes: Text, t: Text)
    requires HasGrapheme(t)
    ensures |Edge(t)| < |t| && t[|Edge(t)|].G? && t == Edge(t) + t[|Edge(t)|..]
    ensures Splice(codes, t) == Edge(t) + codes + t[|Edge(t)|..]
    decreases |t|
  {
    if !t[0].G? {
      GraphemeInTail(t);
      SpliceParts(codes, t[1..]);
    }
  }

  lemma SliceIs(line: Text, start: nat, end: nat, strict: bool, result: Text, k: nat, e: nat)
    requires Sliced(line, start, end, strict, result, k, e)
    ensures k <= e <= |line| && result == Splice(CodesOf(line[..k]), line[k..e])
  {
  }

  lemma {:induction false} EdgeIsCodes(t: Text)
    ensures forall i :: 0 <= i < |Edge(t)| ==> Edge(t)[i].C?
  {
    if t != [] && !t[0].G? { EdgeIsCodes(t[1..]); }
  }

  lemma {:induction false} CodesShowNothing(s: Style, codes: Text)
    requires forall i :: 0 <= i < |codes| ==> codes[i].C?
    ensures Cells(s, codes) == []
  {
    if codes != [] { CodesShowNothing(s, codes[..|codes| - 1]); }
  }

  /** Two styles that show a text that starts with a character alike are the same style. */
  lemma FirstCellTells(s: Style, t: Style, rest: Text)
    requires rest != [] && rest[0].G?
    ensures Cells(s, rest) == Cells(t, rest) <==> s == t
  {
    assert rest == [rest[0]] + rest[1..];
    TextConcat(s, [rest[0]], rest[1..]);
    TextConcat(t, [rest[0]], rest[1..]);
    OneItem(s, rest[0]);
    OneItem(t, rest[0]);
    assert Cells(s, rest)[0].style == s && Cells(t, rest)[0].style == t;
  }

  /**
   * A slice shows its characters in their own style if and only if the codes at its left edge and
   * those before it come to the same style in either order: the scan emits the edge's codes first.
   */
  lemma SliceKeepsStyle(line: Text, start: nat, end: nat, strict: bool, result: Text, k: nat, e: nat)
    requires Sliced(line, start, end, strict, result, k, e) && HasGrapheme(line[k..e])
    ensures Cells(Plain, result) == Cells(StyleAfter(Plain, line[..k]), line[k..e]) <==>
      StyleAfter(Plain, Edge(line[k..e]) + CodesOf(line[..k])) ==
        StyleAfter(Plain, CodesOf(line[..k]) + Edge(line[k..e]))
  {
    hide Sliced, Cells, StyleAfter, CodesOf, Splice, Edge, HasGrapheme;
    SliceIs(line, start, end, strict, result, k, e);
    var t, codes := line[k..e], CodesOf(line[..k]);
    SpliceParts(codes, t);
    var edge, rest := Edge(t), t[|Edge(t)|..];
    var before := StyleAfter(Plain, line[..k]);
    CodesOfAreCodes(line[..k]);
    CodesOfKeepStyle(Plain, line[..k]);
    EdgeIsCodes(t);
    CodesShowNothing(before, edge);
    CodesShowNothing(Plain, edge + codes);
    TextConcat(Plain, edge + codes, rest);
    TextConcat(before, edge, rest);
    TextConcat(Plain, codes, edge);
    assert Cells(Plain, result) == Cells(StyleAfter(Plain, edge + codes), rest);
    assert Cells(before, t) == Cells(StyleAfter(Plain, codes + edge), rest);
    FirstCellTells(StyleAfter(Plain, edge + codes), StyleAfter(Plain, codes + edge), rest);
  }

  /** In particular when no code stands between the left edge and the first character, or none before it. */
  lemma CleanEdgeKeepsStyle(line: Text, start: nat, end: nat, strict: bool, result: Text, k: nat, e: nat)
    requires Sliced(line, start, end, strict, result, k, e) && HasGrapheme(line[k..e])
    requires line[k].G? || forall i :: 0 <= i < k ==> line[i].G?
    ensures Cells(Plain, result) == Cells(StyleAfter(Plain, line[..k]), line[k..e])
  {
    var edge, codes := Edge(line[k..e]), CodesOf(line[..k]);
    if line[k].G? {
      assert edge == [];
    } else {
      NoCodes(line[..k]);
    }
    assert edge + codes == codes + edge;
    hide Sliced, Edge, CodesOf, Cells, StyleAfter, HasGrapheme;
    SliceKeepsStyle(line, start, end, strict, result, k, e);
  }

  lemma {:induction false} NoCodes(t: Text)
    requires forall i :: 0 <= i < |t| ==> t[i].G?
    ensures CodesOf(t) == []
  {
    if t != [] { NoCodes(t[..|t| - 1]); }
  }

  lemma TwoCodes(s: Style, x: Item, y: Item, z: Item)
    ensures Cells(s, [x, y, z]) ==
      ItemCells(s, x) + ItemCells(ApplyItem(s, x), y) + ItemCells(ApplyItem(ApplyItem(s, x), y), z)
    ensures StyleAfter(s, [x, y]) == ApplyItem(ApplyItem(s, x), y)
    ensures Cells(s, [x, y]) == ItemCells(s, x) + ItemCells(ApplyItem(s, x), y)
  {
    hide Cells, StyleAfter, ItemCells, ApplyItem;
    assert [x, y] == [x] + [y] && [x, y, z] == [x, y] + [z];
    OneItem(s, x);
    OneItem(ApplyItem(s, x), y);
    OneItem(ApplyItem(ApplyItem(s, x), y), z);
    TextConcat(s, [x], [y]);
    TextConcat(s, [x, y], [z]);
  }

  lemma FourColumns(line: Text)
    requires |line| == 4 && line[0].C? && line[1].G? && line[2].C? && line[3].G?
    requires line[1].grapheme.width == 1 && line[3].grapheme.width == 1
    ensures Col(line, 0) == 0 && Col(line, 1) == 0 && Col(line, 2) == 1 && Col(line, 3) == 1 && Col(line, 4) == 2
  {
    assert line[..0] == [];
    assert Col(line, 0) == 0;
    ColStep(line, 0);
    ColStep(line, 1);
    ColStep(line, 2);
    ColStep(line, 3);
  }

  lemma SpliceFour(x: Item, y: Item, z: Item, w: Item)
    requires x.C? && y.G? && z.C? && w.G?
    ensures Splice(CodesOf([x, y]), [z, w]) == [z, x, w]
  {
    assert CodesOf([x]) == [x] by { assert [x][..0] == []; }
    assert CodesOf([x, y]) == CodesOf([x]) by { assert [x, y][..1] == [x]; }
    assert [z, w][1..] == [w];
  }

  lemma FourItems(x: Item, y: Item, z: Item, w: Item)
    requires x.C? && y.G? && z.C? && w.G? && y.grapheme.width == 1 && w.grapheme.width == 1
    ensures Sliced([x, y, z, w], 1, 2, true, [z, x, w], 2, 4)
  {
    hide Col, Splice, CodesOf;
    var line := [x, y, z, w];
    FourColumns(line);
    SpliceFour(x, y, z, w);
    assert line[..2] == [x, y] && line[2..4] == [z, w];
  }

  /** They do not always: a link that was closed at the left edge is open again in the slice. */
  lemma SliceReopensLink(a: Grapheme, b: Grapheme, h: Hyperlink)
    requires a.width == 1 && b.width == 1 && h.url != ""
    ensures var open, close := C(Link(h)), C(Link(h.(url := "")));
      var line, result := [open, G(a), close, G(b)], [close, open, G(b)];
      && Sliced(line, 1, 2, true, result, 2, 4)
      && Cells(Plain, result) != Cells(StyleAfter(Plain, line[..2]), line[2..4])
  {
    hide Sliced, Cells, StyleAfter;
    var open, close := C(Link(h)), C(Link(h.(url := "")));
    var line := [open, G(a), close, G(b)];
    FourItems(open, G(a), close, G(b));
    assert line[..2] == [open, G(a)] && line[2..4] == [close, G(b)];
    TwoCodes(Plain, close, open, G(b));
    TwoCodes(Plain, open, G(a), G(b));
    TwoCodes(StyleAfter(Plain, line[..2]), close, G(b), G(b));
    assert Cells(Plain, [close, open, G(b)])[0].style.link == Some(h);
  }

  // ----- the text on both sides of an overlay -----

  /** `line[..b]` is what starts before column `limit` and ends by `end`, up to its last character. */
  ghost predicate BeforePart(line: Text, limit: nat, end: nat, i: nat, b: nat) {
    && b <= i <= |line| && (b > 0 ==> line[b - 1].G?) && Col(line, b) <= end
    && (forall j :: 0 <= j < b && line[j].G? ==> Col(line, j) < limit)
    && (forall j :: b <= j < i && line[j].G? ==> Col(line, j) >= limit || Col(line, j + 1) > end)
  }

  /** The scan for the first part: what is pending are the codes after its last character. */
  ghost predicate BeforeScan(
      line: Text, limit: nat, end: nat, i: nat, b: nat, before: Text, pending: Text)
  {
    && BeforePart(line, limit, end, i, b) && before == line[..b]
    && (Col(line, i) < limit ==> before + pending == line[..i])
  }

  /** Item `j` starts at column `start` or later, and at `from` or later or reaches over it. */
  ghost predicate Follows(line: Text, from: nat, start: nat, j: nat)
    requires j < |line|
  {
    Col(line, j) >= start && (Col(line, j) >= from || Col(line, j + 1) > from)
  }

  /** The second part starts at the first character at `start` or later that is not in the first part. */
  ghost predicate AfterPart(
      line: Text, from: nat, start: nat, end: int, strict: bool, a: nat, c: nat, after: Text)
  {
    && a < c <= |line| && line[a].G? && Follows(line, from, start, a)
    && (forall j :: 0 <= j < a && line[j].G? ==> !Follows(line, from, start, j))
    && (forall j :: a <= j < c ==> Col(line, j) < end)
    && (strict ==> Col(line, c) <= end)
    && after == Codes(ActiveCodes(StyleAfter(Plain, line[..a]))) + line[a..c]
  }

  ghost predicate AfterStops(line: Text, end: int, strict: bool, c: nat)
    requires c <= |line|
  {
    c == |line| || Col(line, c) >= end || (strict && Col(line, c + 1) > end)
  }

  /** No character after the overlay can be shown. */
  ghost predicate NothingAfter(line: Text, from: nat, start: nat, end: int, strict: bool, i: nat)
    requires i <= |line|
  {
    forall j :: 0 <= j < i && line[j].G? && Follows(line, from, start, j) ==>
      Col(line, j) >= end || (strict && Col(line, j + 1) > end)
  }

  /** The scan stops where the second part ends, also when the first one would go on. */
  function BeforeLimit(beforeEnd: nat, afterStart: nat, afterEnd: int): nat {
    if afterStart < afterEnd < beforeEnd then afterEnd else beforeEnd
  }

  ghost predicate Segmented(
      line: Text, beforeEnd: nat, afterStart: nat, afterEnd: int, strict: bool,
      before: Text, after: Text, b: nat, a: nat, c: nat)
  {
    && BeforePart(line, BeforeLimit(beforeEnd, afterStart, afterEnd), beforeEnd, |line|, b) && before == line[..b]
    && if after == [] then NothingAfter(line, beforeEnd, afterStart, afterEnd, strict, |line|)
       else
         && AfterPart(line, beforeEnd, afterStart, afterEnd, strict, a, c, after)
         && AfterStops(line, afterEnd, strict, c)
  }

  lemma BeforeCode(line: Text, limit: nat, end: nat, i: nat, b: nat, before: Text, pending: Text)
    requires BeforeScan(line, limit, end, i, b, before, pending) && i < |line| && line[i].C?
    ensures
      BeforeScan(line, limit, end, i + 1, b, before, if Col(line, i) < limit then pending + [line[i]] else pending)
  {
    ColStep(line, i);
    hide Col;
    assert line[..i + 1] == line[..i] + [line[i]];
  }

  lemma BeforeTakes(line: Text, limit: nat, end: nat, i: nat, b: nat, before: Text, pending: Text)
    requires BeforeScan(line, limit, end, i, b, before, pending) && i < |line| && line[i].G?
    requires Col(line, i) < limit && Col(line, i + 1) <= end
    ensures BeforeScan(line, limit, end, i + 1, i + 1, before + pending + [line[i]], [])
  {
    hide Col;
    assert line[..i + 1] == line[..i] + [line[i]];
    forall j | 0 <= j < i ensures Col(line, j) <= Col(line, i) { ColGrows(line, j, i); }
  }

  lemma BeforeSkips(line: Text, limit: nat, end: nat, i: nat, b: nat, before: Text, pending: Text)
    requires BeforeScan(line, limit, end, i, b, before, pending) && i < |line| && line[i].G? && limit <= end
    requires Col(line, i) >= limit || Col(line, i + 1) > end
    ensures BeforeScan(line, limit, end, i + 1, b, before, pending)
  {
    ColGrows(line, i, i + 1);
    hide Col;
  }

  lemma BeforeStep(line: Text, limit: nat, end: nat, i: nat, b: nat, before: Text, pending: Text)
    requires BeforeScan(line, limit, end, i, b, before, pending) && i < |line| && limit <= end
    ensures line[i].C? ==>
      BeforeScan(line, limit, end, i + 1, b, before, if Col(line, i) < limit then pending + [line[i]] else pending)
    ensures line[i].G? ==>
      if Col(line, i) < limit && Col(line, i + 1) <= end
      then BeforeScan(line, limit, end, i + 1, i + 1, before + pending + [line[i]], [])
      else BeforeScan(line, limit, end, i + 1, b, before, pending)
  {
    hide Col, BeforeScan;
    if line[i].C? {
      BeforeCode(line, limit, end, i, b, before, pending);
    } else if Col(line, i) < limit && Col(line, i + 1) <= end {
      BeforeTakes(line, limit, end, i, b, before, pending);
    } else {
      BeforeSkips(line, limit, end, i, b, before, pending);
    }
  }

  lemma BeforeDone(line: Text, limit: nat, end: nat, i: nat, b: nat)
    requires BeforePart(line, limit, end, i, b) && (i == |line| || Col(line, i) >= limit)
    ensures BeforePart(line, limit, end, |line|, b)
  {
    hide Col;
    forall j | i <= j < |line| ensures Col(line, i) <= Col(line, j) { ColGrows(line, i, j); }
  }

  /** No character so far starts after the overlay. */
  ghost predicate Waiting(line: Text, from: nat, start: nat, i: nat)
    requires i <= |line|
  {
    forall j :: 0 <= j < i && line[j].G? ==> !Follows(line, from, start, j)
  }

  lemma AfterStarts(line: Text, from: nat, start: nat, end: int, strict: bool, i: nat)
    requires i < |line| && Waiting(line, from, start, i) && line[i].G?
    requires Follows(line, from, start, i) && Col(line, i) < end && (strict ==> Col(line, i + 1) <= end)
    ensures var codes := Codes(ActiveCodes(StyleAfter(Plain, line[..i])));
      AfterPart(line, from, start, end, strict, i, i + 1, codes + [line[i]])
  {
    hide Col, ActiveCodes, StyleAfter;
    assert line[i..i + 1] == [line[i]];
  }

  lemma AfterGrows(line: Text, from: nat, start: nat, end: int, strict: bool, a: nat, i: nat, after: Text)
    requires AfterPart(line, from, start, end, strict, a, i, after) && i < |line| && Col(line, i) < end
    requires strict ==> Col(line, i + 1) <= end
    ensures AfterPart(line, from, start, end, strict, a, i + 1, after + [line[i]])
    ensures Col(line, i) >= start && after != []
  {
    hide Col, ActiveCodes, StyleAfter;
    ColGrows(line, a, i);
    assert line[a..i] + [line[i]] == line[a..i + 1];
  }

  lemma NothingStarts(line: Text, from: nat, start: nat, end: int, strict: bool, i: nat)
    requires i <= |line| && Waiting(line, from, start, i)
    requires i < |line| ==> Col(line, i) >= end || (Follows(line, from, start, i) && strict && Col(line, i + 1) > end)
    ensures NothingAfter(line, from, start, end, strict, |line|)
  {
    hide Col;
    forall j | i < j < |line| ensures Col(line, i + 1) <= Col(line, j) && Col(line, i) <= Col(line, j) {
      ColGrows(line, i + 1, j);
      ColGrows(line, i, i + 1);
    }
  }

  lemma SegmentsDone(
      line: Text, beforeEnd: nat, afterStart: nat, afterEnd: int, strict: bool,
      before: Text, after: Text, i: nat, b: nat, a: nat, c: nat)
    requires BeforePart(line, BeforeLimit(beforeEnd, afterStart, afterEnd), beforeEnd, i, b) && before == line[..b]
    requires i == |line| || Col(line, i) >= BeforeLimit(beforeEnd, afterStart, afterEnd)
    requires if after == [] then NothingAfter(line, beforeEnd, afterStart, afterEnd, strict, |line|)
      else
        && AfterPart(line, beforeEnd, afterStart, afterEnd, strict, a, c, after)
        && AfterStops(line, afterEnd, strict, c)
    ensures Segmented(line, beforeEnd, afterStart, afterEnd, strict, before, after, b, a, c)
  {
    hide BeforePart, AfterPart, AfterStops, NothingAfter;
    BeforeDone(line, BeforeLimit(beforeEnd, afterStart, afterEnd), beforeEnd, i, b);
  }

  lemma NoRoomAfter(line: Text, from: nat, start: nat, end: int, strict: bool)
    requires end <= start
    ensures NothingAfter(line, from, start, end, strict, |line|)
  {
  }

  lemma SegmentsStart(line: Text, limit: nat, beforeEnd: nat, afterStart: nat)
    ensures Col(line, 0) == 0 && StyleAfter(Plain, line[..0]) == Plain
    ensures BeforeScan(line, limit, beforeEnd, 0, 0, [], []) && Waiting(line, beforeEnd, afterStart, 0)
  {
    assert line[..0] == [];
  }

  /** What the scan knows about the part after the overlay at item `i`. */
  ghost predicate AfterSofar(line: Text, from: nat, start: nat, end: int, strict: bool, i: nat, a: nat, after: Text)
    requires i <= |line|
  {
    if after == [] then Waiting(line, from, start, i) || end <= start
    else AfterPart(line, from, start, end, strict, a, i, after)
  }

  lemma SofarStarts(line: Text, from: nat, start: nat, end: int, strict: bool)
    ensures AfterSofar(line, from, start, end, strict, 0, 0, [])
  {
  }

  lemma SofarStep(line: Text, from: nat, start: nat, end: int, strict: bool, i: nat, a: nat, after: Text)
    requires i < |line| && AfterSofar(line, from, start, end, strict, i, a, after)
    requires Col(line, i) < end || end <= start
    requires end <= start ==> after == []
    ensures after != [] ==> Col(line, i) >= start && Col(line, i) >= from
    ensures line[i].C? ==>
      AfterSofar(line, from, start, end, strict, i + 1, a, if after == [] then [] else after + [line[i]])
    ensures line[i].G? && (!Follows(line, from, start, i) || end <= start) ==>
      AfterSofar(line, from, start, end, strict, i + 1, a, after)
    ensures
      line[i].G? && Follows(line, from, start, i) && Col(line, i) < end && (strict ==> Col(line, i + 1) <= end) ==>
      if after == [] then
        var codes := Codes(ActiveCodes(StyleAfter(Plain, line[..i])));
        AfterSofar(line, from, start, end, strict, i + 1, i, codes + [line[i]])
      else AfterSofar(line, from, start, end, strict, i + 1, a, after + [line[i]])
    ensures line[i].G? && Follows(line, from, start, i) && Col(line, i) < end && strict && Col(line, i + 1) > end ==>
      if after == [] then NothingAfter(line, from, start, end, strict, |line|)
      else AfterPart(line, from, start, end, strict, a, i, after) && AfterStops(line, end, strict, i)
  {
    ColStep(line, i);
    hide Col, AfterPart, NothingAfter, StyleAfter, ActiveCodes;
    if after != [] {
      if strict ==> Col(line, i + 1) <= end { AfterGrows(line, from, start, end, strict, a, i, after); }
      PartStarts(line, from, start, end, strict, a, i, after);
    } else if line[i].G? && Follows(line, from, start, i) && Col(line, i) < end {
      if strict ==> Col(line, i + 1) <= end {
        AfterStarts(line, from, start, end, strict, i);
      } else {
        NothingStarts(line, from, start, end, strict, i);
      }
    }
  }

  lemma PartStarts(line: Text, from: nat, start: nat, end: int, strict: bool, a: nat, i: nat, after: Text)
    requires AfterPart(line, from, start, end, strict, a, i, after)
    ensures Col(line, i) >= start && Col(line, i) >= from && (strict ==> Col(line, i) <= end)
  {
    ColGrows(line, a, a + 1);
    ColGrows(line, a + 1, i);
  }

  lemma SofarDone(line: Text, from: nat, start: nat, end: int, strict: bool, i: nat, a: nat, after: Text)
    requires i <= |line| && AfterSofar(line, from, start, end, strict, i, a, after)
    requires i == |line| || Col(line, i) >= end || (end <= start && after == [])
    ensures if after == [] then NothingAfter(line, from, start, end, strict, |line|)
      else AfterPart(line, from, start, end, strict, a, i, after) && AfterStops(line, end, strict, i)
  {
    hide Col, AfterPart, NothingAfter;
    if end <= start { NoRoomAfter(line, from, start, end, strict); }
    if Waiting(line, from, start, i) && (i == |line| || Col(line, i) >= end) {
      NothingStarts(line, from, start, end, strict, i);
    }
  }

  lemma BeforeCodes(line: Text, limit: nat, end: nat, i: nat, b: nat, before: Text, pending: Text)
    requires BeforeScan(line, limit, end, i, b, before, pending) && Col(line, i) < limit <= end
    ensures forall j :: 0 <= j < |pending| ==> pending[j].C?
  {
    hide Col;
    assert line[..i] == line[..b] + line[b..i];
    assert pending == line[b..i];
    forall j | b <= j < i ensures line[j].C? {
      ColGrows(line, j, i);
      ColGrows(line, j + 1, i);
    }
  }

  lemma AppendWidth(t: Text, x: Item)
    ensures VisibleWidth(t + [x]) == VisibleWidth(t) + ItemWidth(x)
  {
    assert t + [] + [x] == t + [x];
    GraphemeWidth(t, [], x);
  }

  lemma BeforeIsPart(line: Text, limit: nat, end: nat, i: nat, b: nat, before: Text, pending: Text)
    requires BeforeScan(line, limit, end, i, b, before, pending)
    ensures BeforePart(line, limit, end, i, b) && before == line[..b]
  {
  }

  lemma StyleStep(line: Text, i: nat)
    requires i < |line|
    ensures StyleAfter(Plain, line[..i + 1]) == ApplyItem(StyleAfter(Plain, line[..i]), line[i])
  {
    assert line[..i + 1][..i] == line[..i];
  }

  method ExtractSegments(line: Text, beforeEnd: nat, afterStart: nat, afterLen: int, strictAfter: bool)
    returns (before: Text, beforeWidth: nat, after: Text, afterWidth: nat, ghost b: nat, ghost a: nat, ghost c: nat)
    ensures Segmented(line, beforeEnd, afterStart, afterStart + afterLen, strictAfter, before, after, b, a, c)
    ensures beforeWidth == VisibleWidth(before) && afterWidth == VisibleWidth(after)
  {
    hide Col, BeforeScan, BeforePart, AfterPart, AfterStops, NothingAfter, Waiting, StyleAfter, Apply, ActiveCodes,
      VisibleWidth, Segmented, AfterSofar;
    var tracker := new AnsiCodeTracker();
    var afterEnd := afterStart + afterLen;
    var currentCol, i, pending, afterStarted := 0, 0, [], false;
    before, beforeWidth, after, afterWidth, b, a, c := [], 0, [], 0, 0, 0, 0;
    ghost var limit := BeforeLimit(beforeEnd, afterStart, afterEnd);
    EmptyWidth();
    SegmentsStart(line, limit, beforeEnd, afterStart);
    SofarStarts(line, beforeEnd, afterStart, afterEnd, strictAfter);
    while i < |line|
      invariant i <= |line| && currentCol == Col(line, i) && tracker.State() == StyleAfter(Plain, line[..i])
      invariant BeforeScan(line, limit, beforeEnd, i, b, before, pending)
      invariant afterLen > 0 ==> currentCol < afterEnd
      invariant afterStarted == (after != []) && (afterLen <= 0 ==> after == [])
      invariant AfterSofar(line, beforeEnd, afterStart, afterEnd, strictAfter, i, a, after)
      invariant beforeWidth == VisibleWidth(before) && afterWidth == VisibleWidth(after)
    {
      ColStep(line, i);
      StyleStep(line, i);
      BeforeStep(line, limit, beforeEnd, i, b, before, pending);
      if currentCol < beforeEnd { BeforeCodes(line, limit, beforeEnd, i, b, before, pending); }
      SofarStep(line, beforeEnd, afterStart, afterEnd, strictAfter, i, a, after);
      if line[i].C? {
        tracker.Process(line[i].code);
        if currentCol < beforeEnd {
          pending := pending + [line[i]];
        } else if currentCol >= afterStart && currentCol < afterEnd && afterStarted {
          AppendWidth(after, line[i]);
          after := after + [line[i]];
        }
      } else {
        var w := line[i].grapheme.width;
        c := i + 1;
        if currentCol < beforeEnd && currentCol + w <= beforeEnd {
          GraphemeWidth(before, pending, line[i]);
          before, pending, b := before + pending + [line[i]], [], i + 1;
          beforeWidth := beforeWidth + w;
        } else if currentCol >= afterStart && currentCol < afterEnd {
          var fits := !strictAfter || currentCol + w <= afterEnd;
          if fits {
            if !afterStarted {
              CodesTakeNoWidth(Codes(ActiveCodes(tracker.State())));
              after, afterStarted, a := Codes(ActiveCodes(tracker.State())), true, i;
            }
            AppendWidth(after, line[i]);
            after := after + [line[i]];
            afterWidth := afterWidth + w;
          } else {
            c := i;
          }
        }
        currentCol := currentCol + w;
        if (if afterLen <= 0 then currentCol >= beforeEnd else currentCol >= afterEnd) {
          if c == i + 1 { SofarDone(line, beforeEnd, afterStart, afterEnd, strictAfter, i + 1, a, after); }
          BeforeIsPart(line, limit, beforeEnd, i + 1, b, before, pending);
          SegmentsDone(line, beforeEnd, afterStart, afterEnd, strictAfter, before, after, i + 1, b, a, c);
          return;
        }
      }
      i := i + 1;
    }
    c := i;
    SofarDone(line, beforeEnd, afterStart, afterEnd, strictAfter, i, a, after);
    BeforeIsPart(line, limit, beforeEnd, i, b, before, pending);
    SegmentsDone(line, beforeEnd, afterStart, afterEnd, strictAfter, before, after, i, b, a, c);
  }

  /** Both parts fit in the columns they are for. */
  lemma SegmentsFit(
      line: Text, beforeEnd: nat, afterStart: nat, afterEnd: int,
      before: Text, after: Text, b: nat, a: nat, c: nat)
    requires Segmented(line, beforeEnd, afterStart, afterEnd, true, before, after, b, a, c)
    ensures VisibleWidth(before) <= beforeEnd
    ensures after == [] || VisibleWidth(after) <= afterEnd - afterStart
    ensures VisibleWidth(after) <= if afterEnd > afterStart then afterEnd - afterStart else 0
  {
    hide ActiveCodes, StyleAfter;
    EmptyWidth();
    if after != [] {
      var codes := Codes(ActiveCodes(StyleAfter(Plain, line[..a])));
      CodesTakeNoWidth(codes);
      TextConcat(Plain, codes, line[a..c]);
      StretchWidth(line, a, c);
    }
  }

  /** The part before the overlay is a prefix of the line, shown as there. */
  lemma BeforeKeepsStyle(line: Text, limit: nat, end: nat, i: nat, b: nat)
    requires BeforePart(line, limit, end, i, b)
    ensures Cells(Plain, line[..b]) <= Cells(Plain, line)
  {
    hide Cells, StyleAfter, VisibleWidth, Col;
    assert line[..b] + line[b..] == line;
    TextConcat(Plain, line[..b], line[b..]);
  }

  lemma StretchCells(line: Text, a: nat, c: nat)
    requires a <= c <= |line|
    ensures Cells(Plain, line) ==
      Cells(Plain, line[..a]) + Cells(StyleAfter(Plain, line[..a]), line[a..c])
        + Cells(StyleAfter(Plain, line[..c]), line[c..])
  {
    hide Cells, StyleAfter, VisibleWidth;
    CutCells(line, c);
    CutCells(line[..c], a);
    assert line[..c][..a] == line[..a] && line[..c][a..] == line[a..c];
  }

  lemma CutCells(t: Text, i: nat)
    requires i <= |t|
    ensures Cells(Plain, t) == Cells(Plain, t[..i]) + Cells(StyleAfter(Plain, t[..i]), t[i..])
  {
    hide Cells, StyleAfter, VisibleWidth;
    TextConcat(Plain, t[..i], t[i..]);
    assert t[..i] + t[i..] == t;
  }

  /** A stretch that first brings its style back is shown from a plain style as in the line. */
  lemma BroughtBack(line: Text, a: nat, rest: Text)
    requires a <= |line|
    ensures var s := StyleAfter(Plain, line[..a]);
      Cells(Plain, Codes(ActiveCodes(s)) + rest) == Cells(s, rest)
  {
    hide Cells, StyleAfter, ActiveCodes, VisibleWidth;
    var s := StyleAfter(Plain, line[..a]);
    TextKeepsReachable(Plain, line[..a]);
    ActiveCodesRestart(Plain, s, []);
    CodesOnly(Plain, ActiveCodes(s));
    TextConcat(Plain, Codes(ActiveCodes(s)), rest);
  }

  /** The text kept on either side is shown as in the line, whatever the overlay does to the style. */
  lemma SegmentsKeepStyle(
      line: Text, beforeEnd: nat, afterStart: nat, afterEnd: int, strict: bool,
      before: Text, after: Text, b: nat, a: nat, c: nat)
    requires Segmented(line, beforeEnd, afterStart, afterEnd, strict, before, after, b, a, c)
    ensures Cells(Plain, before) <= Cells(Plain, line)
    ensures after != [] ==>
      && Cells(Plain, after) == Cells(StyleAfter(Plain, line[..a]), line[a..c])
      && Cells(Plain, line) ==
        Cells(Plain, line[..a]) + Cells(Plain, after) + Cells(StyleAfter(Plain, line[..c]), line[c..])
  {
    hide Cells, StyleAfter, ActiveCodes, Col, VisibleWidth, BeforePart;
    BeforeKeepsStyle(line, BeforeLimit(beforeEnd, afterStart, afterEnd), beforeEnd, |line|, b);
    if after != [] {
      BroughtBack(line, a, line[a..c]);
      StretchCells(line, a, c);
    }
  }
}
