/** Text with escape codes in it, its width, and the style each character is shown in. */
module StyledText {
  import opened Style

  /** A grapheme cluster with what segmentation and width tables say about it: `space` is the
      single blank character, `blank` any white space. */
  datatype Grapheme = Grapheme(text: string, width: nat, space: bool, blank: bool, cjk: bool)

  datatype Item = C(code: Code) | G(grapheme: Grapheme)

  type Text = seq<Item>

  /** One character on display. */
  datatype Cell = Cell(grapheme: Grapheme, style: Style)

  function Codes(codes: seq<Code>): (t: Text)
    ensures |t| == |codes|
    ensures forall i :: 0 <= i < |t| ==> t[i] == C(codes[i])
  {
    seq(|codes|, i requires 0 <= i < |codes| => C(codes[i]))
  }

  function ItemWidth(i: Item): nat { if i.G? then i.grapheme.width else 0 }

  predicate HasGrapheme(t: Text) { exists i :: 0 <= i < |t| && t[i].G? }

  /** The columns a text takes; codes take none. */
  function VisibleWidth(t: Text): nat {
    if t == [] then 0 else VisibleWidth(t[..|t| - 1]) + ItemWidth(t[|t| - 1])
  }

  function ApplyItem(s: Style, i: Item): Style { if i.C? then Apply(s, i.code) else s }

  /** The style after a text. */
  function StyleAfter(s: Style, t: Text): Style {
    if t == [] then s else ApplyItem(StyleAfter(s, t[..|t| - 1]), t[|t| - 1])
  }

  function ItemCells(s: Style, i: Item): seq<Cell> {
    if i.G? then [Cell(i.grapheme, s)] else []
  }

  /** The characters of a text, each in its style, when the text starts in style `s`. */
  function Cells(s: Style, t: Text): seq<Cell> {
    if t == [] then [] else Cells(s, t[..|t| - 1]) + ItemCells(StyleAfter(s, t[..|t| - 1]), t[|t| - 1])
  }

  function Flatten(lines: seq<Text>): Text {
    if lines == [] then [] else Flatten(lines[..|lines| - 1]) + lines[|lines| - 1]
  }

  /** The characters of several lines when each starts from a plain style. */
  function LineCells(lines: seq<Text>): seq<Cell> {
    if lines == [] then [] else LineCells(lines[..|lines| - 1]) + Cells(Plain, lines[|lines| - 1])
  }

  lemma FlattenAppend(lines: seq<Text>, line: Text)
    ensures Flatten(lines + [line]) == Flatten(lines) + line
    ensures LineCells(lines + [line]) == LineCells(lines) + Cells(Plain, line)
  {
    assert (lines + [line])[..|lines|] == lines;
  }

  /** Width, style and characters of a concatenation. */
  lemma {:induction false} TextConcat(s: Style, a: Text, b: Text)
    ensures VisibleWidth(a + b) == VisibleWidth(a) + VisibleWidth(b)
    ensures StyleAfter(s, a + b) == StyleAfter(StyleAfter(s, a), b)
    ensures Cells(s, a + b) == Cells(s, a) + Cells(StyleAfter(s, a), b)
    decreases |b|
  {
    if b == [] {
      assert a + b == a;
    } else {
      var c := b[..|b| - 1];
      TextConcat(s, a, c);
      assert (a + b)[..|a + b| - 1] == a + c;
      assert (a + b)[|a + b| - 1] == b[|b| - 1];
    }
  }

  lemma NoCells(s: Style)
    ensures Cells(s, []) == []
  {
  }

  lemma OneItem(s: Style, i: Item)
    ensures VisibleWidth([i]) == ItemWidth(i) && StyleAfter(s, [i]) == ApplyItem(s, i)
      && Cells(s, [i]) == ItemCells(s, i)
  {
    assert [i][..0] == [];
  }

  /** Codes alone show nothing and take no columns. */
  lemma {:induction false} CodesOnly(s: Style, codes: seq<Code>)
    ensures VisibleWidth(Codes(codes)) == 0 && Cells(s, Codes(codes)) == []
    ensures StyleAfter(s, Codes(codes)) == ApplyAll(s, codes)
    decreases |codes|
  {
    if codes == [] {
      assert Codes(codes) == [];
    } else {
      var rest := Codes(codes[1..]);
      assert Codes(codes) == [C(codes[0])] + rest;
      CodesOnly(Apply(s, codes[0]), codes[1..]);
      TextConcat(s, [C(codes[0])], rest);
      OneItem(s, C(codes[0]));
    }
  }

  lemma {:induction false} TextKeepsReachable(s: Style, t: Text)
    requires Reachable(s)
    ensures Reachable(StyleAfter(s, t))
    decreases |t|
  {
    if t != [] {
      TextKeepsReachable(s, t[..|t| - 1]);
      if t[|t| - 1].C? {
        ApplyKeepsReachable(StyleAfter(s, t[..|t| - 1]), t[|t| - 1].code);
      }
    }
  }

  // ----- losing blanks at line ends -----

  /** `a` is `b` and then nothing but blanks. */
  ghost predicate Trails(a: seq<Cell>, b: seq<Cell>) {
    b <= a && forall i :: |b| <= i < |a| ==> a[i].grapheme.blank
  }

  /** Each line shows a stretch of `a`, in order; what lies between the stretches is blank. */
  ghost predicate Spread(a: seq<Cell>, lines: seq<Text>)
    decreases |lines|
  {
    if lines == [] then a == []
    else exists k ::
      && 0 <= k <= |a|
      && Spread(a[..k], lines[..|lines| - 1]) && Trails(a[k..], Cells(Plain, lines[|lines| - 1]))
  }

  lemma SpreadLine(a: seq<Cell>, lines: seq<Text>, b: seq<Cell>, line: Text)
    requires Spread(a, lines) && Trails(b, Cells(Plain, line))
    ensures Spread(a + b, lines + [line])
  {
    hide Cells, Trails;
    assert (a + b)[..|a|] == a && (a + b)[|a|..] == b;
    assert (lines + [line])[..|lines|] == lines;
  }

  lemma {:induction false} SpreadConcat(a: seq<Cell>, first: seq<Text>, b: seq<Cell>, second: seq<Text>)
    requires Spread(a, first) && Spread(b, second)
    ensures Spread(a + b, first + second)
    decreases |second|
  {
    hide Cells, Trails;
    if second == [] {
      assert a + b == a && first + second == first;
    } else {
      var front, last := second[..|second| - 1], second[|second| - 1];
      var k :| 0 <= k <= |b| && Spread(b[..k], front) && Trails(b[k..], Cells(Plain, last));
      SpreadConcat(a, first, b[..k], front);
      SpreadLine(a + b[..k], first + front, b[k..], last);
      assert a + b == a + b[..k] + b[k..] && first + second == first + front + [last];
    }
  }

  /** The characters that are not blank. */
  function NonBlank(cells: seq<Cell>): seq<Cell> {
    if cells == [] then []
    else
      var last := cells[|cells| - 1];
      NonBlank(cells[..|cells| - 1]) + (if last.grapheme.blank then [] else [last])
  }

  lemma {:induction false} NonBlankConcat(a: seq<Cell>, b: seq<Cell>)
    ensures NonBlank(a + b) == NonBlank(a) + NonBlank(b)
    decreases |b|
  {
    if b == [] {
      assert a + b == a;
    } else {
      NonBlankConcat(a, b[..|b| - 1]);
      assert (a + b)[..|a + b| - 1] == a + b[..|b| - 1];
    }
  }

  lemma {:induction false} NonBlankTrails(a: seq<Cell>, b: seq<Cell>)
    requires Trails(a, b)
    ensures NonBlank(a) == NonBlank(b)
    decreases |a|
  {
    if a != b {
      NonBlankTrails(a[..|a| - 1], b);
    }
  }

  /** The lines show every character that is not blank, in order and in its style. */
  lemma {:induction false} SpreadKeepsNonBlank(a: seq<Cell>, lines: seq<Text>)
    requires Spread(a, lines)
    ensures NonBlank(LineCells(lines)) == NonBlank(a)
    decreases |lines|
  {
    hide Cells, Trails;
    if lines != [] {
      var n := |lines| - 1;
      var k :| 0 <= k <= |a| && Spread(a[..k], lines[..n]) && Trails(a[k..], Cells(Plain, lines[n]));
      SpreadKeepsNonBlank(a[..k], lines[..n]);
      NonBlankTrails(a[k..], Cells(Plain, lines[n]));
      NonBlankConcat(a[..k], a[k..]);
      NonBlankConcat(LineCells(lines[..n]), Cells(Plain, lines[n]));
      assert a[..k] + a[k..] == a;
    }
  }

  // ----- reading on from another style -----

  /** Reading `t` from style `s` is the same as from a plain style. */
  ghost predicate Restarts(s: Style, t: Text) {
    Cells(s, t) == Cells(Plain, t) && StyleAfter(s, t) == StyleAfter(Plain, t)
  }

  lemma RestartsConcat(s: Style, a: Text, b: Text)
    requires Restarts(s, a)
    ensures Restarts(s, a + b)
  {
    TextConcat(s, a, b);
    TextConcat(Plain, a, b);
  }

  /** A text that first brings a style back can be read from any part of that style. */
  lemma ActiveCodesRestart(t: Style, s: Style, rest: Text)
    requires Reachable(s) && PartOf(t, s)
    ensures Restarts(t, Codes(ActiveCodes(s)) + rest)
    ensures StyleAfter(t, Codes(ActiveCodes(s))) == s
  {
    CodesOnly(t, ActiveCodes(s));
    CodesOnly(Plain, ActiveCodes(s));
    ActiveCodesRestore(t, s);
    ActiveCodesRestore(Plain, s);
    RestartsConcat(t, Codes(ActiveCodes(s)), rest);
  }

  /** Every line can be read on from the line before. */
  ghost predicate Continuous(lines: seq<Text>) {
    forall i :: 0 < i < |lines| ==> Restarts(StyleAfter(Plain, lines[i - 1]), lines[i])
  }

  /** Lines read one after the other show the same as lines read one by one. */
  lemma {:induction false} ContinuousReading(lines: seq<Text>)
    requires Continuous(lines)
    ensures Cells(Plain, Flatten(lines)) == LineCells(lines)
    ensures lines != [] ==> StyleAfter(Plain, Flatten(lines)) == StyleAfter(Plain, lines[|lines| - 1])
    decreases |lines|
  {
    if lines != [] {
      var n := |lines| - 1;
      ContinuousReading(lines[..n]);
      TextConcat(Plain, Flatten(lines[..n]), lines[n]);
      if n > 0 {
        assert lines[..n][n - 1] == lines[n - 1];
        assert Restarts(StyleAfter(Plain, lines[n - 1]), lines[n]);
      }
    }
  }

  // ----- trailing blanks -----

  predicate IsBlankItem(i: Item) { i.G? && i.grapheme.blank }

  /** `trimEnd`: without the blanks at the end; a code stops the trimming. */
  function TrimEnd(t: Text): Text {
    if t != [] && IsBlankItem(t[|t| - 1]) then TrimEnd(t[..|t| - 1]) else t
  }

  lemma {:induction false} TrimEndIsPrefix(t: Text)
    ensures TrimEnd(t) <= t && forall k :: |TrimEnd(t)| <= k < |t| ==> IsBlankItem(t[k])
    ensures TrimEnd(t) != [] ==> !IsBlankItem(TrimEnd(t)[|TrimEnd(t)| - 1])
  {
    if t != [] && IsBlankItem(t[|t| - 1]) {
      TrimEndIsPrefix(t[..|t| - 1]);
    }
  }

  /** Trimming loses blanks at the end and keeps the style. */
  lemma {:induction false} TrimEndTrails(s: Style, t: Text)
    ensures Trails(Cells(s, t), Cells(s, TrimEnd(t)))
    ensures StyleAfter(s, TrimEnd(t)) == StyleAfter(s, t)
    decreases |t|
  {
    if t != [] && IsBlankItem(t[|t| - 1]) {
      TrimEndTrails(s, t[..|t| - 1]);
    }
  }

  lemma {:induction false} TrimEndRestarts(s: Style, t: Text)
    requires Restarts(s, t)
    ensures Restarts(s, TrimEnd(t))
    decreases |t|
  {
    if t != [] && IsBlankItem(t[|t| - 1]) {
      var u := t[..|t| - 1];
      assert Cells(s, t)[..|Cells(s, t)| - 1] == Cells(s, u);
      assert Cells(Plain, t)[..|Cells(Plain, t)| - 1] == Cells(Plain, u);
      TrimEndRestarts(s, u);
    }
  }

  /** The width of a text up to its last character that is not blank. */
  function BodyWidth(t: Text): nat {
    if t == [] then 0
    else if t[|t| - 1].G? && !t[|t| - 1].grapheme.blank then VisibleWidth(t)
    else BodyWidth(t[..|t| - 1])
  }

  /** Every character that is not blank is within the body. */
  lemma {:induction false} BodyWidthCovers(t: Text, i: nat)
    requires i < |t| && t[i].G? && !t[i].grapheme.blank
    ensures VisibleWidth(t[..i + 1]) <= BodyWidth(t)
    decreases |t|
  {
    var n := |t| - 1;
    if i < n {
      BodyWidthCovers(t[..n], i);
      assert t[..n][..i + 1] == t[..i + 1];
      BodyWidthBound(t[..n]);
    } else {
      assert t[..i + 1] == t;
    }
  }

  lemma {:induction false} BodyWidthBound(t: Text)
    ensures BodyWidth(t) <= VisibleWidth(t)
    decreases |t|
  {
    if t != [] {
      BodyWidthBound(t[..|t| - 1]);
    }
  }

  /** Codes and blanks at the end do not count. */
  lemma {:induction false} BodyWidthTail(t: Text, tail: Text)
    requires forall i :: 0 <= i < |tail| ==> tail[i].C? || tail[i].grapheme.blank
    ensures BodyWidth(t + tail) == BodyWidth(t)
    decreases |tail|
  {
    if tail == [] {
      assert t + tail == t;
    } else {
      assert (t + tail)[..|t + tail| - 1] == t + tail[..|tail| - 1];
      BodyWidthTail(t, tail[..|tail| - 1]);
    }
  }

  lemma TrimEndBodyWidth(t: Text)
    ensures BodyWidth(TrimEnd(t)) == BodyWidth(t)
  {
    var r := TrimEnd(t);
    TrimEndIsPrefix(t);
    assert t == r + t[|r|..];
    BodyWidthTail(r, t[|r|..]);
  }
}
