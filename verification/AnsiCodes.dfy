/** Escape codes as text (packages/tui/src/utils.ts): finding them, reading what they mean, and
    printing a style so that reading it back gives the same style. */
module AnsiCodes {
  import opened Strings
  import opened Style

  const BEL := '\U{07}'

  // ----- finding a code -----

  /** The first `m`, `G`, `K`, `H` or `J` from `j` on ends a control sequence. */
  function CsiEnd(s: string, j: nat): (n: Option<nat>)
    ensures n.Some? ==> j < n.value <= |s|
    decreases |s| - j
  {
    if j >= |s| then None
    else if s[j] in "mGKHJ" then Some(j + 1)
    else CsiEnd(s, j + 1)
  }

  /** The first BEL or ESC backslash from `j` on ends a command string. */
  function StringEnd(s: string, j: nat): (n: Option<nat>)
    ensures n.Some? ==> j < n.value <= |s|
    decreases |s| - j
  {
    if j >= |s| then None
    else if s[j] == BEL then Some(j + 1)
    else if s[j] == ESC && j + 1 < |s| && s[j + 1] == '\\' then Some(j + 2)
    else StringEnd(s, j + 1)
  }

  /** The length of the escape code at the head of `s`. */
  function ExtractAnsiCode(s: string): (n: Option<nat>)
    ensures n.Some? ==> 2 < n.value <= |s|
  {
    if |s| < 2 || s[0] != ESC then None
    else if s[1] == '[' then CsiEnd(s, 2)
    else if s[1] == ']' || s[1] == '_' then StringEnd(s, 2)
    else None
  }

  // ----- reading a code -----

  const OSC8 := [ESC] + "]8;"

  predicate IsParam(c: char) { IsDigit(c) || c == ';' }

  /** How many characters at the end of `s` are parameters. */
  function ParamsLength(s: string): (n: nat)
    ensures n <= |s| && forall k :: |s| - n <= k < |s| ==> IsParam(s[k])
    ensures n < |s| ==> !IsParam(s[|s| - n - 1])
  {
    if s != "" && IsParam(s[|s| - 1]) then 1 + ParamsLength(s[..|s| - 1]) else 0
  }

  /** The part of a hyperlink code between `8;` and the terminator. */
  function LinkBody(code: string): string
    requires |code| >= 6
  {
    code[4..if code[|code| - 1] == BEL then |code| - 1 else |code| - 2]
  }

  /** The first separator of a hyperlink body. */
  function Separator(body: string): (n: Option<nat>)
    ensures n.Some? ==> n.value < |body| && body[n.value] == ';' && ';' !in body[..n.value]
  {
    if body == "" then None
    else if body[0] == ';' then Some(0)
    else
      var n := Separator(body[1..]);
      if n.None? then None
      else
        assert body[..n.value + 1] == [body[0]] + body[1..][..n.value];
        Some(n.value + 1)
  }

  /** What an extracted code means to the tracker. */
  function ParseCode(code: string): Code {
    if StartsWith(code, OSC8) && |code| >= 6 && Separator(LinkBody(code)).Some? then
      var body := LinkBody(code);
      var n := Separator(body).value;
      Link(Hyperlink(body[..n], body[n + 1..], code[|code| - 1] == BEL))
    else if code == "" || code[|code| - 1] != 'm' then Other(code)
    else
      var head := code[..|code| - 1];
      var n := ParamsLength(head);
      if EndsWith(head[..|head| - n], [ESC, '[']) then Sgr(Split(head[|head| - n..], ';')) else Other(code)
  }

  /** `updateTrackerFromText`: the style after a text. */
  function Track(s: Style, text: string): Style
    decreases |text|
  {
    if text == "" then s
    else
      match ExtractAnsiCode(text)
      case Some(n) => Track(Apply(s, ParseCode(text[..n])), text[n..])
      case None => Track(s, text[1..])
  }

  // ----- printing a code -----

  function FormatHyperlink(h: Hyperlink): string {
    OSC8 + h.params + ";" + h.url + (if h.bel then [BEL] else [ESC, '\\'])
  }

  function FormatCode(code: Code): string
    requires code.Sgr? ==> code.params != []
  {
    match code
    case Sgr(params) => [ESC, '['] + Join(params, ';') + "m"
    case Link(h) => FormatHyperlink(h)
    case Other(text) => text
  }

  /** `getActiveCodes`. */
  function FormatStyle(s: Style): string {
    (if SgrParams(s) != [] then FormatCode(Sgr(SgrParams(s))) else "")
    + (if s.link.Some? then FormatHyperlink(s.link.value) else "")
  }

  // ----- codes that can be printed and read back -----

  /** Parameters are digits. */
  predicate AreParams(params: seq<string>) { forall i :: 0 <= i < |params| ==> AllDigits(params[i]) }

  /** The printed hyperlink ends where it should, and its parameters hold no separator. */
  predicate IsPlainLink(h: Hyperlink) {
    ';' !in h.params && StringEnd(FormatHyperlink(h), 2) == Some(|FormatHyperlink(h)|)
  }

  predicate IsPlainCode(code: Code) {
    match code
    case Sgr(params) => AreParams(params)
    case Link(h) => IsPlainLink(h)
    case Other(_) => true
  }

  /** A style made of such codes. */
  predicate Printable(s: Style) {
    && Reachable(s)
    && (s.fg.Some? ==> AreParams(s.fg.value)) && (s.bg.Some? ==> AreParams(s.bg.value))
    && (s.link.Some? ==> IsPlainLink(s.link.value))
  }

  // ----- what is found -----

  predicate EndsControl(c: char) { c == 'm' || c == 'G' || c == 'K' || c == 'H' || c == 'J' }

  /** BEL, or ESC and a backslash. */
  predicate StopsAt(s: string, j: nat)
    requires j < |s|
  {
    s[j] == '\U{07}' || (s[j] == '\U{1B}' && j + 1 < |s| && s[j + 1] == '\\')
  }

  lemma {:induction false} CsiEndIsFirst(s: string, j: nat, n: nat)
    requires j < n <= |s|
    ensures CsiEnd(s, j) == Some(n) <==> EndsControl(s[n - 1]) && forall k :: j <= k < n - 1 ==> !EndsControl(s[k])
    decreases |s| - j
  {
    if j + 1 < n {
      CsiEndIsFirst(s, j + 1, n);
    }
  }

  lemma {:induction false} StringEndIsFirst(s: string, j: nat, i: nat)
    requires j <= i < |s| && StopsAt(s, i) && forall k :: j <= k < i ==> !StopsAt(s, k)
    ensures StringEnd(s, j) == Some(if s[i] == '\U{07}' then i + 1 else i + 2)
    decreases |s| - j
  {
    if j < i {
      assert !StopsAt(s, j);
      StringEndIsFirst(s, j + 1, i);
    }
  }

  lemma {:induction false} NoStringEnd(s: string, j: nat)
    requires forall k :: j <= k < |s| ==> !StopsAt(s, k)
    ensures StringEnd(s, j) == None
    decreases |s| - j
  {
    if j < |s| {
      assert !StopsAt(s, j);
      NoStringEnd(s, j + 1);
    }
  }

  lemma {:induction false} NoCsiEnd(s: string, j: nat)
    requires forall k :: j <= k < |s| ==> !EndsControl(s[k])
    ensures CsiEnd(s, j) == None
    decreases |s| - j
  {
    if j < |s| {
      NoCsiEnd(s, j + 1);
    }
  }

  /** A control sequence is found up to the first of its five final characters. */
  lemma ControlsAreFound(s: string, n: nat)
    requires |s| >= 2 && s[0] == '\U{1B}' && s[1] == '[' && 2 < n <= |s|
    ensures ExtractAnsiCode(s) == Some(n) <==>
      EndsControl(s[n - 1]) && forall k :: 2 <= k < n - 1 ==> !EndsControl(s[k])
    ensures ExtractAnsiCode(s) == None <==> forall k :: 2 <= k < |s| ==> !EndsControl(s[k])
  {
    CsiEndIsFirst(s, 2, n);
    if forall k :: 2 <= k < |s| ==> !EndsControl(s[k]) {
      NoCsiEnd(s, 2);
    } else if ExtractAnsiCode(s).None? {
      var k := FirstFinal(s, 2);
      CsiEndIsFirst(s, 2, k + 1);
    }
  }

  lemma {:induction false} FirstFinal(s: string, j: nat) returns (i: nat)
    requires exists k :: j <= k < |s| && EndsControl(s[k])
    ensures j <= i < |s| && EndsControl(s[i]) && forall k :: j <= k < i ==> !EndsControl(s[k])
    decreases |s| - j
  {
    if EndsControl(s[j]) { i := j; } else { i := FirstFinal(s, j + 1); }
  }

  /** A command string, `ESC ]` or `ESC _`, is found up to its first terminator; nothing else is a code. */
  lemma StringsAreFound(s: string, i: nat)
    requires |s| >= 2 && s[0] == '\U{1B}' && (s[1] == ']' || s[1] == '_')
    ensures 2 <= i < |s| && StopsAt(s, i) && (forall k :: 2 <= k < i ==> !StopsAt(s, k)) ==>
      ExtractAnsiCode(s) == Some(if s[i] == '\U{07}' then i + 1 else i + 2)
    ensures (forall k :: 2 <= k < |s| ==> !StopsAt(s, k)) ==> ExtractAnsiCode(s) == None
  {
    if 2 <= i < |s| && StopsAt(s, i) && forall k :: 2 <= k < i ==> !StopsAt(s, k) {
      StringEndIsFirst(s, 2, i);
    }
    if forall k :: 2 <= k < |s| ==> !StopsAt(s, k) {
      NoStringEnd(s, 2);
    }
  }

  lemma NothingElseIsFound(s: string)
    requires |s| < 2 || s[0] != '\U{1B}' || (s[1] != '[' && s[1] != ']' && s[1] != '_')
    ensures ExtractAnsiCode(s) == None
  {
  }

  // ----- scanning past a printed code -----

  lemma {:induction false} CsiEndSkips(s: string, j: nat, k: nat)
    requires j <= k <= |s| && forall i :: j <= i < k ==> s[i] !in "mGKHJ"
    ensures CsiEnd(s, j) == CsiEnd(s, k)
    decreases k - j
  {
    if j < k {
      CsiEndSkips(s, j + 1, k);
    }
  }

  lemma {:induction false} StringEndStable(s: string, rest: string, j: nat)
    requires StringEnd(s, j).Some?
    ensures StringEnd(s + rest, j) == StringEnd(s, j)
    decreases |s| - j
  {
    if s[j] != BEL && !(s[j] == ESC && j + 1 < |s| && s[j + 1] == '\\') {
      StringEndStable(s, rest, j + 1);
    }
  }

  lemma {:induction false} JoinedParams(params: seq<string>)
    requires params != [] && AreParams(params)
    ensures forall k :: 0 <= k < |Join(params, ';')| ==> IsParam(Join(params, ';')[k])
    ensures Split(Join(params, ';'), ';') == params
    decreases |params|
  {
    if |params| == 1 {
      SplitPlain(params[0], ';');
    } else {
      JoinedParams(params[1..]);
      SplitFirst(params[0], Join(params[1..], ';'), ';');
    }
  }

  lemma SgrIsFound(body: string, rest: string)
    requires forall k :: 0 <= k < |body| ==> IsParam(body[k])
    ensures ExtractAnsiCode([ESC, '['] + body + "m" + rest) == Some(|body| + 3)
  {
    var s := [ESC, '['] + body + "m" + rest;
    var n := |body| + 2;
    forall i | 2 <= i < n
      ensures s[i] !in "mGKHJ"
    {
      assert s[i] == body[i - 2];
    }
    CsiEndSkips(s, 2, n);
  }

  lemma SgrIsRead(body: string)
    requires forall k :: 0 <= k < |body| ==> IsParam(body[k])
    ensures ParseCode([ESC, '['] + body + "m") == Sgr(Split(body, ';'))
  {
    hide Split, IsParam;
    var t := [ESC, '['] + body + "m";
    assert !StartsWith(t, OSC8) by {
      assert t[1] == '[' && OSC8[1] == ']';
    }
    var head := t[..|t| - 1];
    assert head == [ESC, '['] + body;
    assert !IsParam('[') by { Bracket(); }
    ParamsLengthOf([ESC, '['], body);
    assert head[..|head| - |body|] == [ESC, '['] && head[|head| - |body|..] == body;
  }

  lemma Bracket()
    ensures !IsParam('[')
  {
  }

  /** An SGR code that was printed is found again and read as it was. */
  lemma SgrReadsBack(params: seq<string>, rest: string)
    requires params != [] && AreParams(params)
    ensures var t := FormatCode(Sgr(params));
            ExtractAnsiCode(t + rest) == Some(|t|) && ParseCode(t) == Sgr(params)
  {
    hide ParseCode, ExtractAnsiCode, Split, Join, AreParams;
    JoinedParams(params);
    SgrIsFound(Join(params, ';'), rest);
    SgrIsRead(Join(params, ';'));
  }

  lemma {:induction false} ParamsLengthOf(head: string, body: string)
    requires head != "" && !IsParam(head[|head| - 1])
    requires forall k :: 0 <= k < |body| ==> IsParam(body[k])
    ensures ParamsLength(head + body) == |body|
    decreases |body|
  {
    if body == "" {
      assert head + body == head;
    } else {
      assert (head + body)[..|head + body| - 1] == head + body[..|body| - 1];
      ParamsLengthOf(head, body[..|body| - 1]);
    }
  }

  /** A hyperlink that was printed is found again and read as it was. */
  lemma LinkReadsBack(h: Hyperlink, rest: string)
    requires IsPlainLink(h)
    ensures var t := FormatHyperlink(h);
            ExtractAnsiCode(t + rest) == Some(|t|) && ParseCode(t) == Link(h)
  {
    var t := FormatHyperlink(h);
    var body := h.params + ";" + h.url;
    assert t == OSC8 + body + (if h.bel then [BEL] else [ESC, '\\']);
    StringEndStable(t, rest, 2);
    assert t[|t| - 1] == BEL <==> h.bel;
    assert LinkBody(t) == body;
    SeparatorOf(h.params, h.url);
    assert body[..|h.params|] == h.params && body[|h.params| + 1..] == h.url;
    assert t[..|OSC8|] == OSC8;
  }

  lemma {:induction false} SeparatorOf(params: string, url: string)
    requires ';' !in params
    ensures Separator(params + ";" + url) == Some(|params|)
    decreases |params|
  {
    var body := params + ";" + url;
    if params != "" {
      assert body[1..] == params[1..] + ";" + url;
      SeparatorOf(params[1..], url);
    }
  }

  // ----- every extracted code is plain -----

  lemma {:induction false} SplitParams(s: string)
    requires forall k :: 0 <= k < |s| ==> IsParam(s[k])
    ensures AreParams(Split(s, ';'))
    decreases |s|
  {
    if s != "" {
      SplitParams(s[1..]);
    }
  }

  /** The code at the head of a text, cut out of it, still ends at its end. */
  lemma {:induction false} StringEndCut(s: string, j: nat)
    requires StringEnd(s, j).Some?
    ensures StringEnd(s[..StringEnd(s, j).value], j) == StringEnd(s, j)
    decreases |s| - j
  {
    if s[j] != BEL && !(s[j] == ESC && j + 1 < |s| && s[j + 1] == '\\') {
      StringEndCut(s, j + 1);
    }
  }

  lemma {:induction false} StringEndKind(s: string, j: nat)
    requires StringEnd(s, j).Some?
    ensures var n := StringEnd(s, j).value;
            s[n - 1] == BEL || (n >= j + 2 && s[n - 2] == ESC && s[n - 1] == '\\')
    decreases |s| - j
  {
    if s[j] != BEL && !(s[j] == ESC && j + 1 < |s| && s[j + 1] == '\\') {
      StringEndKind(s, j + 1);
    }
  }

  lemma ExtractedIsPlain(text: string)
    requires ExtractAnsiCode(text).Some?
    ensures IsPlainCode(ParseCode(text[..ExtractAnsiCode(text).value]))
  {
    var code := text[..ExtractAnsiCode(text).value];
    match ParseCode(code)
    case Other(_) =>
    case Sgr(params) =>
      var head := code[..|code| - 1];
      SplitParams(head[|head| - ParamsLength(head)..]);
    case Link(h) =>
      assert code[1] == OSC8[1];
      StringEndCut(text, 2);
      StringEndKind(text, 2);
      LinkPrintsBack(code);
  }

  /** A hyperlink code is printed as it was read. */
  lemma LinkCodeParts(code: string)
    requires StartsWith(code, OSC8) && |code| >= 6
    requires code[|code| - 1] == BEL || (code[|code| - 2] == ESC && code[|code| - 1] == '\\')
    ensures code == OSC8 + LinkBody(code) + (if code[|code| - 1] == BEL then [BEL] else [ESC, '\\'])
  {
    assert code[..4] == OSC8;
    assert code == code[..4] + code[4..];
  }

  lemma SeparatedBody(body: string, n: nat)
    requires n < |body| && body[n] == ';'
    ensures body == body[..n] + ";" + body[n + 1..]
  {
  }

  lemma LinkPrintsBack(code: string)
    requires ParseCode(code).Link? && |code| >= 6
    requires code[|code| - 1] == BEL || (code[|code| - 2] == ESC && code[|code| - 1] == '\\')
    ensures FormatHyperlink(ParseCode(code).hyperlink) == code && ';' !in ParseCode(code).hyperlink.params
  {
    hide Separator, Split, ParamsLength, EndsWith, LinkBody, StartsWith;
    var body := LinkBody(code);
    LinkCodeParts(code);
    SeparatedBody(body, Separator(body).value);
    var params, url := ParseCode(code).hyperlink.params, ParseCode(code).hyperlink.url;
    assert OSC8 + params + ";" + url == OSC8 + (params + ";" + url);
  }

  // ----- printable styles -----

  lemma {:induction false} ParamsKeepPrintable(s: Style, params: seq<string>)
    requires Printable(s) && AreParams(params)
    ensures Printable(ApplyParams(s, params))
    decreases |params|
  {
    if params != [] {
      var code := ParamValue(params[0]);
      var n := ExtendedLength(params);
      if (code == 38 || code == 48) && n > 0 {
        ExtendedIsColor(params, code);
        ParamsKeepPrintable(SetExtended(s, code, params[..n]), params[n..]);
      } else {
        AttributeKeepsReachable(s, code);
        AttributeKeepsPrintable(s, code);
        ParamsKeepPrintable(ApplyAttribute(s, code), params[1..]);
      }
    }
  }

  lemma AttributeKeepsPrintable(s: Style, code: int)
    requires Printable(s)
    ensures Printable(ApplyAttribute(s, code))
  {
    AttributeKeepsReachable(s, code);
  }

  lemma ApplyKeepsPrintable(s: Style, code: Code)
    requires Printable(s) && IsPlainCode(code)
    ensures Printable(Apply(s, code))
  {
    if code.Sgr? {
      ParamsKeepPrintable(s, code.params);
    }
  }

  lemma {:induction false} TrackKeepsPrintable(s: Style, text: string)
    requires Printable(s)
    ensures Printable(Track(s, text))
    decreases |text|
  {
    if text != "" {
      match ExtractAnsiCode(text)
      case Some(n) =>
        ExtractedIsPlain(text);
        ApplyKeepsPrintable(s, ParseCode(text[..n]));
        TrackKeepsPrintable(Apply(s, ParseCode(text[..n])), text[n..]);
      case None =>
        TrackKeepsPrintable(s, text[1..]);
    }
  }

  lemma FlagIsParams(on: bool, param: string, rest: seq<string>)
    requires AllDigits(param) && AreParams(rest)
    ensures AreParams(Flag(on, param) + rest)
  {
  }

  lemma PrintableParams(s: Style)
    requires Printable(s)
    ensures AreParams(SgrParams(s))
  {
    hide AreParams, Flag;
    var f := s.flags;
    var colors := ColorParams(s.fg) + ColorParams(s.bg);
    ColorsAreParams(s);
    var r8 := Flag(f.strikethrough, "9") + colors;
    FlagIsParams(f.strikethrough, "9", colors);
    var r7 := Flag(f.hidden, "8") + r8;
    FlagIsParams(f.hidden, "8", r8);
    var r6 := Flag(f.inverse, "7") + r7;
    FlagIsParams(f.inverse, "7", r7);
    var r5 := Flag(f.blink, "5") + r6;
    FlagIsParams(f.blink, "5", r6);
    var r4 := Flag(f.underline, "4") + r5;
    FlagIsParams(f.underline, "4", r5);
    var r3 := Flag(f.italic, "3") + r4;
    FlagIsParams(f.italic, "3", r4);
    var r2 := Flag(f.dim, "2") + r3;
    FlagIsParams(f.dim, "2", r3);
    FlagIsParams(f.bold, "1", r2);
  }

  lemma ColorsAreParams(s: Style)
    requires Printable(s)
    ensures AreParams(ColorParams(s.fg) + ColorParams(s.bg))
  {
  }

  /** One printed code, and then the rest of the text. */
  lemma TrackCode(s: Style, t: string, code: Code, rest: string)
    requires ExtractAnsiCode(t + rest) == Some(|t|) && ParseCode(t) == code
    ensures Track(s, t + rest) == Track(Apply(s, code), rest)
  {
    assert (t + rest)[..|t|] == t && (t + rest)[|t|..] == rest;
  }

  /** A printable style, printed and read back from a plain style or from any part of it. */
  lemma FormatStyleRestores(t: Style, s: Style)
    requires Printable(s) && PartOf(t, s)
    ensures Track(t, FormatStyle(s)) == s
  {
    hide ParseCode, ExtractAnsiCode, FormatHyperlink, SgrParams, Reachable, PartOf, AreParams, IsPlainLink;
    var params := SgrParams(s);
    var link := if s.link.Some? then FormatHyperlink(s.link.value) else "";
    var u := if params != [] then Apply(t, Sgr(params)) else t;
    PrintableParams(s);
    if params != [] {
      SgrReadsBack(params, link);
      TrackCode(t, FormatCode(Sgr(params)), Sgr(params), link);
    } else {
      assert FormatStyle(s) == link;
    }
    assert Track(t, FormatStyle(s)) == Track(u, link);
    if s.link.Some? {
      LinkReadsBack(s.link.value, "");
      TrackCode(u, link, Link(s.link.value), "");
      assert link + "" == link;
    }
    ActiveCodesRestore(t, s);
    ApplyAllTwo(t, ActiveCodes(s));
  }

  /** Whatever the text, printing the style after it and reading that back restores the style:
      attributes, colors, and the hyperlink with its terminator. */
  lemma PrintingAndParsingUndo(text: string)
    ensures var s := Track(Plain, text);
            Track(Plain, FormatStyle(s)) == s && Track(s, FormatStyle(s)) == s
  {
    TrackKeepsPrintable(Plain, text);
    FormatStyleRestores(Plain, Track(Plain, text));
    FormatStyleRestores(Track(Plain, text), Track(Plain, text));
  }
}
