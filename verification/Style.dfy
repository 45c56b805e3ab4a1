/** Text styles (packages/tui/src/utils.ts): how SGR codes (section 8.3.117 of ECMA-48) and
    OSC 8 hyperlinks change the active style, and which codes bring a style back. */
module Style {
  import opened Strings

  /** An escape code: SGR with its parameters, a hyperlink (closing one if the url is empty),
      or one that does not affect the style. */
  datatype Code =
    | Sgr(params: seq<string>)
    | Link(hyperlink: Hyperlink)
    | Other(text: string)

  /** `bel` tells the BEL terminator from ESC backslash. */
  datatype Hyperlink = Hyperlink(params: string, url: string, bel: bool)

  /** A color is the parameters that select it. */
  type Color = seq<string>

  datatype Flags = Flags(
    bold: bool, dim: bool, italic: bool, underline: bool, blink: bool, inverse: bool,
    hidden: bool, strikethrough: bool)

  datatype Style = Style(flags: Flags, fg: Option<Color>, bg: Option<Color>, link: Option<Hyperlink>)

  const NoFlags := Flags(false, false, false, false, false, false, false, false)

  const Plain := Style(NoFlags, None, None, None)

  /** An SGR reset does not affect the hyperlink. */
  function ResetSgr(s: Style): Style {
    Plain.(link := s.link)
  }

  /** `Number.parseInt` on a parameter, which is digits or empty. */
  function ParamValue(param: string): int {
    if param == "" || !AllDigits(param) then -1 else ParseNat(param)
  }

  /** The SGR parameters that turn an attribute on, attribute by attribute. */
  function FlagOn(f: Flags, code: int): Flags {
    Flags(
      f.bold || code == 1, f.dim || code == 2, f.italic || code == 3, f.underline || code == 4,
      f.blink || code == 5, f.inverse || code == 7, f.hidden || code == 8, f.strikethrough || code == 9)
  }

  /** The SGR parameters that turn attributes off; some terminals read 21 as not bold. */
  function FlagOff(f: Flags, code: int): Flags {
    Flags(
      f.bold && code != 21 && code != 22, f.dim && code != 22, f.italic && code != 23, f.underline && code != 24,
      f.blink && code != 25, f.inverse && code != 27, f.hidden && code != 28, f.strikethrough && code != 29)
  }

  /** One standard SGR parameter. */
  function ApplyAttribute(s: Style, code: int): Style {
    if code == 0 then ResetSgr(s)
    else if code == 39 then s.(fg := None)
    else if code == 49 then s.(bg := None)
    else if IsStandardFg(code) then s.(fg := Some([Decimal(code)]))
    else if IsStandardBg(code) then s.(bg := Some([Decimal(code)]))
    else s.(flags := if code < 20 then FlagOn(s.flags, code) else FlagOff(s.flags, code))
  }

  predicate IsStandardFg(code: int) { 30 <= code <= 37 || 90 <= code <= 97 }

  predicate IsStandardBg(code: int) { 40 <= code <= 47 || 100 <= code <= 107 }

  /** How many parameters an extended color takes at the head of `params`: 3 for `38;5;N`,
      5 for `38;2;R;G;B`, and 0 if it is not one. */
  function ExtendedLength(params: seq<string>): (n: nat)
    ensures n <= |params|
  {
    if |params| >= 3 && params[1] == "5" then 3
    else if |params| >= 5 && params[1] == "2" then 5
    else 0
  }

  function SetExtended(s: Style, code: int, color: Color): Style {
    if code == 38 then s.(fg := Some(color)) else s.(bg := Some(color))
  }

  /** The parameters of an SGR code, from left to right. */
  function ApplyParams(s: Style, params: seq<string>): Style
    decreases |params|
  {
    if params == [] then s
    else
      var code := ParamValue(params[0]);
      var n := ExtendedLength(params);
      if (code == 38 || code == 48) && n > 0 then
        ApplyParams(SetExtended(s, code, params[..n]), params[n..])
      else
        ApplyParams(ApplyAttribute(s, code), params[1..])
  }

  /** One escape code. */
  function Apply(s: Style, code: Code): Style {
    match code
    case Sgr(params) =>
      if params == [""] || params == ["0"] then ResetSgr(s) else ApplyParams(s, params)
    case Link(h) => s.(link := if h.url == "" then None else Some(h))
    case Other(_) => s
  }

  function ApplyAll(s: Style, codes: seq<Code>): Style
    decreases |codes|
  {
    if codes == [] then s else ApplyAll(Apply(s, codes[0]), codes[1..])
  }

  /** A parameter that is present only if `on`. */
  function Flag(on: bool, param: string): seq<string> {
    if on then [param] else []
  }

  function ColorParams(c: Option<Color>): seq<string> {
    if c.Some? then c.value else []
  }

  function FlagParams(f: Flags, rest: seq<string>): seq<string> {
    Flag(f.bold, "1") + (Flag(f.dim, "2") + (Flag(f.italic, "3") + (Flag(f.underline, "4") + LastFlagParams(f, rest))))
  }

  function LastFlagParams(f: Flags, rest: seq<string>): seq<string> {
    Flag(f.blink, "5") + (Flag(f.inverse, "7") + (Flag(f.hidden, "8") + (Flag(f.strikethrough, "9") + rest)))
  }

  /** All SGR parameters of a style. */
  function SgrParams(s: Style): seq<string> {
    FlagParams(s.flags, ColorParams(s.fg) + ColorParams(s.bg))
  }

  /** The codes that bring a style back. */
  function ActiveCodes(s: Style): seq<Code> {
    (if SgrParams(s) != [] then [Sgr(SgrParams(s))] else [])
    + (if s.link.Some? then [Link(s.link.value)] else [])
  }

  /** The codes that end a line: underline and hyperlink must not reach into the padding. */
  function LineEndReset(s: Style): seq<Code> {
    (if s.flags.underline then [Sgr(["24"])] else [])
    + (if s.link.Some? then [Link(Hyperlink("", "", s.link.value.bel))] else [])
  }

  // ----- the tracker -----

  /** The stateful form, one field an attribute. */
  class AnsiCodeTracker {
    var bold: bool
    var dim: bool
    var italic: bool
    var underline: bool
    var blink: bool
    var inverse: bool
    var hidden: bool
    var strikethrough: bool
    var fgColor: Option<Color>
    var bgColor: Option<Color>
    var activeHyperlink: Option<Hyperlink>

    function State(): Style
      reads this
    {
      Style(Flags(bold, dim, italic, underline, blink, inverse, hidden, strikethrough), fgColor, bgColor,
        activeHyperlink)
    }

    constructor ()
      ensures State() == Plain
    {
      bold, dim, italic, underline, blink := false, false, false, false, false;
      inverse, hidden, strikethrough := false, false, false;
      fgColor, bgColor, activeHyperlink := None, None, None;
    }

    method Reset()
      modifies this
      ensures State() == ResetSgr(old(State()))
    {
      bold, dim, italic, underline, blink := false, false, false, false, false;
      inverse, hidden, strikethrough := false, false, false;
      fgColor, bgColor := None, None;
    }

    method Clear()
      modifies this
      ensures State() == Plain
    {
      Reset();
      activeHyperlink := None;
    }

    method TurnOn(code: int)
      modifies this
      ensures State() == old(State()).(flags := FlagOn(old(State()).flags, code))
    {
      if code == 1 { bold := true; }
      else if code == 2 { dim := true; }
      else if code == 3 { italic := true; }
      else if code == 4 { underline := true; }
      else if code == 5 { blink := true; }
      else if code == 7 { inverse := true; }
      else if code == 8 { hidden := true; }
      else if code == 9 { strikethrough := true; }
    }

    method TurnOff(code: int)
      modifies this
      ensures State() == old(State()).(flags := FlagOff(old(State()).flags, code))
    {
      if code == 21 { bold := false; }
      else if code == 22 { bold := false; dim := false; }
      else if code == 23 { italic := false; }
      else if code == 24 { underline := false; }
      else if code == 25 { blink := false; }
      else if code == 27 { inverse := false; }
      else if code == 28 { hidden := false; }
      else if code == 29 { strikethrough := false; }
    }

    /** One standard SGR parameter. */
    method ProcessAttribute(code: int)
      modifies this
      ensures State() == ApplyAttribute(old(State()), code)
    {
      hide FlagOn, FlagOff, Decimal;
      if code == 0 { Reset(); }
      else if code == 39 { fgColor := None; }
      else if code == 49 { bgColor := None; }
      else if IsStandardFg(code) { fgColor := Some([Decimal(code)]); }
      else if IsStandardBg(code) { bgColor := Some([Decimal(code)]); }
      else if code < 20 { TurnOn(code); }
      else { TurnOff(code); }
    }

    method Process(code: Code)
      modifies this
      ensures State() == Apply(old(State()), code)
    {
      match code
      case Link(h) =>
        activeHyperlink := if h.url == "" then None else Some(h);
      case Other(_) =>
      case Sgr(parts) =>
        if parts == [""] || parts == ["0"] {
          Reset();
          return;
        }
        var i := 0;
        while i < |parts|
          invariant 0 <= i <= |parts|
          invariant ApplyParams(State(), parts[i..]) == ApplyParams(old(State()), parts)
        {
          var value := ParamValue(parts[i]);
          var rest := parts[i..];
          var n := ExtendedLength(rest);
          if (value == 38 || value == 48) && n > 0 {
            if value == 38 {
              fgColor := Some(rest[..n]);
            } else {
              bgColor := Some(rest[..n]);
            }
            assert rest[n..] == parts[i + n..];
            i := i + n;
          } else {
            assert rest[1..] == parts[i + 1..];
            ProcessAttribute(value);
            i := i + 1;
          }
        }
    }
  }

  // ----- printing and parsing undo each other -----

  /** Colors the tracker can hold. */
  predicate IsColor(c: Color, extended: int) {
    || (|c| == 3 && ParamValue(c[0]) == extended && c[1] == "5")
    || (|c| == 5 && ParamValue(c[0]) == extended && c[1] == "2")
    || (|c| == 1 && IsStandardColor(c[0], extended))
  }

  predicate IsStandardColor(param: string, extended: int) {
    var code := ParamValue(param);
    (if extended == 38 then IsStandardFg(code) else IsStandardBg(code)) && param == Decimal(code)
  }

  /** Styles the tracker can be in. */
  predicate Reachable(s: Style) {
    && (s.fg.Some? ==> IsColor(s.fg.value, 38))
    && (s.bg.Some? ==> IsColor(s.bg.value, 48))
    && (s.link.Some? ==> s.link.value.url != "")
  }

  predicate FlagsWithin(f: Flags, g: Flags) {
    && (f.bold ==> g.bold) && (f.dim ==> g.dim) && (f.italic ==> g.italic) && (f.underline ==> g.underline)
    && (f.blink ==> g.blink) && (f.inverse ==> g.inverse) && (f.hidden ==> g.hidden)
    && (f.strikethrough ==> g.strikethrough)
  }

  /** `t` is `s` with some attributes off. */
  predicate PartOf(t: Style, s: Style) {
    && FlagsWithin(t.flags, s.flags)
    && (t.fg.Some? ==> t.fg == s.fg) && (t.bg.Some? ==> t.bg == s.bg) && (t.link.Some? ==> t.link == s.link)
  }

  lemma DecimalIsColor(code: nat, extended: int)
    requires extended == 38 || extended == 48
    requires if extended == 38 then IsStandardFg(code) else IsStandardBg(code)
    ensures IsColor([Decimal(code)], extended)
  {
    ParseDecimal(code);
  }

  lemma ExtendedIsColor(params: seq<string>, code: int)
    requires params != [] && ParamValue(params[0]) == code && ExtendedLength(params) > 0
    ensures IsColor(params[..ExtendedLength(params)], code)
  {
  }

  lemma AttributeKeepsReachable(s: Style, code: int)
    requires Reachable(s)
    ensures Reachable(ApplyAttribute(s, code))
  {
    hide Decimal, IsColor, FlagOn, FlagOff;
    if IsStandardFg(code) {
      DecimalIsColor(code, 38);
    } else if IsStandardBg(code) {
      DecimalIsColor(code, 48);
    }
  }

  lemma {:induction false} ParamsKeepReachable(s: Style, params: seq<string>)
    requires Reachable(s)
    ensures Reachable(ApplyParams(s, params))
    decreases |params|
  {
    hide ApplyAttribute, IsColor, ExtendedLength, ParamValue;
    if params != [] {
      var code := ParamValue(params[0]);
      var n := ExtendedLength(params);
      if (code == 38 || code == 48) && n > 0 {
        ExtendedIsColor(params, code);
        ParamsKeepReachable(SetExtended(s, code, params[..n]), params[n..]);
      } else {
        AttributeKeepsReachable(s, code);
        ParamsKeepReachable(ApplyAttribute(s, code), params[1..]);
      }
    }
  }

  /** Every code leads from a reachable style to a reachable one. */
  lemma ApplyKeepsReachable(s: Style, code: Code)
    requires Reachable(s)
    ensures Reachable(Apply(s, code))
  {
    if code.Sgr? {
      ParamsKeepReachable(s, code.params);
    }
  }

  /** One flag at the head of the parameters: from `f` to `g`. */
  lemma ApplyFlag(s: Style, on: bool, param: string, code: int, f: Flags, g: Flags, rest: seq<string>)
    requires ParamValue(param) == code && 0 < code < 10
    requires g == if on then FlagOn(f, code) else f
    ensures ApplyParams(s.(flags := f), Flag(on, param) + rest) == ApplyParams(s.(flags := g), rest)
  {
    hide FlagOn, FlagOff, Decimal, ParamValue;
    if on {
      assert ([param] + rest)[1..] == rest;
    } else {
      assert [] + rest == rest;
    }
  }

  /** One color at the head of the parameters. */
  lemma ApplyColor(s: Style, c: Option<Color>, extended: int, rest: seq<string>)
    requires extended == 38 || extended == 48
    requires c.Some? ==> IsColor(c.value, extended)
    ensures ApplyParams(s, ColorParams(c) + rest) ==
            ApplyParams(if c.None? then s else SetExtended(s, extended, c.value), rest)
  {
    if c.None? {
      assert [] + rest == rest;
    } else if |c.value| == 1 {
      StandardColor(s, c.value[0], extended);
      assert (c.value + rest)[1..] == rest && c.value == [c.value[0]];
    } else {
      assert (c.value + rest)[..|c.value|] == c.value && (c.value + rest)[|c.value|..] == rest;
      assert (c.value + rest)[0] == c.value[0] && (c.value + rest)[1] == c.value[1];
    }
  }

  lemma StandardColor(s: Style, param: string, extended: int)
    requires extended == 38 || extended == 48
    requires IsStandardColor(param, extended)
    ensures ParamValue(param) != 38 && ParamValue(param) != 48
    ensures ApplyAttribute(s, ParamValue(param)) == SetExtended(s, extended, [param])
  {
  }

  /** The flags of `f` printed first set them all, on top of any part of them. */
  lemma ApplyFlags(t: Style, f: Flags, rest: seq<string>)
    requires FlagsWithin(t.flags, f)
    ensures ApplyParams(t, FlagParams(f, rest)) == ApplyParams(t.(flags := f), rest)
  {
    hide ApplyParams, Flag;
    ApplyFirstFlags(t, t.flags, f, LastFlagParams(f, rest));
    ApplyLastFlags(t, FirstFlags(t.flags, f), f, rest);
  }

  /** `f` up to underline and `g` from blink on. */
  function FirstFlags(g: Flags, f: Flags): Flags {
    g.(bold := f.bold, dim := f.dim, italic := f.italic, underline := f.underline)
  }

  lemma ApplyFirstFlags(t: Style, g: Flags, f: Flags, rest: seq<string>)
    requires FlagsWithin(g, f)
    ensures ApplyParams(t.(flags := g),
      Flag(f.bold, "1") + (Flag(f.dim, "2") + (Flag(f.italic, "3") + (Flag(f.underline, "4") + rest)))) ==
            ApplyParams(t.(flags := FirstFlags(g, f)), rest)
  {
    hide ApplyParams, ParamValue, Flag;
    FlagValues();
    var f2 := g.(bold := f.bold, dim := f.dim);
    ApplyBoldDim(t, g, f, Flag(f.italic, "3") + (Flag(f.underline, "4") + rest));
    ApplyFlag(t, f.italic, "3", 3, f2, f2.(italic := f.italic), Flag(f.underline, "4") + rest);
    ApplyFlag(t, f.underline, "4", 4, f2.(italic := f.italic), FirstFlags(g, f), rest);
  }

  lemma ApplyBoldDim(t: Style, g: Flags, f: Flags, rest: seq<string>)
    requires FlagsWithin(g, f)
    ensures ApplyParams(t.(flags := g), Flag(f.bold, "1") + (Flag(f.dim, "2") + rest)) ==
            ApplyParams(t.(flags := g.(bold := f.bold, dim := f.dim)), rest)
  {
    hide ApplyParams, ParamValue, Flag;
    FlagValues();
    ApplyFlag(t, f.bold, "1", 1, g, g.(bold := f.bold), Flag(f.dim, "2") + rest);
    ApplyFlag(t, f.dim, "2", 2, g.(bold := f.bold), g.(bold := f.bold, dim := f.dim), rest);
  }

  lemma ApplyLastFlags(t: Style, g: Flags, f: Flags, rest: seq<string>)
    requires FlagsWithin(g, f) && FirstFlags(g, f) == g
    ensures ApplyParams(t.(flags := g), LastFlagParams(f, rest)) == ApplyParams(t.(flags := f), rest)
  {
    hide ApplyParams, ParamValue, Flag;
    FlagValues();
    var r7 := Flag(f.hidden, "8") + (Flag(f.strikethrough, "9") + rest);
    var f5 := g.(blink := f.blink);
    var f6 := f5.(inverse := f.inverse);
    ApplyFlag(t, f.blink, "5", 5, g, f5, Flag(f.inverse, "7") + r7);
    ApplyFlag(t, f.inverse, "7", 7, f5, f6, r7);
    ApplyFlag(t, f.hidden, "8", 8, f6, f6.(hidden := f.hidden), Flag(f.strikethrough, "9") + rest);
    ApplyFlag(t, f.strikethrough, "9", 9, f6.(hidden := f.hidden), f, rest);
  }

  lemma FlagValues()
    ensures ParamValue("1") == 1 && ParamValue("2") == 2 && ParamValue("3") == 3 && ParamValue("4") == 4
    ensures ParamValue("5") == 5 && ParamValue("7") == 7 && ParamValue("8") == 8 && ParamValue("9") == 9
    ensures ParamValue("0") == 0 && ParamValue("24") == 24
  {
    assert "1"[..0] == "" && "2"[..0] == "" && "3"[..0] == "" && "4"[..0] == "" && "5"[..0] == "";
    assert "7"[..0] == "" && "8"[..0] == "" && "9"[..0] == "" && "0"[..0] == "";
    assert "24"[..1] == "2";
  }

  /** The SGR parameters of a style restore everything but the hyperlink. */
  lemma SgrParamsRestore(t: Style, s: Style)
    requires Reachable(s) && PartOf(t, s)
    ensures ApplyParams(t, SgrParams(s)) == s.(link := t.link)
  {
    hide IsColor, FlagParams, FlagsWithin;
    var u := t.(flags := s.flags);
    ApplyFlags(t, s.flags, ColorParams(s.fg) + ColorParams(s.bg));
    ApplyColor(u, s.fg, 38, ColorParams(s.bg));
    ApplyColor(u.(fg := s.fg), s.bg, 48, []);
    assert ColorParams(s.bg) + [] == ColorParams(s.bg);
  }

  /** Printing a style and reading it back restores it, from a plain style or from any part of
      the style that is still active. */
  lemma ActiveCodesRestore(t: Style, s: Style)
    requires Reachable(s) && PartOf(t, s)
    ensures ApplyAll(t, ActiveCodes(s)) == s
  {
    hide SgrParams, PartOf, ApplyParams, IsColor;
    SgrParamsRestore(t, s);
    NotAReset(s);
    NoParams(t, s);
    ApplyAllTwo(t, ActiveCodes(s));
  }

  lemma NoParams(t: Style, s: Style)
    ensures SgrParams(s) == [] ==> ApplyParams(t, SgrParams(s)) == t
    ensures PartOf(t, s) && s.link.None? ==> t.link.None?
  {
  }

  lemma ApplyAllOne(s: Style, code: Code)
    ensures ApplyAll(s, [code]) == Apply(s, code)
  {
    assert [code][1..] == [];
  }

  lemma ApplyAllTwo(s: Style, codes: seq<Code>)
    requires |codes| <= 2
    ensures ApplyAll(s, codes) ==
            if codes == [] then s
            else if |codes| == 1 then Apply(s, codes[0]) else Apply(Apply(s, codes[0]), codes[1])
  {
    hide Apply;
    if |codes| == 2 {
      assert codes[1..] == [codes[1]];
      ApplyAllOne(Apply(s, codes[0]), codes[1]);
    } else if |codes| == 1 {
      assert codes == [codes[0]];
      ApplyAllOne(s, codes[0]);
    }
  }

  /** The printed parameters are never taken for a reset. */
  lemma NotAReset(s: Style)
    requires Reachable(s)
    ensures SgrParams(s) != [""] && SgrParams(s) != ["0"]
  {
    FlagValues();
    var p := SgrParams(s);
    if |p| == 1 {
      assert p[0] == "1" || p[0] == "2" || p[0] == "3" || p[0] == "4" || p[0] == "5" || p[0] == "7" || p[0] == "8"
          || p[0] == "9" || ColorParams(s.fg) == p || ColorParams(s.bg) == p;
    }
  }

  /** A style without underline and hyperlink. */
  function Closed(s: Style): Style {
    s.(flags := s.flags.(underline := false), link := None)
  }

  /** The line end closes underline and hyperlink, and leaves the rest on. */
  lemma LineEndResetCloses(s: Style)
    ensures ApplyAll(s, LineEndReset(s)) == Closed(s)
    ensures PartOf(Closed(s), s)
  {
    FlagValues();
    assert ["24"][1..] == [];
    assert Apply(s, Sgr(["24"])) == s.(flags := s.flags.(underline := false));
    ApplyAllTwo(s, LineEndReset(s));
  }

  // ----- what each code does, field by field -----

  /** A single parameter, from 0 on: each attribute, and what turns it on and off. */
  lemma SgrAttributes(s: Style, n: nat)
    ensures var f, g := Apply(s, Sgr([Decimal(n)])).flags, s.flags;
      && f.bold == (n == 1 || (g.bold && n != 0 && n != 21 && n != 22))
      && f.dim == (n == 2 || (g.dim && n != 0 && n != 22))
      && f.italic == (n == 3 || (g.italic && n != 0 && n != 23))
      && f.underline == (n == 4 || (g.underline && n != 0 && n != 24))
  {
    OneParameter(s, n);
    hide Decimal, Apply;
  }

  lemma MoreSgrAttributes(s: Style, n: nat)
    ensures var f, g := Apply(s, Sgr([Decimal(n)])).flags, s.flags;
      && f.blink == (n == 5 || (g.blink && n != 0 && n != 25))
      && f.inverse == (n == 7 || (g.inverse && n != 0 && n != 27))
      && f.hidden == (n == 8 || (g.hidden && n != 0 && n != 28))
      && f.strikethrough == (n == 9 || (g.strikethrough && n != 0 && n != 29))
  {
    OneParameter(s, n);
    hide Decimal, Apply;
  }

  /** A single parameter: the colors, and that the hyperlink stays. */
  lemma SgrColors(s: Style, n: nat)
    ensures var t := Apply(s, Sgr([Decimal(n)]));
      && t.fg == (if 30 <= n <= 37 || 90 <= n <= 97 then Some([Decimal(n)])
                  else if n == 0 || n == 39 then None else s.fg)
      && t.bg == (if 40 <= n <= 47 || 100 <= n <= 107 then Some([Decimal(n)])
                  else if n == 0 || n == 49 then None else s.bg)
      && t.link == s.link
  {
    OneParameter(s, n);
    hide Decimal, Apply, FlagOn, FlagOff;
  }

  lemma OneParameter(s: Style, n: nat)
    ensures Apply(s, Sgr([Decimal(n)])) == ApplyAttribute(s, n)
  {
    ParseDecimal(n);
    FlagValues();
    hide FlagOn, FlagOff;
    assert [Decimal(n)][1..] == [];
    assert ApplyParams(ApplyAttribute(s, n), []) == ApplyAttribute(s, n);
    if [Decimal(n)] == ["0"] {
      assert Decimal(n) == "0";
    }
  }

  /** A code and the one that undoes it, and nothing else. */
  lemma BoldAndDimUndone(s: Style)
    ensures ApplyAll(s, [Sgr(["1"]), Sgr(["21"])]) == s.(flags := s.flags.(bold := false))
    ensures ApplyAll(s, [Sgr(["1"]), Sgr(["22"])]) == s.(flags := s.flags.(bold := false, dim := false))
    ensures ApplyAll(s, [Sgr(["2"]), Sgr(["22"])]) == s.(flags := s.flags.(bold := false, dim := false))
  {
    hide ApplyAll;
    AttributeUndone(s, 1, 21, "1", "21", s.flags.(bold := false));
    AttributeUndone(s, 1, 22, "1", "22", s.flags.(bold := false, dim := false));
    AttributeUndone(s, 2, 22, "2", "22", s.flags.(bold := false, dim := false));
  }

  lemma ItalicAndUnderlineUndone(s: Style)
    ensures ApplyAll(s, [Sgr(["3"]), Sgr(["23"])]) == s.(flags := s.flags.(italic := false))
    ensures ApplyAll(s, [Sgr(["4"]), Sgr(["24"])]) == s.(flags := s.flags.(underline := false))
  {
    hide ApplyAll;
    AttributeUndone(s, 3, 23, "3", "23", s.flags.(italic := false));
    AttributeUndone(s, 4, 24, "4", "24", s.flags.(underline := false));
  }

  lemma BlinkAndInverseUndone(s: Style)
    ensures ApplyAll(s, [Sgr(["5"]), Sgr(["25"])]) == s.(flags := s.flags.(blink := false))
    ensures ApplyAll(s, [Sgr(["7"]), Sgr(["27"])]) == s.(flags := s.flags.(inverse := false))
  {
    hide ApplyAll;
    AttributeUndone(s, 5, 25, "5", "25", s.flags.(blink := false));
    AttributeUndone(s, 7, 27, "7", "27", s.flags.(inverse := false));
  }

  lemma HiddenAndStrikethroughUndone(s: Style)
    ensures ApplyAll(s, [Sgr(["8"]), Sgr(["28"])]) == s.(flags := s.flags.(hidden := false))
    ensures ApplyAll(s, [Sgr(["9"]), Sgr(["29"])]) == s.(flags := s.flags.(strikethrough := false))
  {
    hide ApplyAll;
    AttributeUndone(s, 8, 28, "8", "28", s.flags.(hidden := false));
    AttributeUndone(s, 9, 29, "9", "29", s.flags.(strikethrough := false));
  }

  lemma AttributeUndone(s: Style, on: nat, off: nat, onParam: string, offParam: string, f: Flags)
    requires 0 < on < 20 < off < 30 && Decimal(on) == onParam && Decimal(off) == offParam
    requires FlagOff(FlagOn(s.flags, on), off) == f
    ensures ApplyAll(s, [Sgr([onParam]), Sgr([offParam])]) == s.(flags := f)
  {
    CodesUndo(s, on, off);
    hide Decimal, FlagOn, FlagOff, ApplyAll;
  }

  /** Every foreground color is undone by 39 and every background color by 49, whatever the other one is. */
  lemma ColorsUndo(s: Style, n: nat)
    ensures 30 <= n <= 37 || 90 <= n <= 97 ==>
      && Apply(s, Sgr([Decimal(n)])) == s.(fg := Some([Decimal(n)]))
      && ApplyAll(s, [Sgr([Decimal(n)]), Sgr(["39"])]) == s.(fg := None)
    ensures 40 <= n <= 47 || 100 <= n <= 107 ==>
      && Apply(s, Sgr([Decimal(n)])) == s.(bg := Some([Decimal(n)]))
      && ApplyAll(s, [Sgr([Decimal(n)]), Sgr(["49"])]) == s.(bg := None)
  {
    assert Decimal(39) == "39" && Decimal(49) == "49";
    hide Decimal;
    CodesUndo(s, n, 39);
    CodesUndo(s, n, 49);
    OneParameter(s, n);
  }

  lemma CodesUndo(s: Style, on: nat, off: nat)
    ensures ApplyAll(s, [Sgr([Decimal(on)]), Sgr([Decimal(off)])]) ==
      ApplyAttribute(ApplyAttribute(s, on), off)
  {
    OneParameter(s, on);
    OneParameter(ApplyAttribute(s, on), off);
    hide Decimal, ApplyAttribute, Apply;
    ApplyAllTwo(s, [Sgr([Decimal(on)]), Sgr([Decimal(off)])]);
  }

  /** The parameters of one code are read from left to right; an extended color is one of them. */
  lemma ParametersInOrder(s: Style, n: nat, rest: seq<string>)
    requires n != 38 && n != 48 && rest != []
    ensures Apply(s, Sgr([Decimal(n)] + rest)) == ApplyParams(Apply(s, Sgr([Decimal(n)])), rest)
  {
    OneParameter(s, n);
    ParseDecimal(n);
    assert ([Decimal(n)] + rest)[1..] == rest;
  }

  lemma ExtendedColors(s: Style, i: string, r: string, g: string, b: string, rest: seq<string>)
    ensures Apply(s, Sgr(["38", "5", i] + rest)) == ApplyParams(s.(fg := Some(["38", "5", i])), rest)
    ensures Apply(s, Sgr(["48", "5", i] + rest)) == ApplyParams(s.(bg := Some(["48", "5", i])), rest)
    ensures Apply(s, Sgr(["38", "2", r, g, b] + rest)) == ApplyParams(s.(fg := Some(["38", "2", r, g, b])), rest)
    ensures Apply(s, Sgr(["48", "2", r, g, b] + rest)) == ApplyParams(s.(bg := Some(["48", "2", r, g, b])), rest)
  {
    ExtendedValues();
    Extended(s, 38, ["38", "5", i], rest);
    Extended(s, 48, ["48", "5", i], rest);
    Extended(s, 38, ["38", "2", r, g, b], rest);
    Extended(s, 48, ["48", "2", r, g, b], rest);
  }

  lemma ExtendedValues()
    ensures ParamValue("38") == 38 && ParamValue("48") == 48
  {
    assert "38"[..1] == "3" && "48"[..1] == "4" && "3"[..0] == "" && "4"[..0] == "";
  }

  lemma Extended(s: Style, code: int, color: Color, rest: seq<string>)
    requires code == 38 || code == 48
    requires (|color| == 3 && color[1] == "5") || (|color| == 5 && color[1] == "2")
    requires ParamValue(color[0]) == code
    ensures Apply(s, Sgr(color + rest)) ==
      ApplyParams(if code == 38 then s.(fg := Some(color)) else s.(bg := Some(color)), rest)
  {
    hide ParamValue;
    var all := color + rest;
    assert all[..|color|] == color && all[|color|..] == rest;
  }
}
