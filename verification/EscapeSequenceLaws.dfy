/** What splitting promises: nothing is lost, sequences are as short as can be, and the way
    the input was cut into chunks does not matter, with one exact exception. */
module EscapeSequenceLaws {
  import opened Strings
  import opened EscapeSequences

  // ----- one buffer -----

  /** No prefix of `s` is a whole escape sequence. */
  ghost predicate Unfinished(s: string) {
    s != "" && s[0] == ESC && forall k :: 0 <= k <= |s| ==> !IsWhole(s[..k])
  }

  /** A plain character, a lone ESC, or the shortest whole sequence. */
  ghost predicate IsKey(s: string) {
    || (|s| == 1 && s[0] != ESC)
    || s == [ESC]
    || (IsWhole(s) && forall k :: 0 <= k < |s| ==> !IsWhole(s[..k]))
  }

  /** The text an extraction stands for. */
  function Text(e: Extraction): string {
    Concat(e.sequences) + e.remainder
  }

  lemma PrependText(first: string, e: Extraction)
    ensures Text(Prepend([first], e)) == first + Text(e)
  {
    assert ([first] + e.sequences)[1..] == e.sequences;
  }

  /** Splitting loses nothing. */
  lemma {:induction false} ExtractionIsLossless(buffer: string)
    ensures Text(Extract(buffer)) == buffer
    decreases |buffer|
  {
    if buffer != "" && FirstLength(buffer).Some? {
      ExtractionIsLossless(buffer[FirstLength(buffer).value..]);
      FirstTextIsLossless(buffer, FirstLength(buffer).value);
    }
  }

  lemma FirstTextIsLossless(buffer: string, n: nat)
    requires buffer != "" && FirstLength(buffer) == Some(n)
    requires Text(Extract(buffer[n..])) == buffer[n..]
    ensures Text(Extract(buffer)) == buffer
  {
    hide FirstLength, Text;
    PrependText(buffer[..n], Extract(buffer[n..]));
    assert buffer[..n] + buffer[n..] == buffer;
  }

  /** Every piece is a key, and what remains is unfinished. */
  lemma {:induction false} ExtractionIsMinimal(buffer: string)
    ensures forall i :: 0 <= i < |Extract(buffer).sequences| ==> IsKey(Extract(buffer).sequences[i])
    ensures Extract(buffer).remainder == "" || Unfinished(Extract(buffer).remainder)
    decreases |buffer|
  {
    if buffer != "" {
      var n := FirstLength(buffer);
      if n.Some? {
        hide IsKey, Unfinished;
        ExtractionIsMinimal(buffer[n.value..]);
        FirstIsKey(buffer, n.value);
      } else {
        assert !IsWhole(buffer[..0]);
      }
    }
  }

  lemma FirstIsKey(buffer: string, n: nat)
    requires buffer != "" && FirstLength(buffer) == Some(n)
    ensures IsKey(buffer[..n])
  {
    if buffer[0] == ESC && !IsLoneEscape(buffer) {
      forall k | 0 <= k < n
        ensures !IsWhole(buffer[..n][..k])
      {
        assert buffer[..n][..k] == buffer[..k];
        assert k == 0 || !IsWhole(buffer[..k]);
      }
    } else {
      assert buffer[..1] == [buffer[0]];
    }
  }

  /** What remains is split again as it is. */
  lemma RemainderIsStable(s: string)
    requires Unfinished(s)
    ensures Extract(s) == Extraction([], s)
  {
    LoneEscapeCut(s, "");
    assert s + "" == s;
  }

  // ----- two chunks -----

  /** The first chunk ends in an emitted ESC ESC that the second chunk would have split. */
  ghost predicate SplitsEscEsc(a: string, b: string) {
    var e := Extract(a);
    && e.remainder == "" && e.sequences != [] && e.sequences[|e.sequences| - 1] == [ESC, ESC]
    && b != "" && StartsSequence(b[0])
  }

  /** The sequences of two chunks, the second one read after what was left of the first. */
  function ExtractTwice(a: string, b: string): Extraction {
    Prepend(Extract(a).sequences, Extract(Extract(a).remainder + b))
  }

  /** Reading the input in two chunks gives the same as reading it at once, except exactly
      when the cut falls after an ESC ESC and before the start of a sequence. */
  lemma {:induction false} ChunksDoNotMatter(a: string, b: string)
    ensures Extract(a + b) == ExtractTwice(a, b) <==> !SplitsEscEsc(a, b)
    decreases |a|
  {
    if a == "" {
      assert a + b == b;
      assert Prepend([], Extract(b)) == Extract(b);
    } else if FirstLength(a).None? {
      assert Prepend([], Extract(a + b)) == Extract(a + b);
    } else if a == [ESC, ESC] && b != "" && StartsSequence(b[0]) {
      EscEscCut(b);
    } else {
      ChunksDoNotMatter(a[FirstLength(a).value..], b);
      ChunksStep(a, b, FirstLength(a).value);
    }
  }

  lemma ChunksStep(a: string, b: string, n: nat)
    requires a != "" && FirstLength(a) == Some(n)
    requires a == [ESC, ESC] ==> b == "" || !StartsSequence(b[0])
    requires Extract(a[n..] + b) == ExtractTwice(a[n..], b) <==> !SplitsEscEsc(a[n..], b)
    ensures Extract(a + b) == ExtractTwice(a, b) <==> !SplitsEscEsc(a, b)
  {
    var rest := a[n..];
    ExtractTwiceStep(a, b, n);
    ExtractStep(a, b, n);
    PrependInjective([a[..n]], Extract(rest + b), ExtractTwice(rest, b));
    LastSequence(a, n, b);
  }

  lemma ExtractTwiceStep(a: string, b: string, n: nat)
    requires a != "" && FirstLength(a) == Some(n)
    ensures ExtractTwice(a, b) == Prepend([a[..n]], ExtractTwice(a[n..], b))
  {
    var rest := Extract(a[n..]);
    PrependTwice([a[..n]], rest.sequences, Extract(rest.remainder + b));
  }

  lemma ExtractStep(a: string, b: string, n: nat)
    requires a != "" && FirstLength(a) == Some(n)
    requires a == [ESC, ESC] ==> b == "" || !StartsSequence(b[0])
    ensures Extract(a + b) == Prepend([a[..n]], Extract(a[n..] + b))
  {
    hide FirstLength, ShortestComplete;
    FirstLengthStable(a, b);
    assert (a + b)[..n] == a[..n] && (a + b)[n..] == a[n..] + b;
  }

  lemma PrependTwice(first: seq<string>, sequences: seq<string>, e: Extraction)
    ensures Prepend(first + sequences, e) == Prepend(first, Prepend(sequences, e))
  {
    assert (first + sequences) + e.sequences == first + (sequences + e.sequences);
  }

  lemma PrependInjective(first: seq<string>, e: Extraction, f: Extraction)
    ensures Prepend(first, e) == Prepend(first, f) <==> e == f
  {
    if Prepend(first, e) == Prepend(first, f) {
      assert e.sequences == (first + e.sequences)[|first|..] == (first + f.sequences)[|first|..] == f.sequences;
    }
  }

  /** At the cut in question the two readings differ. */
  lemma EscEscCut(b: string)
    requires b != "" && StartsSequence(b[0])
    ensures SplitsEscEsc([ESC, ESC], b)
    ensures Extract([ESC, ESC] + b) != ExtractTwice([ESC, ESC], b)
  {
    var a := [ESC, ESC];
    assert a[..1] == [ESC] && a[..2] == a && a[2..] == "";
    assert FirstLength(a) == Some(2);
    assert Extract(a) == Extraction([a], "");
    assert (a + b)[..1] == [ESC];
    assert FirstLength(a + b) == Some(1);
    assert Extract(a + b).sequences[0] == [ESC];
    assert ExtractTwice(a, b).sequences[0] == a;
  }

  /** More input does not change the first sequence, except to split an ESC ESC. */
  lemma FirstLengthStable(a: string, b: string)
    requires a != "" && FirstLength(a).Some?
    requires a == [ESC, ESC] ==> b == "" || !StartsSequence(b[0])
    ensures FirstLength(a + b) == FirstLength(a)
  {
    var n := FirstLength(a).value;
    if a[0] == ESC && !IsLoneEscape(a) {
      LoneEscapeCut(a, b);
      forall k | 1 <= k <= |a|
        ensures (a + b)[..k] == a[..k]
      {
      }
      var m := ShortestComplete(a + b, 1);
      assert IsWhole((a + b)[..n]);
      assert m.Some? && m.value <= n;
      assert IsWhole(a[..m.value]);
    }
  }

  /** Where an ESC ESC and the start of a sequence can be cut. */
  lemma LoneEscapeCut(a: string, b: string)
    requires a != "" && a[0] == ESC
    ensures IsLoneEscape(a + b) ==>
      || (IsLoneEscape(a) && IsWhole(a[..2]))
      || a == [ESC]
      || (a == [ESC, ESC] && b != "" && StartsSequence(b[0]))
    ensures a == [ESC] ==> FirstLength(a).None?
  {
    if IsLoneEscape(a) {
      assert a[..2] == [ESC, ESC];
    }
    if a == [ESC] {
      assert a[..1] == a;
    }
    assert |a| == 2 && a[1] == ESC ==> a == [ESC, ESC];
  }

  lemma LastSequence(a: string, n: nat, b: string)
    requires a != "" && FirstLength(a) == Some(n)
    requires a == [ESC, ESC] ==> b == "" || !StartsSequence(b[0])
    ensures SplitsEscEsc(a, b) <==> SplitsEscEsc(a[n..], b)
  {
    var e, f := Extract(a), Extract(a[n..]);
    assert e == Prepend([a[..n]], f);
    if f.sequences != [] {
      assert e.sequences[|e.sequences| - 1] == f.sequences[|f.sequences| - 1];
    } else {
      assert a[n..] == "" ==> a[..n] == a;
    }
  }

  // ----- the grammar -----

  /** Where a control sequence ends: an old mouse report after three more characters, an SGR mouse
      report with its payload, and any other sequence at its first final byte. */
  lemma CsiEndsAtFinalByte(s: string, n: nat)
    requires StartsWith(s, [ESC, '[']) && 3 <= n <= |s|
    ensures ShortestComplete(s, 1) == Some(n) <==>
      if s[2] == 'M' then n == 6
      else if s[2] == '<' then IsMousePayload(s[2..n])
      else IsFinalByte(s[n - 1]) && forall k :: 2 <= k < n - 1 ==> !IsFinalByte(s[k])
  {
    hide IsMousePayload, IsCompleteSequence, ShortestComplete;
    forall k | 1 <= k <= |s|
      ensures IsWhole(s[..k]) <==> CsiWhole(s, k)
    {
      CsiPrefix(s, k);
    }
    var m := ShortestComplete(s, 1);
    if s[2] == '<' && m.Some? && IsMousePayload(s[2..n]) {
      assert CsiWhole(s, n) && m.value <= n;
      MousePayloadEnds(s, m.value, n);
    } else if s[2] != '<' && s[2] != 'M' && m == Some(n) {
      forall k | 2 <= k < n - 1
        ensures !IsFinalByte(s[k])
      {
        assert !CsiWhole(s, k + 1);
      }
    }
    if s[2] == 'M' && n > 6 {
      assert CsiWhole(s, 6);
    }
    if CsiWhole(s, n) {
      assert m.Some? && m.value <= n && CsiWhole(s, m.value);
    }
  }

  /** What begins a control string after ESC. */
  predicate IsStringKind(c: char) { c == ']' || c == 'P' || c == '_' }

  /** The two characters of the string terminator, section 8.3.143 of ECMA-48, or, for a command to the
      operating system, BEL, end at `k`. */
  predicate TerminatorEnds(s: string, k: nat)
    requires 2 <= k <= |s| && s[0] == ESC
  {
    (k >= 4 && s[k - 2] == ESC && s[k - 1] == '\\') || (s[1] == ']' && k >= 3 && s[k - 1] == '\U{07}')
  }

  /** A control string, `ESC ]`, `ESC P` or `ESC _`, ends after its first terminator. */
  lemma ControlStringEndsAtTerminator(s: string, n: nat)
    requires 2 <= n <= |s| && s[0] == ESC && IsStringKind(s[1])
    ensures ShortestComplete(s, 1) == Some(n) <==>
      TerminatorEnds(s, n) && forall k :: 2 <= k < n ==> !TerminatorEnds(s, k)
  {
    hide IsCompleteSequence, ShortestComplete, TerminatorEnds;
    forall k | 1 <= k <= |s|
      ensures IsWhole(s[..k]) <==> k >= 2 && TerminatorEnds(s, k)
    {
      StringPrefix(s, k);
    }
    var m := ShortestComplete(s, 1);
    if TerminatorEnds(s, n) {
      assert m.Some? && m.value <= n;
      assert IsWhole(s[..m.value]);
    }
  }

  lemma StringPrefix(s: string, k: nat)
    requires 2 <= |s| && s[0] == ESC && IsStringKind(s[1]) && 1 <= k <= |s|
    ensures IsWhole(s[..k]) <==> k >= 2 && TerminatorEnds(s, k)
  {
    var data := s[..k];
    assert data[0] == ESC && (k >= 2 ==> data[1] == s[1]);
    if k >= 2 {
      LastOfPrefix(s, k);
    }
    hide EndsWith, CsiStatus;
  }

  lemma LastOfPrefix(s: string, k: nat)
    requires 2 <= k <= |s|
    ensures EndsWith(s[..k], [ESC, '\\']) <==> s[k - 2] == ESC && s[k - 1] == '\\'
    ensures EndsWith(s[..k], [BEL]) <==> s[k - 1] == BEL
  {
    assert s[..k][k - 2..] == [s[k - 2], s[k - 1]] && s[..k][k - 1..] == [s[k - 1]];
  }

  /** `ESC O` takes one character more; ESC and any other character are a sequence of two. */
  lemma ShortSequencesEnd(s: string, n: nat)
    requires 2 <= |s| && s[0] == ESC && s[1] != '[' && !IsStringKind(s[1]) && 1 <= n <= |s|
    ensures ShortestComplete(s, 1) == Some(n) <==> n == (if s[1] == 'O' then 3 else 2)
  {
    hide ShortestComplete;
    var end := if s[1] == 'O' then 3 else 2;
    assert forall k :: 1 <= k <= |s| ==> |s[..k]| == k && s[..k][0] == ESC && (k >= 2 ==> s[..k][1] == s[1]);
    var m := ShortestComplete(s, 1);
    if end <= |s| {
      assert IsWhole(s[..end]);
    }
    if m.Some? {
      assert IsWhole(s[..m.value]) && m.value >= end;
    }
  }

  /** Where the first key of `s` ends, told from its characters. */
  predicate KeyEnds(s: string, n: nat)
    requires s != "" && 1 <= n <= |s|
  {
    if s[0] != ESC then n == 1
    else if |s| >= 3 && s[1] == ESC && (s[2] == '[' || s[2] == 'O' || IsStringKind(s[2])) then n == 1
    else if n == 1 then false
    else if s[1] == '[' then
      && n >= 3
      && if s[2] == 'M' then n == 6
         else if s[2] == '<' then IsMousePayload(s[2..n])
         else '@' <= s[n - 1] <= '~' && forall k :: 2 <= k < n - 1 ==> !('@' <= s[k] <= '~')
    else if IsStringKind(s[1]) then TerminatorEnds(s, n) && forall k :: 2 <= k < n ==> !TerminatorEnds(s, k)
    else n == (if s[1] == 'O' then 3 else 2)
  }

  /** The first piece of a buffer is what its characters say, whatever follows. */
  lemma FirstKeyEnds(s: string, n: nat)
    requires s != "" && 1 <= n <= |s|
    ensures FirstLength(s) == Some(n) <==> KeyEnds(s, n)
    ensures FirstLength(s) == Some(n) ==>
      Extract(s).sequences != [] && Extract(s).sequences[0] == s[..n] && Extract(s) ==
        Prepend([s[..n]], Extract(s[n..]))
  {
    hide ShortestComplete, IsMousePayload, TerminatorEnds, Extract;
    if s[0] == ESC && !IsLoneEscape(s) {
      AtLeastTwo(s);
      if |s| == 1 {
        assert n == 1;
      } else if s[1] == '[' {
        CsiAtLeastThree(s);
        if n >= 3 { CsiEndsAtFinalByte(s, n); }
      } else if IsStringKind(s[1]) {
        if n >= 2 { ControlStringEndsAtTerminator(s, n); }
      } else {
        ShortSequencesEnd(s, n);
      }
    }
    if FirstLength(s) == Some(n) {
      ExtractFirst(s, n);
    }
  }

  lemma ExtractFirst(s: string, n: nat)
    requires s != "" && FirstLength(s) == Some(n)
    ensures Extract(s) == Prepend([s[..n]], Extract(s[n..]))
  {
  }

  lemma AtLeastTwo(s: string)
    requires s != "" && s[0] == ESC
    ensures ShortestComplete(s, 1) != Some(1)
  {
    assert s[..1] == [ESC];
  }

  lemma CsiAtLeastThree(s: string)
    requires |s| >= 2 && s[0] == ESC && s[1] == '['
    ensures ShortestComplete(s, 1) != Some(2) && StartsWith(s, [ESC, '['])
  {
    assert s[..2] == [ESC, '['];
  }

  /** The first `k` characters are a whole control sequence. */
  predicate CsiWhole(s: string, k: nat)
    requires |s| >= 3 && k <= |s|
  {
    && k >= 3
    && if s[2] == 'M' then k >= 6
       else if s[2] == '<' then IsMousePayload(s[2..k])
       else IsFinalByte(s[k - 1])
  }

  lemma CsiPrefix(s: string, k: nat)
    requires StartsWith(s, [ESC, '[']) && |s| >= 3
    requires 1 <= k <= |s|
    ensures IsWhole(s[..k]) <==> CsiWhole(s, k)
  {
    hide Split;
    var data := s[..k];
    if k >= 3 {
      assert data[..2] == s[..2];
      assert data[2..] == s[2..k];
      assert data[2..][|data| - 3] == s[k - 1];
      if s[2] == '<' && IsMousePayload(s[2..k]) { assert s[k - 1] in "Mm"; }
    }
  }

  /** No mouse report is the beginning of another. */
  lemma MousePayloadEnds(s: string, m: nat, n: nat)
    requires 3 <= m <= n <= |s| && IsMousePayload(s[2..m]) && IsMousePayload(s[2..n])
    ensures m == n
  {
    var p, q := s[2..n], s[2..m];
    var parts := MouseParts(p);
    assert q[|q| - 1] == s[m - 1] && q[|q| - 1] in "Mm" by { hide Split; }
    assert |q| >= 2 by { hide Split; }
    hide IsMousePayload, AllDigits;
    if m < n {
      assert p[m - 3] == s[m - 1];
      InsideMouseReport(p, parts, m - 3);
    }
  }

  lemma InsideMouseReport(p: string, parts: seq<string>, i: nat)
    requires |parts| == 3 && forall k :: 0 <= k < 3 ==> AllDigits(parts[k])
    requires |p| >= 2 && p == "<" + parts[0] + ";" + parts[1] + ";" + parts[2] + [p[|p| - 1]]
    requires 1 <= i < |p| - 1
    ensures IsDigit(p[i]) || p[i] == ';'
  {
    var a, b := |parts[0]|, |parts[1]|;
    if i < a + 1 {
      assert p[i] == parts[0][i - 1];
    } else if a + 1 < i < a + b + 2 {
      assert p[i] == parts[1][i - a - 2];
    } else if i > a + b + 2 {
      assert p[i] == parts[2][i - a - b - 3];
    }
  }

  /** The payload test accepts exactly `<`, three numbers separated by `;`, and `M` or `m`. */
  lemma MousePayloadShape(payload: string)
    ensures IsMousePayload(payload) <==>
            exists b, x, y: string, c :: IsMouseReport(payload, b, x, y, c)
  {
    if IsMousePayload(payload) {
      var parts := MouseParts(payload);
      assert IsMouseReport(payload, parts[0], parts[1], parts[2], payload[|payload| - 1]);
    }
    if exists b, x, y: string, c :: IsMouseReport(payload, b, x, y, c) {
      var b, x, y: string, c :| IsMouseReport(payload, b, x, y, c);
      var body := payload[1..|payload| - 1];
      assert body == b + (";" + (x + (";" + y)));
      SplitFirst(b, x + (";" + y), ';');
      SplitFirst(x, y, ';');
      SplitPlain(y, ';');
      assert Split(body, ';') == [b, x, y];
    }
  }

  lemma MouseParts(payload: string) returns (parts: seq<string>)
    requires IsMousePayload(payload)
    ensures |parts| == 3
    ensures forall i :: 0 <= i < 3 ==> parts[i] != "" && AllDigits(parts[i])
    ensures payload == "<" + parts[0] + ";" + parts[1] + ";" + parts[2] + [payload[|payload| - 1]]
  {
    hide Split;
    var body := payload[1..|payload| - 1];
    parts := Split(body, ';');
    SplitJoins(body, ';');
    assert parts[1..][1..] == [parts[2]];
    assert Join(parts[1..], ';') == parts[1] + ([';'] + parts[2]);
    assert body == parts[0] + (";" + (parts[1] + (";" + parts[2])));
    assert payload == "<" + body + [payload[|payload| - 1]];
    assert "<" + body == "<" + parts[0] + ";" + parts[1] + ";" + parts[2];
    assert parts[0] in parts && parts[1] in parts && parts[2] in parts;
  }

  ghost predicate IsMouseReport(payload: string, b: string, x: string, y: string, c: char) {
    && b != "" && x != "" && y != "" && AllDigits(b) && AllDigits(x) && AllDigits(y)
    && (c == 'M' || c == 'm')
    && payload == "<" + b + ";" + x + ";" + y + [c]
  }
}
