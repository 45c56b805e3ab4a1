/** Splitting terminal input into keys and escape sequences (packages/tui/src/stdin-buffer.ts).
    A character stands for one UTF-16 code unit of the input string; the surrogates, which a Dafny
    character cannot be, are stood for by characters from U+10000 on. */
module EscapeSequences {
  import opened Strings

  const BEL := '\U{07}'

  datatype Status = Complete | Incomplete | NotEscape

  // ----- complete sequences -----

  /** The bytes that end a control sequence, section 5.4 of ECMA-48. */
  predicate IsFinalByte(c: char) { '\U{40}' <= c <= '\U{7E}' }

  /** `<B;X;Y` and `M` or `m`: the payload of an SGR mouse report. */
  predicate IsMousePayload(payload: string) {
    && |payload| >= 2 && payload[0] == '<' && payload[|payload| - 1] in "Mm"
    && var parts := Split(payload[1..|payload| - 1], ';');
       |parts| == 3 && forall p :: p in parts ==> p != "" && AllDigits(p)
  }

  function CsiStatus(data: string): Status
    requires StartsWith(data, [ESC, '['])
  {
    if |data| < 3 then Incomplete
    else
      var payload := data[2..];
      if !IsFinalByte(payload[|payload| - 1]) then Incomplete
      else if payload[0] == '<' && !IsMousePayload(payload) then Incomplete
      else Complete
  }

  /** Whether `data` is a whole escape sequence. */
  function IsCompleteSequence(data: string): Status {
    if |data| == 0 || data[0] != ESC then NotEscape
    else if |data| == 1 then Incomplete
    else if data[1] == '[' then
      if |data| >= 3 && data[2] == 'M' then (if |data| >= 6 then Complete else Incomplete)
      else CsiStatus(data)
    else if data[1] == ']' then
      if EndsWith(data, [ESC, '\\']) || EndsWith(data, [BEL]) then Complete else Incomplete
    else if data[1] == 'P' || data[1] == '_' then
      if EndsWith(data, [ESC, '\\']) then Complete else Incomplete
    else if data[1] == 'O' then
      if |data| >= 3 then Complete else Incomplete
    else Complete
  }

  predicate IsWhole(data: string) { IsCompleteSequence(data) == Status.Complete }

  /** The length of the shortest complete prefix with at least `from` characters. */
  function ShortestComplete(s: string, from: nat): (n: Option<nat>)
    requires from <= |s| + 1
    ensures n.Some? ==> from <= n.value <= |s| && IsWhole(s[..n.value])
    ensures n.Some? ==> forall k :: from <= k < n.value ==> !IsWhole(s[..k])
    ensures n.None? ==> forall k :: from <= k <= |s| ==> !IsWhole(s[..k])
    decreases |s| + 1 - from
  {
    if from == |s| + 1 then None
    else if IsWhole(s[..from]) then Some(from)
    else ShortestComplete(s, from + 1)
  }

  // ----- splitting a buffer -----

  datatype Extraction = Extraction(sequences: seq<string>, remainder: string)

  /** Characters that begin an escape sequence after ESC. */
  predicate StartsSequence(c: char) { c == '[' || c == ']' || c == 'O' || c == 'P' || c == '_' }

  /** An ESC ESC that is followed by the start of a sequence is an Escape key press and the
      sequence, not a meta key. */
  predicate IsLoneEscape(s: string) {
    |s| >= 3 && s[0] == ESC && s[1] == ESC && StartsSequence(s[2])
  }

  /** How many characters the first sequence of `s` has; none if it is not complete. */
  function FirstLength(s: string): (n: Option<nat>)
    requires s != ""
    ensures n.Some? ==> 1 <= n.value <= |s|
  {
    if s[0] != ESC || IsLoneEscape(s) then Some(1) else ShortestComplete(s, 1)
  }

  /** The sequences of a buffer, and what is left of it for later. */
  function Extract(buffer: string): Extraction {
    if buffer == "" then Extraction([], "")
    else
      match FirstLength(buffer)
      case None => Extraction([], buffer)
      case Some(n) =>
        Prepend([buffer[..n]], Extract(buffer[n..]))
  }

  /** The inner loop: the end of the escape sequence at the start of `remaining`, or past the
      end of `remaining` if it is not complete. */
  method FindSequenceEnd(remaining: string) returns (seqEnd: nat)
    requires remaining != "" && remaining[0] == ESC
    ensures ShortestComplete(remaining, 1) == if seqEnd <= |remaining| then Some(seqEnd) else None
  {
    seqEnd := 1;
    while seqEnd <= |remaining|
      invariant 1 <= seqEnd <= |remaining| + 1
      invariant ShortestComplete(remaining, 1) == ShortestComplete(remaining, seqEnd)
    {
      var status := IsCompleteSequence(remaining[..seqEnd]);
      if status == Complete {
        return;
      } else if status == Incomplete {
        seqEnd := seqEnd + 1;
      } else {
        assert false;  // every candidate starts with ESC
      }
    }
  }

  /** One round of the outer loop: how many characters the next sequence takes. */
  method NextLength(remaining: string) returns (n: Option<nat>)
    requires remaining != ""
    ensures n == FirstLength(remaining)
  {
    if remaining[0] != ESC {
      return Some(1);
    }
    var seqEnd := FindSequenceEnd(remaining);
    EscEscIsComplete(remaining);
    if seqEnd > |remaining| {
      return None;
    }
    if remaining[..seqEnd] == [ESC, ESC] && seqEnd < |remaining| && StartsSequence(remaining[seqEnd]) {
      return Some(1);
    }
    return Some(seqEnd);
  }

  /** The scanning loop. */
  method ExtractCompleteSequences(buffer: string) returns (r: Extraction)
    ensures r == Extract(buffer)
  {
    var sequences: seq<string> := [];
    var pos := 0;
    while pos < |buffer|
      invariant 0 <= pos <= |buffer|
      invariant Extract(buffer) == Prepend(sequences, Extract(buffer[pos..]))
    {
      var remaining := buffer[pos..];
      var n := NextLength(remaining);
      if n.None? {
        return Extraction(sequences, remaining);
      }
      assert remaining[n.value..] == buffer[pos + n.value..];
      PrependNext(sequences, remaining[..n.value], Extract(buffer[pos + n.value..]));
      sequences := sequences + [remaining[..n.value]];
      pos := pos + n.value;
    }
    r := Extraction(sequences, "");
  }

  function Prepend(sequences: seq<string>, e: Extraction): Extraction {
    Extraction(sequences + e.sequences, e.remainder)
  }

  lemma PrependNext(sequences: seq<string>, s: string, e: Extraction)
    ensures Prepend(sequences, Prepend([s], e)) == Prepend(sequences + [s], e)
  {
  }

  /** ESC ESC is a complete meta key as soon as it is seen. */
  lemma EscEscIsComplete(s: string)
    requires s != "" && s[0] == ESC
    ensures ShortestComplete(s, 1) == Some(2) || !IsLoneEscape(s)
    ensures IsLoneEscape(s) ==> s[..2] == [ESC, ESC]
    ensures ShortestComplete(s, 1).Some? ==>
      (IsLoneEscape(s) <==> s[..ShortestComplete(s, 1).value] == [ESC, ESC] && |s| > 2 && StartsSequence(s[2]))
  {
    assert s[..1] == [ESC];
    if |s| >= 2 {
      assert s[..2] == [ESC, s[1]];
    }
  }
}
