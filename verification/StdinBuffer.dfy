/** The stateful input buffer (packages/tui/src/stdin-buffer.ts): partial sequences wait for
    more input, bracketed pastes become one event, and duplicated Kitty characters are dropped. */
module StdinBuffers {
  import opened Strings
  import opened EscapeSequences
  import opened EscapeSequenceLaws

  const PASTE_START := [ESC] + "[200~"
  const PASTE_END := [ESC] + "[201~"

  datatype Event = Data(sequence: string) | Paste(content: string)

  predicate OccursAt(s: string, p: string, i: nat) {
    i + |p| <= |s| && s[i..i + |p|] == p
  }

  /** The first position of `p` in `s` from `from` on, or -1. */
  function IndexFrom(s: string, p: string, from: nat): (r: int)
    requires from <= |s|
    ensures r == -1 || (from <= r && OccursAt(s, p, r))
    ensures forall k :: from <= k && (r == -1 || k < r) ==> !OccursAt(s, p, k)
    decreases |s| - from
  {
    if OccursAt(s, p, from) then from
    else if from == |s| then -1
    else IndexFrom(s, p, from + 1)
  }

  function IndexOf(s: string, p: string): (r: int)
    ensures r == -1 || (0 <= r && OccursAt(s, p, r))
    ensures forall k: nat :: r == -1 || k < r ==> !OccursAt(s, p, k)
  {
    IndexFrom(s, p, 0)
  }

  predicate IsNewline(c: char) { c == '\r' || c == '\n' }

  /** Two lines of text with newlines between them and no escape: a paste without markers. */
  predicate IsUnmarkedPaste(s: string) {
    && ESC !in s
    && exists i, j :: 0 <= i && i + 1 < j < |s| && IsGap(s, i, j)
  }

  /** Only newlines between the non-newline characters at `i` and `j`. */
  predicate IsGap(s: string, i: nat, j: nat)
    requires i < j < |s|
  {
    !IsNewline(s[i]) && !IsNewline(s[j]) && forall k :: i < k < j ==> IsNewline(s[k])
  }

  function TrimNewlines(s: string): (r: string)
    ensures r <= s && forall k :: |r| <= k < |s| ==> IsNewline(s[k])
    ensures r == "" || !IsNewline(r[|r| - 1])
  {
    if s != "" && IsNewline(s[|s| - 1]) then TrimNewlines(s[..|s| - 1]) else s
  }

  // ----- Kitty characters -----

  /** The code point of an unmodified printable key in the Kitty protocol:
      `ESC [ digits (: digits?)? (: digits)? u`. */
  function KittyCodepoint(sequence: string): Option<nat> {
    if !StartsWith(sequence, [ESC, '[']) || |sequence| < 4 || sequence[|sequence| - 1] != 'u' then None
    else
      var parts := Split(sequence[2..|sequence| - 1], ':');
      if |parts| <= 3 && (forall p :: p in parts ==> AllDigits(p)) && parts[0] != ""
        && (|parts| == 3 ==> parts[2] != "") then
        var codepoint := ParseNat(parts[0]);
        if codepoint >= 32 then Some(codepoint) else None
      else None
  }

  /** The code unit a character stands for: itself, or a surrogate. */
  function UnitOf(c: char): nat {
    if c as int < 0x10000 then c as int else 0xD800 + (c as int - 0x10000) % 0x800
  }

  /** A single character that repeats the Kitty sequence just before it. */
  predicate RepeatsKitty(pending: Option<nat>, sequence: string) {
    |sequence| == 1 && pending == Some(UnitOf(sequence[0]))
  }

  /** The events of a list of sequences, and the Kitty character then awaited. */
  datatype Emission = Emission(pending: Option<nat>, events: seq<Event>)

  function EmitAll(pending: Option<nat>, sequences: seq<string>): Emission
    decreases |sequences|
  {
    if sequences == [] then Emission(pending, [])
    else if RepeatsKitty(pending, sequences[0]) then EmitAll(None, sequences[1..])
    else
      var rest := EmitAll(KittyCodepoint(sequences[0]), sequences[1..]);
      Emission(rest.pending, [Data(sequences[0])] + rest.events)
  }

  // ----- the buffer as a value -----

  datatype State = State(buffer: string, pasteMode: bool, pasteBuffer: string, pending: Option<nat>)

  const Idle := State("", false, "", None)

  datatype Outcome = Outcome(state: State, events: seq<Event>)

  function Prefixed(events: seq<Event>, o: Outcome): Outcome {
    Outcome(o.state, events + o.events)
  }

  /** What is known between calls. */
  ghost predicate Settled(s: State) {
    if s.pasteMode then s.buffer == "" && IndexOf(s.pasteBuffer, PASTE_END) == -1
    else
      && s.pasteBuffer == ""
      && Extract(s.buffer) == Extraction([], s.buffer)
      && IndexOf(s.buffer, PASTE_START) == -1
  }

  /** The end of a paste in `text`: one event, and the rest as new input. */
  function AfterPaste(text: string, pending: Option<nat>): Outcome
    decreases |text|, 0
  {
    var end := IndexOf(text, PASTE_END);
    if end == -1 then Outcome(State("", true, text, pending), [])
    else
      var remaining := text[end + |PASTE_END|..];
      Prefixed([Paste(text[..end])], if remaining == "" then Outcome(Idle, []) else Processed(Idle, remaining))
  }

  /** What one chunk of input does. */
  function Processed(s: State, data: string): Outcome
    decreases |s.buffer| + |s.pasteBuffer| + |data|, 1
  {
    if data == "" && s.buffer == "" then
      var e := EmitAll(s.pending, [""]);
      Outcome(s.(pending := e.pending), e.events)
    else
      var buffer := s.buffer + data;
      if s.pasteMode then AfterPaste(s.pasteBuffer + buffer, s.pending)
      else if IsUnmarkedPaste(buffer) then
        Outcome(State("", false, s.pasteBuffer, None), [Paste(TrimNewlines(buffer))])
      else
        var start := IndexOf(buffer, PASTE_START);
        if start != -1 then
          var before := EmitAll(s.pending, Extract(buffer[..start]).sequences);
          Prefixed(before.events, AfterPaste(buffer[start + |PASTE_START|..], None))
        else
          var result := Extract(buffer);
          var e := EmitAll(s.pending, result.sequences);
          Outcome(State(result.remainder, false, s.pasteBuffer, e.pending), e.events)
  }

  /** A single byte above 127 is an Alt key press: ESC and the character without the high bit. */
  function FromBytes(data: seq<bv8>, decoded: string): string {
    if |data| == 1 && data[0] > 127 then [ESC, (data[0] - 128) as char] else decoded
  }

  // ----- the buffer as an object -----

  class StdinBuffer {
    var buffer: string
    var pasteMode: bool
    var pasteBuffer: string
    var pendingKittyPrintableCodepoint: Option<nat>
    var timeout: bool           // a flush is scheduled
    ghost var log: seq<Event>   // everything emitted so far

    ghost function Value(): State
      reads this
    {
      State(buffer, pasteMode, pasteBuffer, pendingKittyPrintableCodepoint)
    }

    /** A flush is scheduled exactly when a partial sequence waits. */
    ghost predicate Valid()
      reads this
    {
      Settled(Value()) && (timeout <==> buffer != "")
    }

    constructor ()
      ensures Valid() && Value() == Idle && log == []
    {
      buffer, pasteMode, pasteBuffer, pendingKittyPrintableCodepoint := "", false, "", None;
      timeout, log := false, [];
      new;
      EmptyIsSettled(None);
    }

    method EmitDataSequence(sequence: string)
      modifies this`pendingKittyPrintableCodepoint, this`log
      ensures var e := EmitAll(old(pendingKittyPrintableCodepoint), [sequence]);
              pendingKittyPrintableCodepoint == e.pending && log == old(log) + e.events
    {
      assert [sequence][1..] == [];
      if |sequence| == 1 && pendingKittyPrintableCodepoint == Some(UnitOf(sequence[0])) {
        pendingKittyPrintableCodepoint := None;
        return;
      }
      pendingKittyPrintableCodepoint := KittyCodepoint(sequence);
      log := log + [Data(sequence)];
    }

    method EmitDataSequences(sequences: seq<string>)
      modifies this`pendingKittyPrintableCodepoint, this`log
      ensures var e := EmitAll(old(pendingKittyPrintableCodepoint), sequences);
              pendingKittyPrintableCodepoint == e.pending && log == old(log) + e.events
    {
      for i := 0 to |sequences|
        invariant Emission(pendingKittyPrintableCodepoint, log) ==
                  After(old(log), EmitAll(old(pendingKittyPrintableCodepoint), sequences[..i]))
      {
        EmitAllAppend(old(pendingKittyPrintableCodepoint), sequences[..i], [sequences[i]]);
        assert sequences[..i] + [sequences[i]] == sequences[..i + 1];
        EmitDataSequence(sequences[i]);
      }
      assert sequences[..|sequences|] == sequences;
    }

    /** The end of a paste, if it has arrived, and the rest of the input as a new chunk. */
    method FinishPaste()
      requires pasteMode && buffer == "" && !timeout
      modifies this
      ensures Valid()
      ensures var o := AfterPaste(old(pasteBuffer), old(pendingKittyPrintableCodepoint));
              Value() == o.state && log == old(log) + o.events
      decreases |pasteBuffer|, 0
    {
      hide Extract, Processed;
      var endIndex := IndexOf(pasteBuffer, PASTE_END);
      if endIndex != -1 {
        var pastedContent := pasteBuffer[..endIndex];
        var remaining := pasteBuffer[endIndex + |PASTE_END|..];
        pasteMode := false;
        pasteBuffer := "";
        pendingKittyPrintableCodepoint := None;
        log := log + [Paste(pastedContent)];
        EmptyIsSettled(None);
        if |remaining| > 0 {
          Process(remaining);
        }
      }
    }

    method Process(data: string)
      requires Valid()
      modifies this
      ensures Valid()
      ensures var o := Processed(old(Value()), data);
              Value() == o.state && log == old(log) + o.events
      decreases |buffer| + |pasteBuffer| + |data|, 1
    {
      hide AfterPaste, Extract, IsUnmarkedPaste, IndexOf;
      timeout := false;
      if data == "" && buffer == "" {
        EmitDataSequence("");
        return;
      }
      buffer := buffer + data;
      if pasteMode {
        pasteBuffer := pasteBuffer + buffer;
        buffer := "";
        FinishPaste();
        return;
      }
      if IsUnmarkedPaste(buffer) {
        log := log + [Paste(TrimNewlines(buffer))];
        buffer := "";
        pendingKittyPrintableCodepoint := None;
        EmptyIsSettled(None);
        return;
      }
      var startIndex := IndexOf(buffer, PASTE_START);
      if startIndex != -1 {
        StartPaste(startIndex);
        return;
      }
      SplitInput();
    }

    /** Bytes instead of text: `decoded` is the text they are in UTF-8. */
    method ProcessBytes(data: seq<bv8>, decoded: string)
      requires Valid()
      modifies this
      ensures Valid()
      ensures var o := Processed(old(Value()), FromBytes(data, decoded));
              Value() == o.state && log == old(log) + o.events
    {
      Process(FromBytes(data, decoded));
    }

    /** A paste begins: emit what precedes it, and collect it. */
    method StartPaste(startIndex: nat)
      requires !pasteMode && !timeout && OccursAt(buffer, PASTE_START, startIndex)
      modifies this
      ensures Valid()
      ensures var before := EmitAll(old(pendingKittyPrintableCodepoint), Extract(old(buffer)[..startIndex]).sequences);
              var o := AfterPaste(old(buffer)[startIndex + |PASTE_START|..], None);
              Value() == o.state && log == old(log) + (before.events + o.events)
      decreases |buffer| - 1, 1
    {
      hide AfterPaste, EmitAll, Extract, Settled, IndexOf;
      assert buffer[..0] == "";
      NothingToEmit(pendingKittyPrintableCodepoint);
      if startIndex > 0 {
        var result := ExtractCompleteSequences(buffer[..startIndex]);
        EmitDataSequences(result.sequences);
      }
      pendingKittyPrintableCodepoint := None;
      pasteMode := true;
      pasteBuffer := buffer[startIndex + |PASTE_START|..];
      buffer := "";
      FinishPaste();
    }

    /** Ordinary input: emit the whole sequences and keep the rest. */
    method SplitInput()
      requires !pasteMode && pasteBuffer == "" && IndexOf(buffer, PASTE_START) == -1
      modifies this
      ensures Valid()
      ensures var result := Extract(old(buffer));
              var e := EmitAll(old(pendingKittyPrintableCodepoint), result.sequences);
              Value() == State(result.remainder, false, "", e.pending) && log == old(log) + e.events
    {
      var result := ExtractCompleteSequences(buffer);
      RemainderSettled(buffer);
      buffer := result.remainder;
      EmitDataSequences(result.sequences);
      timeout := |buffer| > 0;
    }

    /** Give up waiting for the rest of a partial sequence. */
    method Flush() returns (sequences: seq<string>)
      requires Valid()
      modifies this
      ensures Valid() && !timeout && log == old(log)
      ensures sequences == if old(buffer) == "" then [] else [old(buffer)]
      ensures Value() ==
        old(Value()).(buffer := "", pending := if old(buffer) == "" then old(pendingKittyPrintableCodepoint) else None)
    {
      timeout := false;
      if buffer == "" {
        return [];
      }
      sequences := [buffer];
      buffer := "";
      pendingKittyPrintableCodepoint := None;
    }

    /** The scheduled flush: the partial sequence is emitted as it is. */
    method OnTimeout()
      requires Valid() && timeout
      modifies this
      ensures Valid() && !timeout && buffer == "" && !pasteMode
      ensures log == old(log) + [Data(old(buffer))]
    {
      var flushed := Flush();
      EmitDataSequences(flushed);
    }

    method Clear()
      modifies this
      ensures Valid() && Value() == Idle && log == old(log)
    {
      timeout := false;
      buffer := "";
      pasteMode := false;
      pasteBuffer := "";
      pendingKittyPrintableCodepoint := None;
      EmptyIsSettled(None);
    }
  }

  function After(log: seq<Event>, e: Emission): Emission {
    Emission(e.pending, log + e.events)
  }

  lemma NothingToEmit(pending: Option<nat>)
    ensures EmitAll(pending, Extract("").sequences) == Emission(pending, [])
  {
  }

  lemma EmptyIsSettled(pending: Option<nat>)
    ensures Settled(State("", false, "", pending))
  {
  }

  /** Emitting a list in two parts. */
  lemma {:induction false} EmitAllAppend(pending: Option<nat>, a: seq<string>, b: seq<string>)
    ensures var first := EmitAll(pending, a);
            EmitAll(pending, a + b) == After(first.events, EmitAll(first.pending, b))
    decreases |a|
  {
    if a == [] {
      assert a + b == b;
    } else {
      assert (a + b)[1..] == a[1..] + b;
      EmitAllAppend(if RepeatsKitty(pending, a[0]) then None else KittyCodepoint(a[0]), a[1..], b);
    }
  }

  /** What extraction leaves over is settled, if no paste starts in it. */
  lemma NothingToExtract()
    ensures Extract("") == Extraction([], "")
  {
  }

  lemma RemainderSettled(buffer: string)
    requires IndexOf(buffer, PASTE_START) == -1
    ensures var r := Extract(buffer).remainder;
            Extract(r) == Extraction([], r) && IndexOf(r, PASTE_START) == -1
  {
    hide Extract, Concat, Unfinished, IsKey;
    var r := Extract(buffer).remainder;
    ExtractionIsMinimal(buffer);
    ExtractionIsLossless(buffer);
    NothingToExtract();
    if r != "" {
      RemainderIsStable(r);
    }
    var i := IndexOf(r, PASTE_START);
    var offset := |buffer| - |r|;
    assert buffer[offset..] == r;
    assert i != -1 ==> OccursAt(buffer, PASTE_START, offset + i);
  }
}
