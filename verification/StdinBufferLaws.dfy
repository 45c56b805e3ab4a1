/** What the input buffer promises about input cut into chunks in any way. */
module StdinBufferLaws {
  import opened Strings
  import opened EscapeSequences
  import opened EscapeSequenceLaws
  import opened StdinBuffers

  /** Several chunks of input, one after the other. */
  function Feed(s: State, chunks: seq<string>): Outcome
    decreases |chunks|
  {
    if chunks == [] then Outcome(s, [])
    else
      var o := Processed(s, chunks[0]);
      Prefixed(o.events, Feed(o.state, chunks[1..]))
  }

  ghost predicate NonEmpty(chunks: seq<string>) {
    forall i :: 0 <= i < |chunks| ==> chunks[i] != ""
  }

  /** The chunks cut down to their last `n` characters. */
  function Last(chunks: seq<string>, n: nat): seq<string>
    requires n <= |Concat(chunks)|
    decreases |chunks|
  {
    if chunks == [] then []
    else
      var after := |Concat(chunks[1..])|;
      if n <= after then Last(chunks[1..], n)
      else [Suffix(chunks[0], n - after)] + chunks[1..]
  }

  /** The last `k` characters of `s`. */
  function Suffix(s: string, k: nat): string
    requires k <= |s|
  {
    s[|s| - k..]
  }

  lemma LastFirst(chunks: seq<string>, n: nat)
    requires chunks != [] && n <= |Concat(chunks)|
    ensures var after := |Concat(chunks[1..])|;
            Last(chunks, n) ==
            if n <= after then Last(chunks[1..], n) else [Suffix(chunks[0], n - after)] + chunks[1..]
  {
  }

  lemma SuffixOfSuffix(s: string, t: string, k: nat)
    requires k <= |t| <= |s| && Suffix(s, |t|) == t
    ensures Suffix(s, k) == Suffix(t, k)
  {
    assert Suffix(s, k) == Suffix(s, |t|)[|t| - k..];
  }

  lemma {:induction false} LastIsTail(chunks: seq<string>, n: nat)
    requires NonEmpty(chunks) && n <= |Concat(chunks)|
    ensures Concat(Last(chunks, n)) == Concat(chunks)[|Concat(chunks)| - n..] && NonEmpty(Last(chunks, n))
    decreases |chunks|
  {
    if chunks != [] {
      var after := |Concat(chunks[1..])|;
      if n <= after {
        LastIsTail(chunks[1..], n);
      } else {
        ConcatCons(Suffix(chunks[0], n - after), chunks[1..]);
      }
    }
  }

  // ----- every call -----

  /** Between calls the buffer is settled: in a paste no end marker has been missed, and
      otherwise only an unfinished sequence waits. */
  lemma {:induction false} ProcessedSettles(s: State, data: string)
    requires Settled(s)
    ensures Settled(Processed(s, data).state)
    decreases |s.buffer| + |s.pasteBuffer| + |data|, 1
  {
    if data == "" && s.buffer == "" {
    } else {
      var buffer := s.buffer + data;
      var start := IndexOf(buffer, PASTE_START);
      if s.pasteMode {
        AfterPasteSettles(s.pasteBuffer + buffer, s.pending);
      } else if IsUnmarkedPaste(buffer) {
        EmptyIsSettled(None);
      } else if start != -1 {
        AfterPasteSettles(buffer[start + |PASTE_START|..], None);
      } else {
        RemainderSettled(buffer);
      }
    }
  }

  lemma {:induction false} AfterPasteSettles(text: string, pending: Option<nat>)
    ensures Settled(AfterPaste(text, pending).state)
    decreases |text|, 0
  {
    var end := IndexOf(text, PASTE_END);
    EmptyIsSettled(None);
    if end != -1 && text[end + |PASTE_END|..] != "" {
      ProcessedSettles(Idle, text[end + |PASTE_END|..]);
    }
  }

  // ----- pastes -----

  /** A first occurrence stays the first occurrence when text is appended. */
  lemma IndexOfAppend(s: string, t: string, p: string)
    requires IndexOf(s, p) != -1
    ensures IndexOf(s + t, p) == IndexOf(s, p)
  {
    var i := IndexOf(s, p);
    forall k: nat | k + |p| <= |s|
      ensures OccursAt(s + t, p, k) <==> OccursAt(s, p, k)
    {
      assert (s + t)[k..k + |p|] == s[k..k + |p|];
    }
    assert OccursAt(s + t, p, i);
    var j := IndexOf(s + t, p);
    assert j <= i;
    assert OccursAt(s, p, j);
  }

  /** An occurrence in `s + t` that is not in `s` ends in `t`. */
  lemma IndexOfLate(s: string, t: string, p: string)
    requires IndexOf(s, p) == -1 && IndexOf(s + t, p) != -1
    ensures IndexOf(s + t, p) + |p| > |s|
  {
    var i := IndexOf(s + t, p);
    if i + |p| <= |s| {
      assert (s + t)[i..i + |p|] == s[i..i + |p|];
      assert OccursAt(s, p, i);
    }
  }

  /** What an open paste must come to when its text, so far and in `chunks`, is `text`: one
      paste event with the text up to the first end marker, and the rest as ordinary input. */
  ghost function PasteOutcome(text: string, pending: Option<nat>, chunks: seq<string>): Outcome
    requires IndexOf(text, PASTE_END) != -1 ==>
      |text| <= IndexOf(text, PASTE_END) + |PASTE_END| + |Concat(chunks)|
  {
    var end := IndexOf(text, PASTE_END);
    if end == -1 then Outcome(State("", true, text, pending), [])
    else Prefixed([Paste(text[..end])], Feed(Idle, Last(chunks, |text| - end - |PASTE_END|)))
  }

  /** While a paste is open, it does not matter how the rest of the input is cut. */
  lemma {:induction false} PasteInAnyChunks(s: State, chunks: seq<string>)
    requires Settled(s) && s.pasteMode && NonEmpty(chunks)
    ensures var text := s.pasteBuffer + Concat(chunks);
            && (IndexOf(text, PASTE_END) != -1 ==>
                  |text| <= IndexOf(text, PASTE_END) + |PASTE_END| + |Concat(chunks)|)
            && Feed(s, chunks) == PasteOutcome(text, s.pending, chunks)
    decreases |chunks|
  {
    var text := s.pasteBuffer + Concat(chunks);
    if IndexOf(text, PASTE_END) != -1 {
      IndexOfLate(s.pasteBuffer, Concat(chunks), PASTE_END);
    }
    if chunks == [] {
      assert text == s.pasteBuffer;
    } else {
      var have := s.pasteBuffer + chunks[0];
      assert text == have + Concat(chunks[1..]);
      if IndexOf(have, PASTE_END) == -1 {
        PasteInAnyChunks(State("", true, have, s.pending), chunks[1..]);
        PasteGoesOn(s, chunks);
      } else {
        PasteEnds(s, chunks);
      }
    }
  }

  /** The end marker is not in the first chunk. */
  lemma PasteGoesOn(s: State, chunks: seq<string>)
    requires Settled(s) && s.pasteMode && chunks != [] && chunks[0] != ""
    requires IndexOf(s.pasteBuffer + chunks[0], PASTE_END) == -1
    ensures Feed(s, chunks) == Feed(State("", true, s.pasteBuffer + chunks[0], s.pending), chunks[1..])
  {
    var c := chunks[0];
    assert s.buffer + c == c;
    var next := State("", true, s.pasteBuffer + c, s.pending);
    assert Processed(s, c) == Outcome(next, []);
    NothingBefore(Feed(next, chunks[1..]));
  }

  lemma NothingBefore(o: Outcome)
    ensures Prefixed([], o) == o
  {
  }

  /** The end marker is completed by the first chunk. */
  lemma PasteEnds(s: State, chunks: seq<string>)
    requires Settled(s) && s.pasteMode && chunks != [] && NonEmpty(chunks)
    requires IndexOf(s.pasteBuffer + chunks[0], PASTE_END) != -1
    ensures var text := s.pasteBuffer + Concat(chunks);
            && IndexOf(text, PASTE_END) != -1
            && |text| <= IndexOf(text, PASTE_END) + |PASTE_END| + |Concat(chunks)|
            && Feed(s, chunks) == PasteOutcome(text, s.pending, chunks)
  {
    hide Processed, AfterPaste, Extract, Concat, Last, Feed, IndexOf;
    var c, rest := chunks[0], chunks[1..];
    var have := s.pasteBuffer + c;
    var text := s.pasteBuffer + Concat(chunks);
    ConcatFirst(chunks);
    assert text == have + Concat(rest);
    IndexOfAppend(have, Concat(rest), PASTE_END);
    IndexOfLate(s.pasteBuffer, c, PASTE_END);
    var end := IndexOf(have, PASTE_END);
    var k := |have| - end - |PASTE_END|;
    assert text[..end] == have[..end];
    assert have[end + |PASTE_END|..] == Suffix(c, k);
    ProcessedInPaste(s, c);
    AfterPasteEnds(have, s.pending);
    FeedAfterPaste(s, chunks, k, have[..end]);
  }

  lemma ConcatFirst(chunks: seq<string>)
    requires chunks != []
    ensures Concat(chunks) == chunks[0] + Concat(chunks[1..])
  {
  }

  lemma AfterPasteEnds(text: string, pending: Option<nat>)
    requires IndexOf(text, PASTE_END) != -1
    ensures var end := IndexOf(text, PASTE_END);
            var tail := text[end + |PASTE_END|..];
            AfterPaste(text, pending) ==
            Prefixed([Paste(text[..end])], if tail == "" then Outcome(Idle, []) else Processed(Idle, tail))
  {
  }

  lemma ProcessedInPaste(s: State, c: string)
    requires s.pasteMode && s.buffer == "" && c != ""
    ensures Processed(s, c) == AfterPaste(s.pasteBuffer + c, s.pending)
  {
    assert s.buffer + c == c;
  }

  /** The first chunk ends a paste and leaves its last `k` characters as input. */
  lemma FeedAfterPaste(s: State, chunks: seq<string>, k: nat, content: string)
    requires NonEmpty(chunks) && chunks != [] && k <= |chunks[0]|
    requires var tail := Suffix(chunks[0], k);
             Processed(s, chunks[0]) ==
             Prefixed([Paste(content)], if tail == "" then Outcome(Idle, []) else Processed(Idle, tail))
    ensures k + |Concat(chunks[1..])| <= |Concat(chunks)|
    ensures Feed(s, chunks) == Prefixed([Paste(content)], Feed(Idle, Last(chunks, k + |Concat(chunks[1..])|)))
  {
    hide Processed;
    var c, rest := chunks[0], chunks[1..];
    if k == 0 {
      LastAll(rest);
      assert [Paste(content)] + [] == [Paste(content)];
    } else {
      var all := [Suffix(c, k)] + rest;
      assert Last(chunks, k + |Concat(rest)|) == all;
      assert all[0] == Suffix(c, k) && all[1..] == rest;
      var o := Processed(Idle, all[0]);
      PrefixedTwice([Paste(content)], o.events, Feed(o.state, rest));
    }
  }

  lemma PrefixedTwice(a: seq<Event>, b: seq<Event>, o: Outcome)
    ensures Prefixed(a + b, o) == Prefixed(a, Prefixed(b, o))
  {
    assert a + b + o.events == a + (b + o.events);
  }

  lemma LastAll(chunks: seq<string>)
    requires NonEmpty(chunks)
    ensures Last(chunks, |Concat(chunks)|) == chunks
  {
  }

  /** A start marker arriving in pieces waits, whole or in part. */
  lemma StartMarkerWaits(p: string)
    requires p <= PASTE_START && |p| < |PASTE_START|
    ensures Extract(p) == Extraction([], p) && IndexOf(p, PASTE_START) == -1
  {
    if p != "" {
      forall k | 0 <= k <= |p|
        ensures !IsWhole(p[..k])
      {
        assert p[..k] == PASTE_START[..k];
        MarkerIsUnfinished(k);
      }
      RemainderIsStable(p);
    }
  }

  lemma MarkerIsUnfinished(k: nat)
    requires k < |PASTE_START|
    ensures !IsWhole(PASTE_START[..k])
  {
    if k >= 1 {
      CsiPrefix(PASTE_START, k);
    }
  }

  /** A bracketed paste comes to the same however the input is cut, the markers included: `p` is the
      part of the start marker that has arrived. A Kitty key reported before the paste is forgotten. */
  lemma {:induction false} BracketedPasteInAnyChunks(p: string, pending: Option<nat>, chunks: seq<string>, rest: string)
    requires p <= PASTE_START && |p| < |PASTE_START| && NonEmpty(chunks)
    requires p + Concat(chunks) == PASTE_START + rest
    ensures |rest| <= |Concat(chunks)|
    ensures Feed(State(p, false, "", pending), chunks) == PasteOutcome(rest, None, chunks)
    decreases |chunks|
  {
    assert |p| + |Concat(chunks)| == |PASTE_START + rest|;
    assert chunks != [];
    var b := p + chunks[0];
    assert p + Concat(chunks) == b + Concat(chunks[1..]);
    if |b| < |PASTE_START| {
      assert b == (PASTE_START + rest)[..|b|] == PASTE_START[..|b|];
      MarkerGoesOn(p, pending, chunks);
      BracketedPasteInAnyChunks(b, pending, chunks[1..], rest);
    } else {
      MarkerComplete(p, pending, chunks, rest);
    }
  }

  lemma MarkerGoesOn(p: string, pending: Option<nat>, chunks: seq<string>)
    requires chunks != [] && chunks[0] != "" && p + chunks[0] <= PASTE_START && |p + chunks[0]| < |PASTE_START|
    ensures Feed(State(p, false, "", pending), chunks) == Feed(State(p + chunks[0], false, "", pending), chunks[1..])
  {
    var b := p + chunks[0];
    StartMarkerWaits(b);
    assert b[0] == ESC;
    var next := State(b, false, "", pending);
    assert Processed(State(p, false, "", pending), chunks[0]) == Outcome(next, []);
    NothingBefore(Feed(next, chunks[1..]));
  }

  lemma MarkerComplete(p: string, pending: Option<nat>, chunks: seq<string>, rest: string)
    requires p <= PASTE_START && |p| < |PASTE_START| && NonEmpty(chunks) && chunks != []
    requires p + Concat(chunks) == PASTE_START + rest && |p + chunks[0]| >= |PASTE_START|
    ensures |rest| <= |Concat(chunks)|
    ensures Feed(State(p, false, "", pending), chunks) == PasteOutcome(rest, None, chunks)
  {
    hide Processed, AfterPaste;
    var s := State(p, false, "", pending);
    var c, tail := chunks[0], chunks[1..];
    var have := CutMarker(p, c, Concat(tail), rest);
    assert |p| + |c| == |PASTE_START| + |have|;
    StartProcessed(s, c, have);
    var open := State("", true, "", None);
    OpenIsSettled();
    if have == "" {
      NothingPasted();
      PasteInAnyChunks(open, tail);
      assert "" + Concat(tail) == rest;
      NothingBefore(Feed(open, tail));
    } else {
      var all := [have] + tail;
      assert all[1..] == tail;
      ProcessedInPaste(open, have);
      assert "" + have == have;
      ConcatCons(have, tail);
      PasteInAnyChunks(open, all);
      assert "" + Concat(all) == rest;
      SameOutcome(rest, chunks, all);
    }
  }

  lemma OpenIsSettled()
    ensures Settled(State("", true, "", None))
  {
  }

  lemma NothingPasted()
    ensures AfterPaste("", None) == Outcome(State("", true, "", None), [])
  {
  }

  lemma CutMarker(p: string, c: string, tail: string, rest: string) returns (have: string)
    requires p + (c + tail) == PASTE_START + rest && |p + c| >= |PASTE_START|
    ensures p + c == PASTE_START + have && have + tail == rest
    ensures |p| <= |PASTE_START| ==> |have| <= |c| && Suffix(c, |have|) == have
  {
    have := (p + c)[|PASTE_START|..];
    assert (p + c) + tail == PASTE_START + rest;
    assert (PASTE_START + rest)[|PASTE_START|..] == rest;
    assert ((p + c) + tail)[|PASTE_START|..] == have + tail;
    assert (p + c)[..|PASTE_START|] == (PASTE_START + rest)[..|PASTE_START|];
    assert |p| <= |PASTE_START| ==> (p + c)[|PASTE_START|..] == c[|PASTE_START| - |p|..];
  }

  /** The chunk that completes the start marker opens the paste with the text after it. */
  lemma StartProcessed(s: State, c: string, have: string)
    requires s == State(s.buffer, false, "", s.pending) && c != ""
    requires s.buffer + c == PASTE_START + have
    ensures Processed(s, c) == AfterPaste(have, None)
  {
    var b := s.buffer + c;
    assert b[0] == ESC;
    assert OccursAt(b, PASTE_START, 0);
    assert b[..0] == "" && b[|PASTE_START|..] == have;
    NothingToEmit(s.pending);
    NothingBefore(AfterPaste(have, None));
  }

  /** Chunk lists that differ in how much of the marker they begin with have the same tails. */
  lemma SameOutcome(text: string, chunks: seq<string>, all: seq<string>)
    requires chunks != [] && all != [] && chunks[1..] == all[1..]
    requires |all[0]| <= |chunks[0]| && Suffix(chunks[0], |all[0]|) == all[0]
    requires |text| <= |Concat(all)|
    ensures |Concat(all)| <= |Concat(chunks)|
    ensures PasteOutcome(text, None, chunks) == PasteOutcome(text, None, all)
  {
    hide Feed, Last, Concat, IndexOf;
    SameLast(chunks, all, 0);
    var end := IndexOf(text, PASTE_END);
    if end != -1 {
      SameLast(chunks, all, |text| - end - |PASTE_END|);
    }
  }

  lemma SameLast(chunks: seq<string>, all: seq<string>, n: nat)
    requires chunks != [] && all != [] && chunks[1..] == all[1..]
    requires |all[0]| <= |chunks[0]| && Suffix(chunks[0], |all[0]|) == all[0]
    requires n <= |Concat(all)|
    ensures |Concat(all)| <= |Concat(chunks)| && Last(chunks, n) == Last(all, n)
  {
    hide Concat, Last, Suffix;
    ConcatFirst(chunks);
    ConcatFirst(all);
    LastFirst(chunks, n);
    LastFirst(all, n);
    var after := |Concat(chunks[1..])|;
    if n > after {
      SuffixOfSuffix(chunks[0], all[0], n - after);
    }
  }

  // ----- ordinary input -----

  /** Ordinary input may be cut anywhere but inside an ESC ESC and a following sequence. */
  lemma OrdinaryInputInTwoChunks(s: State, a: string, b: string)
    requires Settled(s) && !s.pasteMode && a != "" && b != ""
    requires var x := s.buffer + a;
             && IndexOf(x + b, PASTE_START) == -1
             && !IsUnmarkedPaste(x) && !IsUnmarkedPaste(x + b)
             && !IsUnmarkedPaste(Extract(x).remainder + b)
    requires !SplitsEscEsc(s.buffer + a, b)
    ensures Feed(s, [a, b]) == Feed(s, [a + b])
  {
    hide Extract, EmitAll, IsUnmarkedPaste, IndexOf, Processed, Feed, SplitsEscEsc;
    var x := s.buffer + a;
    var e := Extract(x);
    var r := e.remainder;
    NoStartInParts(x, b);
    ChunksDoNotMatter(x, b);
    EmitAllAppend(s.pending, e.sequences, Extract(r + b).sequences);
    assert s.buffer + (a + b) == x + b;
    var o := ProcessedPlain(s, a);
    var o2 := ProcessedPlain(o.state, b);
    var o3 := ProcessedPlain(s, a + b);
    FeedTwo(s, a, b);
    FeedOne(s, a + b);
  }

  /** Ordinary chunks: no unmarked paste at any point, and no cut that splits an ESC ESC. */
  ghost predicate OrdinaryCuts(buffer: string, chunks: seq<string>)
    decreases |chunks|
  {
    && !IsUnmarkedPaste(buffer + Concat(chunks))
    && (|chunks| >= 2 ==>
          var x := buffer + chunks[0];
          && !IsUnmarkedPaste(x) && !SplitsEscEsc(x, Concat(chunks[1..]))
          && OrdinaryCuts(Extract(x).remainder, chunks[1..]))
  }

  /** Ordinary input comes to the same in any number of chunks. */
  lemma {:induction false} OrdinaryInputInAnyChunks(s: State, chunks: seq<string>)
    requires Settled(s) && !s.pasteMode && NonEmpty(chunks) && chunks != []
    requires IndexOf(s.buffer + Concat(chunks), PASTE_START) == -1 && OrdinaryCuts(s.buffer, chunks)
    ensures Feed(s, chunks) == Processed(s, Concat(chunks))
    decreases |chunks|
  {
    hide Extract, EmitAll, IsUnmarkedPaste, IndexOf, Processed, SplitsEscEsc, Settled;
    var a, rest := chunks[0], chunks[1..];
    if |chunks| == 1 {
      assert chunks == [a];
      assert Concat(rest) == "" && a + "" == a;
      FeedOne(s, a);
    } else {
      var b := Concat(rest);
      assert b != "" by { assert rest[0] != ""; }
      assert s.buffer + Concat(chunks) == s.buffer + a + b;
      OrdinaryStep(s, a, b);
      OrdinaryInputInAnyChunks(Processed(s, a).state, rest);
    }
  }

  lemma OrdinaryStep(s: State, a: string, b: string)
    requires Settled(s) && !s.pasteMode && a != "" && b != ""
    requires var x := s.buffer + a;
             && IndexOf(x + b, PASTE_START) == -1
             && !IsUnmarkedPaste(x) && !IsUnmarkedPaste(x + b)
             && !IsUnmarkedPaste(Extract(x).remainder + b)
    requires !SplitsEscEsc(s.buffer + a, b)
    ensures var t := Processed(s, a).state;
      && Settled(t) && !t.pasteMode && t.buffer == Extract(s.buffer + a).remainder
      && IndexOf(t.buffer + b, PASTE_START) == -1
      && Prefixed(Processed(s, a).events, Processed(t, b)) == Processed(s, a + b)
  {
    hide Extract, EmitAll, IsUnmarkedPaste, IndexOf, Processed, SplitsEscEsc;
    OrdinaryInputInTwoChunks(s, a, b);
    FeedTwo(s, a, b);
    FeedOne(s, a + b);
    ProcessedSettles(s, a);
    NoStartInParts(s.buffer + a, b);
    var o := ProcessedPlain(s, a);
  }

  lemma FeedOne(s: State, a: string)
    ensures Feed(s, [a]) == Processed(s, a)
  {
    hide Processed;
    assert [a][1..] == [];
    assert Processed(s, a).events + [] == Processed(s, a).events;
  }

  lemma FeedTwo(s: State, a: string, b: string)
    ensures Feed(s, [a, b]) == Prefixed(Processed(s, a).events, Processed(Processed(s, a).state, b))
  {
    hide Processed;
    assert [a, b][1..] == [b];
    FeedOne(Processed(s, a).state, b);
  }

  lemma ProcessedPlain(s: State, data: string) returns (o: Outcome)
    requires !s.pasteMode && s.pasteBuffer == "" && data != ""
    requires !IsUnmarkedPaste(s.buffer + data) && IndexOf(s.buffer + data, PASTE_START) == -1
    ensures o == Processed(s, data)
    ensures var result := Extract(s.buffer + data);
            var e := EmitAll(s.pending, result.sequences);
            o == Outcome(State(result.remainder, false, "", e.pending), e.events)
  {
    o := Processed(s, data);
  }

  lemma OccursInside(x: string, p: string, from: nat, to: nat, i: nat)
    requires from <= to <= |x| && OccursAt(x[from..to], p, i)
    ensures OccursAt(x, p, from + i)
  {
    var a, b := x[from..to][i..i + |p|], x[from + i..from + i + |p|];
    assert forall k :: 0 <= k < |p| ==> a[k] == x[from + i + k] == b[k];
    assert a == b;
  }

  /** No part of a text without a start marker has one. */
  lemma NoStartInside(x: string, from: nat, to: nat)
    requires IndexOf(x, PASTE_START) == -1 && from <= to <= |x|
    ensures IndexOf(x[from..to], PASTE_START) == -1
  {
    var i := IndexOf(x[from..to], PASTE_START);
    if i != -1 {
      OccursInside(x, PASTE_START, from, to, i);
    }
  }

  lemma NoStartInParts(x: string, b: string)
    requires IndexOf(x + b, PASTE_START) == -1
    ensures IndexOf(x, PASTE_START) == -1 && IndexOf(Extract(x).remainder + b, PASTE_START) == -1
  {
    hide Extract, IndexOf;
    var r := Extract(x).remainder;
    ExtractionIsLossless(x);
    var offset := |x| - |r|;
    assert (x + b)[0..|x|] == x;
    assert (x + b)[offset..|x + b|] == r + b;
    NoStartInside(x + b, 0, |x|);
    NoStartInside(x + b, offset, |x + b|);
  }

  // ----- Kitty characters -----

  /** The sequence of an unmodified key in the Kitty protocol. */
  function KittyKey(codepoint: nat): string {
    [ESC, '['] + Decimal(codepoint) + "u"
  }

  predicate IsScalar(codepoint: nat) {
    codepoint < 0xD800 || 0xE000 <= codepoint < 0x110000
  }

  /** The character that stands for a surrogate. */
  function Half(unit: nat): (c: char)
    requires 0xD800 <= unit < 0xE000
    ensures UnitOf(c) == unit
  {
    (0x10000 + unit - 0xD800) as char
  }

  /** A code point in UTF-16. */
  function Utf16(codepoint: nat): (units: string)
    requires IsScalar(codepoint)
    ensures |units| == if codepoint < 0x10000 then 1 else 2
    ensures codepoint < 0x10000 <==> UnitOf(units[0]) == codepoint
  {
    if codepoint < 0x10000 then [codepoint as char]
    else [Half(0xD800 + (codepoint - 0x10000) / 0x400), Half(0xDC00 + (codepoint - 0x10000) % 0x400)]
  }

  /**
   * A key reported in the Kitty protocol and then sent as text is one event if and only if its text is
   * one code unit; a surrogate pair comes through as two more events.
   */
  lemma KittyDuplicateIsDropped(pending: Option<nat>, key: nat)
    requires key >= 32 && IsScalar(key)
    ensures var k, units := KittyKey(key), Utf16(key);
      EmitAll(pending, [k] + Singles(units)).events ==
      if key < 0x10000 then [Data(k)] else [Data(k), Data([units[0]]), Data([units[1]])]
  {
    hide KittyKey, Utf16, KittyCodepoint;
    var k, units := KittyKey(key), Utf16(key);
    var first := Singles(units);
    SinglesAwaitNothing(units);
    if key < 0x10000 {
      assert first == [[units[0]]];
      NextUnit(Some(key), units[0]);
    } else {
      NextUnit(None, units[1]);
      assert first[1..] == [[units[1]]];
      assert !RepeatsKitty(Some(key), first[0]);
      assert EmitAll(Some(key), first).events == [Data(first[0])] + EmitAll(None, first[1..]).events;
    }
    AfterKey(pending, key, first);
  }

  /** Any other character that follows the key is its own event. */
  lemma OtherCharacterIsKept(pending: Option<nat>, key: nat, next: char)
    requires key >= 32 && UnitOf(next) != key
    ensures EmitAll(pending, [KittyKey(key), [next]]).events == [Data(KittyKey(key)), Data([next])]
  {
    hide KittyKey, KittyCodepoint;
    NextUnit(Some(key), next);
    AfterKey(pending, key, [[next]]);
    assert [KittyKey(key)] + [[next]] == [KittyKey(key), [next]];
  }

  /** A key is awaited once, and only as the very next sequence: the character is dropped neither a second time nor
      after something else. */
  lemma KittyIsAwaitedOnce(pending: Option<nat>, key: nat, c: char, other: string)
    requires key >= 32 && UnitOf(c) == key && KittyCodepoint(other) == None && !RepeatsKitty(Some(key), other)
    ensures EmitAll(pending, [KittyKey(key), [c], [c]]).events == [Data(KittyKey(key)), Data([c])]
    ensures EmitAll(pending, [KittyKey(key), other, [c]]).events == [Data(KittyKey(key)), Data(other), Data([c])]
  {
    hide KittyKey, KittyCodepoint;
    NextUnit(None, c);
    assert [[c], [c]][1..] == [[c]] && [other, [c]][1..] == [[c]];
    AfterKey(pending, key, [[c], [c]]);
    AfterKey(pending, key, [other, [c]]);
    assert [KittyKey(key)] + [[c], [c]] == [KittyKey(key), [c], [c]];
    assert [KittyKey(key)] + [other, [c]] == [KittyKey(key), other, [c]];
  }

  lemma NextUnit(pending: Option<nat>, next: char)
    ensures EmitAll(pending, [[next]]).events == if pending == Some(UnitOf(next)) then [] else [Data([next])]
  {
    hide KittyCodepoint;
    assert [[next]][1..] == [];
  }

  lemma AfterKey(pending: Option<nat>, key: nat, rest: seq<string>)
    requires key >= 32
    ensures EmitAll(pending, [KittyKey(key)] + rest).events == [Data(KittyKey(key))] + EmitAll(Some(key), rest).events
  {
    hide KittyKey, KittyCodepoint;
    KittyKeyReads(pending, key);
    assert ([KittyKey(key)] + rest)[1..] == rest;
  }

  /** Each character on its own, as the splitter emits them. */
  function Singles(text: string): (sequences: seq<string>)
    ensures |sequences| == |text| && forall i :: 0 <= i < |text| ==> sequences[i] == [text[i]]
  {
    seq(|text|, i requires 0 <= i < |text| => [text[i]])
  }

  lemma SinglesAwaitNothing(text: string)
    ensures forall i :: 0 <= i < |text| ==> KittyCodepoint([text[i]]) == None
  {
  }

  lemma KittyKeyReads(pending: Option<nat>, key: nat)
    requires key >= 32
    ensures KittyCodepoint(KittyKey(key)) == Some(key) && !RepeatsKitty(pending, KittyKey(key))
  {
    var k := KittyKey(key);
    var digits := Decimal(key);
    assert k[2..|k| - 1] == digits;
    SplitPlain(digits, ':');
    ParseDecimal(key);
    assert [digits][0] == digits;
  }

  /** The forms of a Kitty key without modifiers: its code point, then perhaps a shifted key, perhaps empty, and
      a key of the base layout. */
  ghost predicate KittyForm(sequence: string, point: string, shifted: string, base: string, parts: nat) {
    && point != "" && AllDigits(point) && AllDigits(shifted) && AllDigits(base) && (parts == 3 ==> base != "")
    && sequence == [ESC, '['] + (
         if parts == 1 then point
         else if parts == 2 then point + ([':'] + shifted)
         else point + ([':'] + (shifted + ([':'] + base)))) + "u"
  }

  /** A key is awaited as text exactly after a sequence of one of these forms for a printable code point. */
  lemma KittyShape(sequence: string, n: nat)
    ensures KittyCodepoint(sequence) == Some(n) <==>
      n >= 32 && exists point, shifted, base, parts: nat ::
        1 <= parts <= 3 && KittyForm(sequence, point, shifted, base, parts) && ParseNat(point) == n
  {
    if KittyCodepoint(sequence) == Some(n) {
      KittyParts(sequence, n);
    }
    if n >= 32 && exists point, shifted, base, parts: nat ::
        1 <= parts <= 3 && KittyForm(sequence, point, shifted, base, parts) && ParseNat(point) == n {
      var point, shifted, base, parts: nat :|
        1 <= parts <= 3 && KittyForm(sequence, point, shifted, base, parts) && ParseNat(point) == n;
      KittyFormReads(sequence, point, shifted, base, parts);
    }
  }

  lemma KittyParts(sequence: string, n: nat)
    requires KittyCodepoint(sequence) == Some(n)
    ensures n >= 32 && exists point, shifted, base, parts: nat ::
      1 <= parts <= 3 && KittyForm(sequence, point, shifted, base, parts) && ParseNat(point) == n
  {
    hide Split, ParseNat;
    var body := sequence[2..|sequence| - 1];
    var parts := Split(body, ':');
    SplitJoins(body, ':');
    assert sequence == [ESC, '['] + body + "u";
    assert forall i :: 0 <= i < |parts| ==> parts[i] in parts;
    assert parts[0] in parts;
    if |parts| == 1 {
      assert KittyForm(sequence, parts[0], "", "", 1);
    } else if |parts| == 2 {
      assert parts[1..] == [parts[1]];
      assert KittyForm(sequence, parts[0], parts[1], "", 2);
    } else {
      assert parts[1..][1..] == [parts[2]];
      assert Join(parts[1..], ':') == parts[1] + ([':'] + parts[2]);
      assert KittyForm(sequence, parts[0], parts[1], parts[2], 3);
    }
  }

  lemma KittyFormReads(sequence: string, point: string, shifted: string, base: string, parts: nat)
    requires 1 <= parts <= 3 && KittyForm(sequence, point, shifted, base, parts) && ParseNat(point) >= 32
    ensures KittyCodepoint(sequence) == Some(ParseNat(point))
  {
    var body := sequence[2..|sequence| - 1];
    NoColon(point);
    NoColon(shifted);
    NoColon(base);
    if parts == 1 {
      assert body == point;
      SplitPlain(point, ':');
    } else if parts == 2 {
      assert body == point + ([':'] + shifted);
      SplitFirst(point, shifted, ':');
      SplitPlain(shifted, ':');
    } else {
      assert body == point + ([':'] + (shifted + ([':'] + base)));
      SplitFirst(point, shifted + ([':'] + base), ':');
      SplitFirst(shifted, base, ':');
      SplitPlain(base, ':');
    }
  }

  lemma NoColon(s: string)
    requires AllDigits(s)
    ensures ':' !in s
  {
  }

  // ----- pastes without markers -----

  /** Text, then a line break, then text, and no escape. */
  ghost predicate HasTwoLines(s: string) {
    '\U{1B}' !in s && exists i, j, k :: 0 <= i < j < k < |s| && Breaks(s, i, j, k)
  }

  predicate Breaks(s: string, i: nat, j: nat, k: nat)
    requires i < j < k < |s|
  {
    s[i] !in "\r\n" && s[j] in "\r\n" && s[k] !in "\r\n"
  }

  lemma UnmarkedPasteIsTwoLines(s: string)
    ensures IsUnmarkedPaste(s) <==> HasTwoLines(s)
  {
    if IsUnmarkedPaste(s) {
      var i, j :| 0 <= i && i + 1 < j < |s| && IsGap(s, i, j);
      assert Breaks(s, i, i + 1, j);
    }
    if HasTwoLines(s) {
      var i, j, k :| 0 <= i < j < k < |s| && Breaks(s, i, j, k);
      var a, b := TextBefore(s, i, j), TextAfter(s, j, k);
      assert IsGap(s, a, b);
    }
  }

  function TextBefore(s: string, i: nat, j: nat): (a: nat)
    requires i <= j < |s| && !IsNewline(s[i])
    ensures i <= a <= j && !IsNewline(s[a]) && forall x :: a < x <= j ==> IsNewline(s[x])
  {
    if !IsNewline(s[j]) then j else TextBefore(s, i, j - 1)
  }

  function TextAfter(s: string, j: nat, k: nat): (b: nat)
    requires j <= k < |s| && !IsNewline(s[k])
    ensures j <= b <= k && !IsNewline(s[b]) && forall x :: j <= x < b ==> IsNewline(s[x])
    decreases k - j
  {
    if !IsNewline(s[j]) then j else TextAfter(s, j + 1, k)
  }

  /** Such text is one paste, without the line breaks at its end, and nothing waits afterwards. */
  lemma TwoLinesAreOnePaste(s: State, data: string) returns (content: string)
    requires !s.pasteMode && HasTwoLines(s.buffer + data)
    ensures Processed(s, data) == Outcome(State("", false, s.pasteBuffer, None), [Paste(content)])
    ensures content != "" && content <= s.buffer + data && content[|content| - 1] !in "\r\n"
    ensures forall i :: |content| <= i < |s.buffer + data| ==> (s.buffer + data)[i] in "\r\n"
  {
    hide Extract, EmitAll, IndexOf, AfterPaste, IsUnmarkedPaste;
    UnmarkedPasteIsTwoLines(s.buffer + data);
    content := TrimNewlines(s.buffer + data);
    var i, j, k :| 0 <= i < j < k < |s.buffer + data| && Breaks(s.buffer + data, i, j, k);
    assert !IsNewline((s.buffer + data)[k]);
  }

  // ----- input before a paste -----

  /** The keys that stand before a start marker are events of their own, then the paste is read as if it came
      alone; of the text before the marker exactly what is unfinished there is lost. */
  lemma KeysBeforeAPaste(s: State, a: string, rest: string)
    requires !s.pasteMode && s.pasteBuffer == ""
    requires var x := s.buffer + a; IndexOf(x + (PASTE_START + rest), PASTE_START) == |x|
    ensures var e := Extract(s.buffer + a);
      && s.buffer + a == Concat(e.sequences) + e.remainder
      && Processed(s, a + (PASTE_START + rest)) ==
        Prefixed(EmitAll(s.pending, e.sequences).events, Processed(Idle, PASTE_START + rest))
  {
    ExtractionIsLossless(s.buffer + a);
    hide Extract, EmitAll, IsUnmarkedPaste, IndexOf, AfterPaste, Processed, Concat;
    MarkerAt(s, a, rest);
    MarkerFirst(PASTE_START + rest);
    assert "" + (PASTE_START + rest) == PASTE_START + rest == "" + "" + (PASTE_START + rest);
    MarkerAt(Idle, "", rest);
    NothingToEmit(None);
    NothingPrefixed(AfterPaste(rest, None));
  }

  lemma NothingPrefixed(o: Outcome)
    ensures Prefixed([], o) == o
  {
  }

  lemma MarkerAt(s: State, a: string, rest: string)
    requires !s.pasteMode
    requires var x := s.buffer + a; IndexOf(x + (PASTE_START + rest), PASTE_START) == |x|
    ensures Processed(s, a + (PASTE_START + rest)) ==
      Prefixed(EmitAll(s.pending, Extract(s.buffer + a).sequences).events, AfterPaste(rest, None))
  {
    hide Extract, EmitAll, IsUnmarkedPaste, IndexOf, AfterPaste;
    var x, paste := s.buffer + a, PASTE_START + rest;
    assert s.buffer + (a + paste) == x + paste;
    assert (x + paste)[..|x|] == x && (x + paste)[|x| + |PASTE_START|..] == rest;
    MarkersAreEscapes(x, rest);
  }

  lemma MarkersAreEscapes(x: string, rest: string)
    ensures !IsUnmarkedPaste(x + (PASTE_START + rest))
  {
    assert (x + (PASTE_START + rest))[|x|] == ESC;
  }

  lemma MarkerFirst(s: string)
    requires PASTE_START <= s
    ensures IndexOf(s, PASTE_START) == 0
  {
    assert OccursAt(s, PASTE_START, 0);
  }

  /** So an Escape key press that comes in one chunk with a paste is not reported. */
  lemma EscapeBeforeAPasteIsLost(content: string)
    requires IndexOf(content + PASTE_END, PASTE_END) == |content|
    ensures Processed(Idle, [ESC] + (PASTE_START + (content + PASTE_END))).events == [Paste(content)]
  {
    var rest := content + PASTE_END;
    MarkerSecond(rest);
    LoneEscapeWaits();
    hide Extract, EmitAll, IsUnmarkedPaste, IndexOf, AfterPaste, Processed, Concat;
    assert Idle.buffer + [ESC] == [ESC];
    MarkerAt(Idle, [ESC], rest);
    NothingToEmit(None);
    PasteAlone(content);
    NothingToExtract();
    NothingPrefixed(AfterPaste(rest, None));
  }

  lemma MarkerSecond(rest: string)
    ensures IndexOf([ESC] + (PASTE_START + rest), PASTE_START) == 1
  {
    var all := [ESC] + (PASTE_START + rest);
    assert all[0..|PASTE_START|][1] == ESC && PASTE_START[1] == '[';
    assert all[1..1 + |PASTE_START|] == PASTE_START;
    assert OccursAt(all, PASTE_START, 1) && !OccursAt(all, PASTE_START, 0);
  }

  lemma PasteAlone(content: string)
    requires IndexOf(content + PASTE_END, PASTE_END) == |content|
    ensures AfterPaste(content + PASTE_END, None).events == [Paste(content)]
  {
    hide IndexOf;
    var rest := content + PASTE_END;
    assert rest[..|content|] == content && rest[|content| + |PASTE_END|..] == "";
  }

  lemma LoneEscapeWaits()
    ensures Extract([ESC]) == Extraction([], [ESC])
  {
    assert [ESC][..1] == [ESC];
  }

  /** Where no Kitty key is involved every sequence is an event, in order. */
  lemma {:induction false} OtherInputIsReported(sequences: seq<string>)
    requires forall i :: 0 <= i < |sequences| ==> KittyCodepoint(sequences[i]) == None
    ensures EmitAll(None, sequences).pending == None && |EmitAll(None, sequences).events| == |sequences|
    ensures forall i :: 0 <= i < |sequences| ==> EmitAll(None, sequences).events[i] == Data(sequences[i])
    decreases |sequences|
  {
    hide KittyCodepoint;
    if sequences != [] {
      OtherInputIsReported(sequences[1..]);
    }
  }

  // ----- bytes -----

  /** A byte with the high bit is the Alt key and its character: one event at once, unless the character begins a
      longer sequence. */
  lemma HighByteIsAlt(b: bv8, decoded: string, c: char)
    requires b > 127 && c as int == b as int - 128 && c !in "[]OP_"
    ensures Extract(FromBytes([b], decoded)) == Extraction([[ESC, c]], "")
  {
    var s := FromBytes([b], decoded);
    assert s == [ESC, c];
    FirstKeyEnds(s, 2);
    assert s[..2] == s && s[2..] == "";
  }
}
