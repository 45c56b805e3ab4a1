/**
 * The gate between the provider's stream and the loop: a response whose text opens with a written-out
 * tool-call marker is dropped and asked for again, at most twice.
 *
 * The gate decides while the text arrives; `Rejects` is the same question asked of the whole text.
 */
module MarkerGate {
  import opened Strings
  import opened AgentEvents

  const MARKER := "[assistant 请求调用 tool"

  const MAX_RETRIES := 2

  // ----- streams -----

  /**
   * `Thinking` stands for the three thinking events, `CallStart` for the start of a tool call or of
   * a server-side tool, `Block` for every other event that carries a partial message.
   */
  datatype StreamEvent =
    | Start(partial: AssistantMessage)
    | Thinking(partial: AssistantMessage)
    | TextDelta(delta: string, partial: AssistantMessage)
    | CallStart(partial: AssistantMessage)
    | Block(partial: AssistantMessage)
    | Done(message: AssistantMessage)
    | Failure(message: AssistantMessage)

  predicate Final(e: StreamEvent) { e.Done? || e.Failure? }

  /** An event stream takes nothing after its final event. */
  type Stream = es: seq<StreamEvent> | forall i :: 0 <= i < |es| - 1 ==> !Final(es[i])

  predicate Complete(es: Stream) { es != [] && Final(es[|es| - 1]) }

  /** What the provider does on one request: it yields events, then throws or has a result. */
  datatype Attempt = Attempt(events: Stream, threw: bool, result: AssistantMessage)

  // ----- text -----

  /** The white space and line terminators that trimming removes. */
  predicate IsSpace(c: char) {
    '\t' <= c <= '\r' || c == ' ' || c == '\U{A0}' || c == '\U{1680}' || '\U{2000}' <= c <= '\U{200A}'
    || c == '\U{2028}' || c == '\U{2029}' || c == '\U{202F}' || c == '\U{205F}' || c == '\U{3000}'
    || c == '\U{FEFF}'
  }

  function TrimStart(s: string): string {
    if s != "" && IsSpace(s[0]) then TrimStart(s[1..]) else s
  }

  function TextOf(parts: seq<Part>): string {
    if parts == [] then ""
    else (if parts[0].Text? then parts[0].text else "") + TextOf(parts[1..])
  }

  /** The text streamed so far. */
  function Deltas(es: seq<StreamEvent>): string {
    if es == [] then ""
    else
      var last := es[|es| - 1];
      Deltas(es[..|es| - 1]) + (if last.TextDelta? then last.delta else "")
  }

  /** The text of a stream is its text deltas put together, and nothing else. */
  lemma {:induction false} DeltasInOrder(a: seq<StreamEvent>, b: seq<StreamEvent>)
    ensures Deltas(a + b) == Deltas(a) + Deltas(b)
    decreases |b|
  {
    if b == [] {
      assert a + b == a;
    } else {
      var front := b[..|b| - 1];
      DeltasInOrder(a, front);
      assert (a + b)[..|a + b| - 1] == a + front;
    }
  }

  lemma OneDelta(e: StreamEvent)
    ensures Deltas([e]) == if e.TextDelta? then e.delta else ""
  {
    assert [e][..0] == [];
  }

  /** The text of a message is its text parts put together, and nothing else. */
  lemma {:induction false} TextInOrder(a: seq<Part>, b: seq<Part>)
    ensures TextOf(a + b) == TextOf(a) + TextOf(b)
    decreases |a|
  {
    if a == [] {
      assert a + b == b;
    } else {
      assert (a + b)[1..] == a[1..] + b;
      TextInOrder(a[1..], b);
    }
  }

  lemma OneText(part: Part)
    ensures TextOf([part]) == if part.Text? then part.text else ""
  {
    assert [part][1..] == [];
  }

  // ----- the question asked of the whole text -----

  predicate Leading(e: StreamEvent) { e.Start? || e.Thinking? }

  /** The events before the first that is neither the start nor thinking. */
  function Lead(es: seq<StreamEvent>): (n: nat)
    ensures n <= |es|
    ensures forall i :: 0 <= i < n ==> Leading(es[i])
    ensures n < |es| ==> !Leading(es[n])
  {
    if es != [] && Leading(es[0]) then 1 + Lead(es[1..]) else 0
  }

  predicate Decider(e: StreamEvent) { e.CallStart? || Final(e) }

  /** Where the first tool call starts, or the stream ends. */
  function Preamble(es: seq<StreamEvent>): (n: nat)
    ensures n <= |es|
    ensures forall i :: 0 <= i < n ==> !Decider(es[i])
    ensures n < |es| ==> Decider(es[n])
  {
    if es != [] && !Decider(es[0]) then 1 + Preamble(es[1..]) else 0
  }

  predicate Marked(text: string) { StartsWith(TrimStart(text), MARKER) }

  /** What is there so far could still become the marker. */
  predicate Undecided(text: string) {
    StartsWith(MARKER, TrimStart(text)) && TrimStart(text) != MARKER
  }

  /**
   * The text before the first tool call. If the streamed text has not settled the question by the
   * end of the response, the final message's text does.
   */
  function GateText(es: seq<StreamEvent>): string {
    var n := Preamble(es);
    var streamed := Deltas(es[..n]);
    if n < |es| && es[n].Done? && Undecided(streamed) then TextOf(es[n].message.parts) else streamed
  }

  predicate Rejects(es: seq<StreamEvent>) { Marked(GateText(es)) }

  predicate AllSpace(s: string) { forall i :: 0 <= i < |s| ==> IsSpace(s[i]) }

  /** A text is marked exactly if it is white space, the marker and anything. */
  lemma MarkedShape(text: string)
    ensures Marked(text) <==> exists a, b :: AllSpace(a) && text == a + MARKER + b
  {
    var t := TrimStart(text);
    TrimStartDrops(text);
    if Marked(text) {
      assert text == text[..|text| - |t|] + MARKER + t[|MARKER|..];
    }
    if exists a, b :: AllSpace(a) && text == a + MARKER + b {
      var a, b :| AllSpace(a) && text == a + MARKER + b;
      assert text == a + (MARKER + b);
      TrimSpace(a, MARKER + b);
      assert (MARKER + b)[..|MARKER|] == MARKER;
    }
  }

  lemma {:induction false} TrimStartDrops(s: string)
    ensures var t := TrimStart(s);
      |t| <= |s| && s[|s| - |t|..] == t && AllSpace(s[..|s| - |t|]) && (t != "" ==> !IsSpace(t[0]))
  {
    if s != "" && IsSpace(s[0]) {
      TrimStartDrops(s[1..]);
      var t := TrimStart(s);
      assert s[..|s| - |t|] == [s[0]] + s[1..][..|s[1..]| - |t|];
    }
  }

  lemma {:induction false} TrimSpace(a: string, rest: string)
    requires AllSpace(a) && rest != "" && !IsSpace(rest[0])
    ensures TrimStart(a + rest) == rest
  {
    if a == "" {
      assert a + rest == rest;
    } else {
      assert (a + rest)[1..] == a[1..] + rest;
      TrimSpace(a[1..], rest);
    }
  }

  /** What goes through at once is the start and thinking; the question is settled at the latest by the start of
      a tool call or the end. */
  lemma GateWatches(es: seq<StreamEvent>)
    ensures forall i :: 0 <= i < Lead(es) ==> es[i].Start? || es[i].Thinking?
    ensures Lead(es) < |es| ==> !es[Lead(es)].Start? && !es[Lead(es)].Thinking?
    ensures forall i :: 0 <= i < Preamble(es) ==> !es[i].CallStart? && !es[i].Done? && !es[i].Failure?
    ensures Preamble(es) < |es| ==> var e := es[Preamble(es)]; e.CallStart? || e.Done? || e.Failure?
  {
  }

  /** When the streamed text is the marker's beginning and no more, the final message's text decides. */
  lemma FinalTextDecides(es: Stream)
    requires Preamble(es) < |es| && es[Preamble(es)].Done?
    requires var streamed := TrimStart(Deltas(es[..Preamble(es)])); streamed < MARKER
    ensures Rejects(es) <==> Marked(TextOf(es[Preamble(es)].message.parts))
  {
    hide IsSpace, TrimStart, Deltas, TextOf, Marked, Preamble;
    var streamed := TrimStart(Deltas(es[..Preamble(es)]));
    assert MARKER[..|streamed|] == streamed;
  }

  // ----- the verdict is stable as text arrives -----

  lemma {:induction false} TrimAppends(s: string, t: string)
    ensures TrimStart(s + t) == if TrimStart(s) != "" then TrimStart(s) + t else TrimStart(t)
  {
    if s == "" {
      assert s + t == t;
    } else {
      assert (s + t)[1..] == s[1..] + t;
      TrimAppends(s[1..], t);
    }
  }

  lemma MarkedStays(s: string, t: string)
    requires Marked(s)
    ensures Marked(s + t)
  {
    TrimAppends(s, t);
  }

  lemma CleanStays(s: string, t: string)
    requires !Marked(s) && !Undecided(s)
    ensures !Marked(s + t) && !Undecided(s + t)
  {
    TrimAppends(s, t);
  }

  lemma {:induction false} DeltasSplit(es: seq<StreamEvent>, i: nat, n: nat)
    requires i <= n <= |es|
    ensures exists rest :: Deltas(es[..n]) == Deltas(es[..i]) + rest
    decreases n
  {
    if i == n {
      assert Deltas(es[..n]) == Deltas(es[..i]) + "";
    } else {
      DeltasSplit(es, i, n - 1);
      var rest :| Deltas(es[..n - 1]) == Deltas(es[..i]) + rest;
      var last := es[n - 1];
      assert es[..n][..n - 1] == es[..n - 1];
      assert Deltas(es[..n]) == Deltas(es[..i]) + (rest + (if last.TextDelta? then last.delta else ""));
    }
  }

  /** Once the text streamed before the first tool call is settled, the batch check agrees. */
  lemma SettledEarly(es: seq<StreamEvent>, i: nat)
    requires i <= Preamble(es) && !Undecided(Deltas(es[..i]))
    ensures Rejects(es) == Marked(Deltas(es[..i]))
  {
    var n := Preamble(es);
    DeltasSplit(es, i, n);
    var rest :| Deltas(es[..n]) == Deltas(es[..i]) + rest;
    if Marked(Deltas(es[..i])) {
      MarkedStays(Deltas(es[..i]), rest);
      Extremes(Deltas(es[..n]));
    } else {
      CleanStays(Deltas(es[..i]), rest);
    }
  }

  /** A provider whose final message has the text it streamed is judged by that text, however it was cut. */
  lemma JudgedByItsText(es: Stream)
    requires Preamble(es) < |es| && es[Preamble(es)].Done? ==>
      TextOf(es[Preamble(es)].message.parts) == Deltas(es[..Preamble(es)])
    ensures Rejects(es) <==> Marked(Deltas(es[..Preamble(es)]))
  {
    hide TrimStart, TextOf, Undecided, Marked, Deltas, IsSpace, Preamble, StartsWith;
  }

  // ----- one attempt -----

  function PartialOf(e: StreamEvent, latest: AssistantMessage): AssistantMessage {
    if e.Done? || e.Failure? then latest else e.partial
  }

  /** The last partial message of a stream. */
  function LastPartial(es: seq<StreamEvent>): Option<AssistantMessage> {
    if es == [] then None
    else if !Final(es[|es| - 1]) then Some(es[|es| - 1].partial)
    else LastPartial(es[..|es| - 1])
  }

  ghost predicate IsLatest(latest: AssistantMessage, es: seq<StreamEvent>) {
    LastPartial(es).Some? ==> latest == LastPartial(es).value
  }

  lemma LatestStep(es: seq<StreamEvent>, i: nat, latest: AssistantMessage)
    requires i < |es| && IsLatest(latest, es[..i])
    ensures IsLatest(PartialOf(es[i], latest), es[..i + 1])
  {
    assert es[..i + 1][..i] == es[..i];
  }

  ghost predicate Checking(es: Stream, i: nat, forwarded: seq<StreamEvent>, buffered: seq<StreamEvent>, text: string) {
    && i <= |es| && i <= Preamble(es)
    && text == Deltas(es[..i])
    && forwarded + buffered == es[..i]
    && |forwarded| <= Lead(es)
    && (buffered != [] ==> |forwarded| == Lead(es))
  }

  /** What one more event settles, while the gate is still checking. */
  lemma Verdict(es: Stream, i: nat, text: string)
    requires i < |es| && i <= Preamble(es) && Undecided(Deltas(es[..i]))
    requires text == if es[i].Done? then TextOf(es[i].message.parts) else Deltas(es[..i + 1])
    ensures Decider(es[i]) || !Undecided(text) ==> Rejects(es) == Marked(text)
    ensures Marked(text) ==> !es[i].Failure?
  {
    hide TrimStart, TextOf, Undecided, Marked, Deltas, IsSpace, Preamble, StartsWith;
    LastDelta(es, i);
    if Undecided(text) { UndecidedIsClean(text); }
    if Decider(es[i]) {
      assert Preamble(es) == i;
      assert !es[i].Done? ==> text == Deltas(es[..i]);
      UndecidedIsClean(Deltas(es[..i]));
    } else if !Undecided(text) {
      SettledEarly(es, i + 1);
    }
  }

  lemma LastDelta(es: seq<StreamEvent>, i: nat)
    requires i < |es|
    ensures Deltas(es[..i + 1]) == Deltas(es[..i]) + (if es[i].TextDelta? then es[i].delta else "")
  {
    assert es[..i + 1][..i] == es[..i];
  }

  lemma UndecidedIsClean(text: string)
    requires Undecided(text)
    ensures !Marked(text)
  {
  }

  /** The two tests of the loop, in the terms of the batch check. */
  lemma Extremes(text: string)
    ensures StartsWith(TrimStart(text), MARKER) == Marked(text)
    ensures Marked(text) ==> !Undecided(text)
    ensures TrimStart(text) == "" ==> Undecided(text)
    ensures !Marked(text) && StartsWith(MARKER, TrimStart(text)) ==> Undecided(text)
    ensures Undecided(text) ==> StartsWith(MARKER, TrimStart(text))
  {
    assert MARKER[..0] == "";
    assert MARKER[..|MARKER|] == MARKER;
  }

  lemma SilentEnd(es: Stream)
    requires Preamble(es) == |es|
    ensures Undecided(Deltas(es)) ==> !Rejects(es)
    ensures !Complete(es)
  {
    assert es[..|es|] == es;
    Extremes(Deltas(es));
  }

  /**
   * Forwards one attempt's events, or stops with a rejected message. The signal may abort at any
   * time, and stays aborted.
   */
  method GateAttempt(es: Stream, wasAborted: bool, partial: AssistantMessage)
    returns (forwarded: seq<StreamEvent>, rejected: Option<AssistantMessage>, latest: AssistantMessage, aborted: bool)
    ensures wasAborted ==> aborted
    ensures !aborted ==> (rejected.Some? <==> Rejects(es))
    ensures rejected.Some? ==> !aborted
    ensures rejected.Some? ==> forwarded == es[..Lead(es)]
    ensures rejected.None? && Complete(es) ==> forwarded == es
    ensures forwarded == es || forwarded == es[..Lead(es)]
    ensures rejected.None? ==> IsLatest(latest, es)
  {
    hide TrimStart, TextOf, Undecided, Marked, Rejects, IsSpace, Lead, Preamble, Deltas, StartsWith, IsLatest,
      PartialOf;
    NothingStreamed();
    NothingLatest(partial);
    var buffered, text, checking := [], "", true;
    forwarded, rejected, latest, aborted := [], None, partial, wasAborted;
    var i := 0;
    assert es[..0] == [];
    while i < |es|
      invariant i <= |es| && rejected.None? && IsLatest(latest, es[..i])
      invariant wasAborted ==> aborted
      invariant checking ==> Checking(es, i, forwarded, buffered, text)
      invariant checking && !aborted ==> Undecided(text)
      invariant !checking ==> forwarded == es[..i] && (!aborted ==> !Rejects(es))
    {
      var event := es[i];
      LatestStep(es, i, latest);
      latest := PartialOf(event, latest);
      assert es[..i + 1] == es[..i] + [event];
      LastDelta(es, i);
      if checking {
        if buffered == [] && Leading(event) {
          forwarded := forwarded + [event];
          assert |forwarded| == i + 1;
          i := i + 1;
          continue;
        }
        buffered := buffered + [event];
        if event.TextDelta? { text := text + event.delta; }
        if event.Done? { text := TextOf(event.message.parts); }
        var trimmed := TrimStart(text);
        Extremes(text);
        if !aborted { Verdict(es, i, text); }
        if !aborted { aborted := *; }
        if StartsWith(trimmed, MARKER) && !aborted {
          rejected := if event.Done? then Some(event.message) else if event.Failure? then None else Some(event.partial);
          assert forwarded == es[..Lead(es)];
          return;
        }
        if (trimmed != "" && !StartsWith(MARKER, trimmed)) || Decider(event) {
          checking := false;
          forwarded := forwarded + buffered;
        }
      } else {
        forwarded := forwarded + [event];
      }
      i := i + 1;
    }
    assert es[..i] == es;
    if !checking { assert forwarded == es; }
    if checking {
      assert es[..i] == es;
      SilentEnd(es);
    }
  }

  lemma NothingLatest(partial: AssistantMessage)
    ensures IsLatest(partial, [])
  {
  }

  lemma NothingStreamed()
    ensures Deltas([]) == "" && Undecided("")
  {
    assert MARKER[..0] == "";
  }


  // ----- the retries -----

  /** What the rejected attempts let through. */
  function Leads(tries: seq<Attempt>): (es: seq<StreamEvent>)
    ensures forall i :: 0 <= i < |es| ==> Leading(es[i])
  {
    if tries == [] then []
    else
      var last := tries[|tries| - 1].events;
      Leads(tries[..|tries| - 1]) + last[..Lead(last)]
  }

  /** The message a stream ends with; a stream that just stops has the provider's result. */
  function FinalMessage(response: Stream, result: AssistantMessage): AssistantMessage {
    if Complete(response) then response[|response| - 1].message else result
  }

  const GIVEN_UP := "Model repeatedly emitted a text tool-call marker."

  lemma NoLeads()
    ensures Leads([]) == []
  {
  }

  lemma LeadsGrow(tries: seq<Attempt>, source: Attempt)
    ensures Leads(tries + [source]) == Leads(tries) + source.events[..Lead(source.events)]
    ensures (tries + [source])[..|tries|] == tries
  {
    assert (tries + [source])[..|tries|] == tries;
  }

  lemma LeadsContinue(tries: seq<Attempt>, es: Stream, n: nat)
    requires n <= |es|
    ensures forall i :: 0 <= i < |Leads(tries) + es[..n]| - 1 ==> !Final((Leads(tries) + es[..n])[i])
  {
    var before := Leads(tries);
    forall i | 0 <= i < |before + es[..n]| - 1 ensures !Final((before + es[..n])[i]) {
      if i < |before| { assert Leading(before[i]); } else { assert !Final(es[i - |before|]); }
    }
  }

  /** The loop gives up on a rejected attempt: the third one, or one after which the signal aborted. */
  ghost predicate GaveUp(tries: seq<Attempt>, response: Stream, aborted: bool)
    requires tries != []
  {
    && Rejects(tries[|tries| - 1].events)
    && |response| == |Leads(tries)| + 1 && response[..|Leads(tries)|] == Leads(tries)
    && var e := response[|response| - 1];
       && e.Failure? && e.message.parts == []
       && e.message.stopReason == (if aborted then Aborted else Error)
       && (!aborted ==> |tries| == 1 + MAX_RETRIES && e.message.errorMessage == GIVEN_UP)
  }

  /** The loop takes an attempt: a complete one is passed on event by event. */
  ghost predicate Passed(tries: seq<Attempt>, response: Stream, aborted: bool)
    requires tries != []
  {
    var before, last := Leads(tries[..|tries| - 1]), tries[|tries| - 1];
    && (!aborted ==> !Rejects(last.events))
    && (Complete(last.events) ==> response == before + last.events)
    && (!Complete(last.events) && !last.threw ==>
          response == before + last.events || response == before + last.events[..Lead(last.events)])
    && (last.threw ==> Complete(response))
    && (last.threw && !Complete(last.events) ==>
          var n := |response| - 1;
          && (response[..n] == before + last.events || response[..n] == before + last.events[..Lead(last.events)])
          && response[n].Failure? && response[n].message.stopReason == (if aborted then Aborted else Error)
          && (LastPartial(last.events).Some? ==>
                response[n].message.parts == LastPartial(last.events).value.parts))
  }

  function RejectedError(rejected: AssistantMessage, aborted: bool): AssistantMessage {
    rejected.(
      parts := [],
      stopReason := if aborted then Aborted else Error,
      errorMessage := if aborted then "Request was aborted" else GIVEN_UP)
  }

  function ThrownError(latest: AssistantMessage, cause: string, aborted: bool): AssistantMessage {
    latest.(
      stopReason := if aborted then Aborted else Error,
      errorMessage := if aborted then "Request was aborted" else cause)
  }

  lemma GivesUp(tries: seq<Attempt>, rejected: AssistantMessage, aborted: bool)
    requires tries != [] && Rejects(tries[|tries| - 1].events)
    requires !aborted ==> |tries| == 1 + MAX_RETRIES
    ensures var error := Failure(RejectedError(rejected, aborted));
      && (forall i :: 0 <= i < |Leads(tries) + [error]| - 1 ==> !Final((Leads(tries) + [error])[i]))
      && GaveUp(tries, Leads(tries) + [error], aborted)
      && FinalMessage(Leads(tries) + [error], tries[|tries| - 1].result) == error.message
  {
    hide Rejects, Leads;
    assert (Leads(tries) + [Failure(RejectedError(rejected, aborted))])[..|Leads(tries)|] == Leads(tries);
  }

  /** The message of an error that was thrown: what had come last, as an error. */
  ghost predicate IsErrorAfter(error: AssistantMessage, es: seq<StreamEvent>, aborted: bool) {
    && error.stopReason == (if aborted then Aborted else Error)
    && (LastPartial(es).Some? ==> error.parts == LastPartial(es).value.parts)
  }

  lemma Passes(tries: seq<Attempt>, response: Stream, events: seq<StreamEvent>, error: AssistantMessage, aborted: bool)
    requires tries != [] && response == Leads(tries[..|tries| - 1]) + events
    requires var last := tries[|tries| - 1].events;
      && (!aborted ==> !Rejects(last))
      && (Complete(last) ==> events == last)
      && (events == last || events == last[..Lead(last)])
    ensures !tries[|tries| - 1].threw || Complete(response) ==> Passed(tries, response, aborted)
    ensures !Complete(response) ==>
      && (forall i :: 0 <= i < |response + [Failure(error)]| - 1 ==> !Final((response + [Failure(error)])[i]))
      && Complete(response + [Failure(error)])
      && (tries[|tries| - 1].threw && IsErrorAfter(error, tries[|tries| - 1].events, aborted) ==>
            Passed(tries, response + [Failure(error)], aborted))
  {
    hide Rejects, Leads, Lead, LastPartial;
    var last := tries[|tries| - 1].events;
    assert (response + [Failure(error)])[..|response|] == response;
    if Complete(last) { assert response[|response| - 1] == last[|last| - 1]; }
  }

  /** An attempt that was not rejected has been forwarded; an error it threw becomes the last event. */
  method FinishAttempt(
      tries: seq<Attempt>, sofar: Stream, events: seq<StreamEvent>, latest: AssistantMessage, wasAborted: bool)
    returns (response: Stream, message: AssistantMessage, aborted: bool)
    requires tries != [] && sofar == Leads(tries[..|tries| - 1]) + events
    requires var last := tries[|tries| - 1].events;
      && (!wasAborted ==> !Rejects(last))
      && (Complete(last) ==> events == last)
      && (events == last || events == last[..Lead(last)])
      && IsLatest(latest, last)
    ensures wasAborted ==> aborted
    ensures Passed(tries, response, aborted) && message == FinalMessage(response, tries[|tries| - 1].result)
  {
    hide Rejects, Lead, Leads, Passed, Final, Complete, LastPartial;
    response, aborted := sofar, wasAborted;
    if tries[|tries| - 1].threw {
      var cause: string := *;
      if !aborted { aborted := *; }
      var error := ThrownError(latest, cause, aborted);
      Passes(tries, response, events, error, aborted);
      if !Complete(response) { response := response + [Failure(error)]; }
    } else {
      Passes(tries, response, events, latest, aborted);
    }
    message := FinalMessage(response, tries[|tries| - 1].result);
  }

  /** `provider(k)` is what the provider does on request k; `tries` are the attempts that were made. */
  method OpenStreams(provider: nat -> Attempt, wasAborted: bool, empty: AssistantMessage)
    returns (response: Stream, message: AssistantMessage, aborted: bool, tries: seq<Attempt>)
    ensures wasAborted ==> aborted
    ensures 1 <= |tries| <= 3
    ensures !aborted && Rejects(tries[|tries| - 1].events) ==> |tries| == 3
    ensures forall k :: 0 <= k < |tries| ==> tries[k] == provider(k)
    ensures forall k :: 0 <= k < |tries| - 1 ==> Rejects(tries[k].events)
    ensures GaveUp(tries, response, aborted) || Passed(tries, response, aborted)
    ensures message == FinalMessage(response, tries[|tries| - 1].result)
    ensures Complete(response) ==> message == response[|response| - 1].message
    ensures !Complete(response) ==> message == tries[|tries| - 1].result
  {
    hide Rejects, Lead, Leads, GaveUp, Passed, Final, RejectedError, ThrownError, PartialOf, IsLatest;
    var latest, attempt := empty, 0;
    response, aborted, tries := [], wasAborted, [];
    NoLeads();
    while true
      invariant attempt == |tries| <= MAX_RETRIES && (wasAborted ==> aborted)
      invariant forall k :: 0 <= k < |tries| ==> tries[k] == provider(k)
      invariant forall k :: 0 <= k < |tries| ==> Rejects(tries[k].events)
      invariant response == Leads(tries)
      decreases MAX_RETRIES - attempt
    {
      var source := provider(attempt);
      var events, rejected;
      events, rejected, latest, aborted := GateAttempt(source.events, aborted, latest);
      ghost var before := tries;
      tries := tries + [source];
      LeadsGrow(before, source);
      assert source.events[..|events|] == events;
      LeadsContinue(before, source.events, |events|);
      response := response + events;
      if rejected.Some? {
        if !aborted { aborted := *; }
        if attempt < MAX_RETRIES && !aborted {
          attempt := attempt + 1;
          continue;
        }
        GivesUp(tries, rejected.value, aborted);
        message := RejectedError(rejected.value, aborted);
        response := response + [Failure(message)];
        return;
      }
      response, message, aborted := FinishAttempt(tries, response, events, latest, aborted);
      return;
    }
  }
}
