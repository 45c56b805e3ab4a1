/**
 * The agent loop and its stateful wrapper.
 *
 * The provider, the tools, the hooks and the users are not part of the program: what they do is an
 * arbitrary choice (`:= *`). Whatever another task may do while the loop awaits is `Agent.Await`. The
 * loop may go on forever, so it is given a number of turns and says whether it got to its end.
 */
module AgentLoop {
  import opened Strings
  import opened AgentEvents
  import opened AgentEventLaws
  import opened AgentQueue
  import opened AgentTools
  import opened MarkerGate

  lemma LogGrows(s: State, log: seq<Event>, e: Event)
    ensures Monitor(log + [e]) == Advance(Monitor(log), e)
    ensures Replay(s, log + [e]) == Reduce(Replay(s, log), e)
    ensures Ended(log + [e]) == Ended(log) + (if e.MessageEnd? then [e.message] else [])
    ensures TurnsEnded(log + [e]) == TurnsEnded(log) + Bit(e.TurnEnd?)
    ensures Drained(log + [e]) == Drained(log) + Leaving(e)
    ensures AbortSeen in log + [e] <==> AbortSeen in log || e == AbortSeen
    ensures !e.Polled? ==> Drained(log + [e]) == Drained(log)
  {
    assert (log + [e])[..|log|] == log;
  }

  // ----- the events of one response -----

  /** The first partial message starts the message; every later one updates it. */
  function EventsFor(event: StreamEvent, started: bool): seq<Event> {
    if Final(event) then []
    else if event.Start? then (if started then [] else [MessageStart(Response, event.partial)])
    else if started then [MessageUpdate(event.partial)]
    else []
  }

  predicate Opens(es: seq<StreamEvent>) {
    es != [] && (Opens(es[..|es| - 1]) || es[|es| - 1].Start?)
  }

  function Announced(es: seq<StreamEvent>): seq<Event> {
    if es == [] then []
    else Announced(es[..|es| - 1]) + EventsFor(es[|es| - 1], Opens(es[..|es| - 1]))
  }

  function Conclusion(started: bool, message: AssistantMessage): seq<Event> {
    (if started then [] else [MessageStart(Response, message)]) + [MessageEnd(Response, message)]
  }

  function ResponseEvents(response: Stream, message: AssistantMessage): seq<Event> {
    Announced(response) + Conclusion(Opens(response), message)
  }

  /** The message answers the requests: the stream is what the gate let through, and ends with it. */
  ghost predicate Answers(tries: seq<Attempt>, response: Stream, message: AssistantMessage, aborted: bool) {
    && 1 <= |tries| <= 1 + MAX_RETRIES
    && (GaveUp(tries, response, aborted) || Passed(tries, response, aborted))
    && message == FinalMessage(response, tries[|tries| - 1].result)
  }

  /** A response is announced as it comes: the start with the first partial message, then one update for
      every partial message after it, in order, and nothing for the final event. */
  lemma {:induction false} EveryPartialIsAnnounced(es: Stream, n: nat)
    requires n <= |es| && es != [] && es[0].Start? && forall i :: 0 < i < |es| ==> !es[i].Start?
    requires forall i :: 0 <= i < n ==> !Final(es[i])
    ensures |Announced(es[..n])| == n
    ensures n > 0 ==> Announced(es[..n])[0] == MessageStart(Response, es[0].partial)
    ensures forall i :: 0 < i < n && !Final(es[i]) ==> Announced(es[..n])[i] == MessageUpdate(es[i].partial)
    ensures Opens(es[..n]) <==> n > 0
  {
    if n > 0 {
      EveryPartialIsAnnounced(es, n - 1);
      AnnounceStep(es, n - 1);
    } else {
      assert es[..0] == [];
    }
  }

  lemma NothingAnnounced()
    ensures Announced([]) == [] && !Opens([])
  {
  }

  lemma AnnounceStep(stream: Stream, i: nat)
    requires i < |stream|
    ensures Announced(stream[..i + 1]) == Announced(stream[..i]) + EventsFor(stream[i], Opens(stream[..i]))
    ensures Opens(stream[..i + 1]) == (Opens(stream[..i]) || stream[i].Start?)
    ensures Final(stream[i]) ==> i + 1 == |stream| && EventsFor(stream[i], Opens(stream[..i])) == []
  {
    assert stream[..i + 1][..i] == stream[..i];
  }

  /** What the calls of a batch came to, in source order. */
  predicate CameTo(stages: seq<Stage>, outcomes: seq<Outcome>) {
    |stages| == |outcomes| &&
    forall k :: 0 <= k < |stages| ==> stages[k].Finished? && stages[k].outcome == outcomes[k]
  }

  lemma SameLength(stages: seq<Stage>, outcomes: seq<Outcome>)
    requires CameTo(stages, outcomes)
    ensures |stages| == |outcomes|
  {
  }

  predicate ShouldTerminate(outcomes: seq<Outcome>) {
    outcomes != [] && forall k :: 0 <= k < |outcomes| ==> outcomes[k].terminate
  }

  lemma TerminateAgrees(stages: seq<Stage>, outcomes: seq<Outcome>)
    requires CameTo(stages, outcomes)
    ensures AllTerminate(stages) == ShouldTerminate(outcomes)
  {
    if ShouldTerminate(outcomes) {
      assert forall k :: 0 <= k < |stages| ==> stages[k].outcome == outcomes[k];
    }
    if AllTerminate(stages) {
      assert forall k :: 0 <= k < |outcomes| ==> outcomes[k] == stages[k].outcome;
    }
  }

  /** A call of a parallel batch: refused at once, or a task that is still to run. */
  datatype Entry = Settled(outcome: Outcome) | Deferred

  function PreflightStage(entry: Entry): Stage {
    if entry.Deferred? then Ready else Finished(entry.outcome, false)
  }

  predicate Preflighted(stages: seq<Stage>, entries: seq<Entry>) {
    |stages| == |entries| && forall k :: 0 <= k < |stages| ==> stages[k] == PreflightStage(entries[k])
  }

  /** The first `n` tasks have been started. */
  predicate Racing(stages: seq<Stage>, entries: seq<Entry>, n: nat) {
    && |stages| == |entries|
    && forall k :: 0 <= k < |stages| ==>
         if entries[k].Settled? then stages[k].Finished? && stages[k].outcome == entries[k].outcome
         else stages[k] == if k < n then Running else Ready
  }

  lemma PreflightedMayStart(stages: seq<Stage>, entries: seq<Entry>)
    requires Preflighted(stages, entries)
    ensures AllPreparing(stages) && Racing(stages, entries, 0)
  {
  }

  datatype RunResult = Completed(added: seq<Message>) | Unfinished | Rejected(reason: string)

  /** The log of a finished run: in protocol, nothing owed, and it added the messages that ended. */
  ghost predicate Recorded(log: seq<Event>, added: seq<Message>) {
    && Monitor(log) == Over && added == Ended(log) && Within(Messages(Injected(log)), added)
  }

  class Agent {
    var messages: seq<Message>
    var streaming: Option<Message>
    var pending: set<string>
    var error: Option<string>
    var isStreaming: bool
    var active: bool
    var aborted: bool
    /** How often users withdrew what was queued; nothing else may. */
    ghost var withdrawals: nat
    const steering: PendingMessageQueue
    const followUp: PendingMessageQueue
    const tools: seq<Tool>
    /** Run every batch one call at a time. */
    const sequential: bool

    ghost predicate Valid()
      reads this, steering, followUp
    {
      && steering != followUp && steering.Valid() && followUp.Valid()
      && steering.clears + followUp.clears == withdrawals
    }

    ghost function View(): State
      reads this
    {
      State(messages, streaming, pending, error)
    }

    /** No run is active, and nothing of the last one is left over. */
    ghost predicate Idle()
      reads this
    {
      !active && !isStreaming && streaming == None && pending == {}
    }

    constructor (
      messages: seq<Message>, steeringMode: QueueMode, followUpMode: QueueMode, tools: seq<Tool>, sequential: bool)
      ensures Valid() && Idle() && this.messages == messages
      ensures fresh(steering) && fresh(followUp)
    {
      this.messages, streaming, pending, error := messages, None, {}, None;
      isStreaming, active, aborted, withdrawals := false, false, false, 0;
      this.tools, this.sequential := tools, sequential;
      steering := new PendingMessageQueue(steeringMode);
      followUp := new PendingMessageQueue(followUpMode);
    }

    method ClearSteeringQueue()
      requires Valid()
      modifies this`withdrawals, steering
      ensures Valid() && withdrawals == old(withdrawals) + 1
      ensures steering.messages == [] && steering.taken == old(steering.taken)
    {
      steering.Clear();
      withdrawals := withdrawals + 1;
    }

    method ClearFollowUpQueue()
      requires Valid()
      modifies this`withdrawals, followUp
      ensures Valid() && withdrawals == old(withdrawals) + 1
      ensures followUp.messages == [] && followUp.taken == old(followUp.taken)
    {
      followUp.Clear();
      withdrawals := withdrawals + 1;
    }

    /** The loop awaits: others may abort the run, queue and withdraw messages and change the modes. */
    method Await()
      requires Valid()
      modifies this`aborted, this`withdrawals, steering, followUp
      ensures Valid() && (old(aborted) ==> aborted)
      ensures steering.taken == old(steering.taken) && followUp.taken == old(followUp.taken)
      ensures withdrawals >= old(withdrawals)
      ensures withdrawals == old(withdrawals) ==>
        old(steering.offered) <= steering.offered && old(followUp.offered) <= followUp.offered
    {
      var steps: nat := *;
      while steps > 0
        invariant Valid() && (old(aborted) ==> aborted)
        invariant steering.taken == old(steering.taken) && followUp.taken == old(followUp.taken)
        invariant withdrawals >= old(withdrawals)
        invariant withdrawals == old(withdrawals) ==>
          old(steering.offered) <= steering.offered && old(followUp.offered) <= followUp.offered
      {
        var message: Message := *;
        var mode: QueueMode := *;
        if {
          case true => aborted := true;
          case true => steering.Enqueue(message);
          case true => followUp.Enqueue(message);
          case true => ClearSteeringQueue();
          case true => ClearFollowUpQueue();
          case true => steering.mode := mode;
          case true => followUp.mode := mode;
        }
        steps := steps - 1;
      }
    }

    method ProcessEvents(e: Event)
      requires active
      modifies this`messages, this`streaming, this`pending, this`error
      ensures View() == Reduce(old(View()), e)
    {
      match e {
        case MessageStart(_, m) => streaming := Some(m);
        case MessageUpdate(m) => streaming := Some(m);
        case MessageEnd(_, m) => streaming, messages := None, messages + [m];
        case ToolStart(_, call) => pending := pending + {call.id};
        case ToolEnd(_, call, _) => pending := pending - {call.id};
        case TurnEnd(m, _) =>
          if m.Assistant? && m.errorMessage != "" { error := Some(m.errorMessage); }
        case AgentEnd(_) => streaming := None;
        case _ =>
      }
    }

    // ----- runs -----

    method StartRun()
      requires Idle()
      modifies this`isStreaming, this`streaming, this`error, this`active, this`aborted
      ensures active && isStreaming && streaming == None && error == None && !aborted
    {
      active, aborted := true, false;
      isStreaming, streaming, error := true, None, None;
    }

    method FinishRun()
      modifies this`isStreaming, this`streaming, this`pending, this`active
      ensures Idle()
    {
      isStreaming, streaming, pending, active := false, None, {}, false;
    }

    /** What left each queue during a run is what its log injected from that queue, and still owes. */
    ghost predicate Delivered(steeringBefore: seq<Message>, followUpBefore: seq<Message>, log: seq<Event>)
      reads this, steering, followUp
    {
      && steering.taken == steeringBefore + From(Injected(log) + Owed(Monitor(log)), Steering)
      && followUp.taken == followUpBefore + From(Injected(log) + Owed(Monitor(log)), FollowUp)
    }

    lemma NothingDelivered()
      ensures From(Injected([]) + Owed(Monitor([])), Steering) == [] == From(Injected([]) + Owed(Monitor([])), FollowUp)
    {
    }

    method RunPromptMessages(prompts: seq<Message>, skipInitialPoll: bool, turns: nat)
      returns (result: RunResult, ghost log: seq<Event>)
      requires Valid() && Idle()
      modifies this, steering, followUp
      ensures Valid() && !result.Rejected?
      ensures result.Completed? ==> Idle() && messages == old(messages) + result.added && prompts <= result.added
      ensures result.Unfinished? ==> active
      ensures Delivered(old(steering.taken), old(followUp.taken), log)
      ensures result.Completed? ==> Recorded(log, result.added)
      ensures withdrawals == old(withdrawals) ==>
        old(steering.offered) <= steering.offered && old(followUp.offered) <= followUp.offered
    {
      hide Monitor, Replay, Ended, TurnsEnded, Drained, Injected, From, Owed, Within, Messages;
      StartRun();
      var stopAfter: seq<Message> -> bool := *;
      var run := new Run(this, skipInitialPoll, stopAfter);
      var finished := run.RunAgentLoop(prompts, turns);
      log := run.log;
      if !finished { return Unfinished, log; }
      FinishRun();
      result := Completed(run.newMessages);
    }

    method RunContinuation(turns: nat) returns (result: RunResult, ghost log: seq<Event>)
      requires Valid() && Idle() && messages != [] && !messages[|messages| - 1].Assistant?
      modifies this, steering, followUp
      ensures Valid() && !result.Rejected?
      ensures result.Completed? ==> Idle() && messages == old(messages) + result.added
      ensures result.Unfinished? ==> active
      ensures Delivered(old(steering.taken), old(followUp.taken), log)
      ensures result.Completed? ==> Recorded(log, result.added)
      ensures withdrawals == old(withdrawals) ==>
        old(steering.offered) <= steering.offered && old(followUp.offered) <= followUp.offered
    {
      hide Monitor, Replay, Ended, TurnsEnded, Drained, Injected, From, Owed, Within, Messages;
      StartRun();
      var stopAfter: seq<Message> -> bool := *;
      var run := new Run(this, false, stopAfter);
      var finished := run.RunAgentLoopContinue(turns);
      log := run.log;
      if !finished { return Unfinished, log; }
      FinishRun();
      result := Completed(run.newMessages);
    }

    method Prompt(prompts: seq<Message>, turns: nat) returns (result: RunResult, ghost log: seq<Event>)
      requires Valid() && (!active ==> Idle())
      modifies this, steering, followUp
      ensures Valid() && (result.Rejected? <==> old(active))
      ensures result.Rejected? ==> unchanged(this) && unchanged(steering) && unchanged(followUp)
      ensures result.Completed? ==> Idle() && messages == old(messages) + result.added && prompts <= result.added
      ensures Delivered(old(steering.taken), old(followUp.taken), log)
      ensures result.Completed? ==> Recorded(log, result.added)
      ensures withdrawals == old(withdrawals) ==>
        old(steering.offered) <= steering.offered && old(followUp.offered) <= followUp.offered
    {
      if active {
        NothingDelivered();
        return Rejected("Agent is already processing a prompt."), [];
      }
      result, log := RunPromptMessages(prompts, false, turns);
    }

    /** The queue from which a transcript that ends with a response goes on: steering before follow-ups. */
    ghost function NextQueue(): Queue
      reads steering
    {
      if steering.messages != [] then Steering else FollowUp
    }

    /** What going on takes from a queue before the run begins. */
    ghost function TakenFirst(queue: Queue): seq<Message>
      reads this, steering, followUp
    {
      if active || messages == [] || !messages[|messages| - 1].Assistant? || queue != NextQueue() then []
      else if queue == Steering then FirstOf(steering.messages, steering.mode)
      else FirstOf(followUp.messages, followUp.mode)
    }

    /** Goes on from the transcript, with queued messages as prompts if it ends with a response. */
    method Continue(turns: nat) returns (result: RunResult, ghost log: seq<Event>)
      requires Valid() && (!active ==> Idle())
      modifies this, steering, followUp
      ensures Valid()
      ensures result.Rejected? <==>
        old(active) || old(messages) == []
        || (old(messages)[|old(messages)| - 1].Assistant? && old(steering.messages) == []
          && old(followUp.messages) == [])
      ensures result.Rejected? ==> messages == old(messages) && active == old(active)
      ensures result.Rejected? ==>
        steering.messages == old(steering.messages) && followUp.messages == old(followUp.messages)
      ensures result.Completed? ==> Idle() && messages == old(messages) + result.added
      ensures result.Completed? ==> old(TakenFirst(NextQueue())) <= result.added && Recorded(log, result.added)
      ensures Delivered(
        old(steering.taken) + old(TakenFirst(Steering)), old(followUp.taken) + old(TakenFirst(FollowUp)), log)
      ensures withdrawals == old(withdrawals) ==>
        old(steering.offered) <= steering.offered && old(followUp.offered) <= followUp.offered
    {
      hide Monitor, Ended, Injected, From, Owed;
      NothingDelivered();
      if active { return Rejected("Agent is already processing."), []; }
      if |messages| == 0 { return Rejected("No messages to continue from"), []; }
      if !messages[|messages| - 1].Assistant? {
        result, log := RunContinuation(turns);
        return;
      }
      var queuedSteering := steering.Drain();
      if |queuedSteering| > 0 {
        result, log := RunPromptMessages(queuedSteering, true, turns);
        return;
      }
      var queuedFollowUps := followUp.Drain();
      if |queuedFollowUps| > 0 {
        result, log := RunPromptMessages(queuedFollowUps, false, turns);
        return;
      }
      result, log := Rejected("Cannot continue from message role: assistant"), [];
    }
  }

  /** One run of the loop: its context, what it adds to it, and the log of what it did. */
  class Run {
    const agent: Agent
    var context: seq<Message>
    var newMessages: seq<Message>
    var skipInitialPoll: bool
    /** What the hook answers after a turn, given the new messages: whether the run should stop. */
    const stopAfter: seq<Message> -> bool
    ghost const before: State
    /** What had been taken from the two queues, and offered to them, when the run began. */
    ghost const steeringBefore: seq<Message>
    ghost const followUpBefore: seq<Message>
    ghost const offersBefore: (seq<Message>, seq<Message>)
    ghost const withdrawalsBefore: nat
    ghost var log: seq<Event>
    ghost var turnsDone: nat

    ghost predicate Valid()
      reads this, agent, agent.steering, agent.followUp
    {
      && agent.active && agent.Valid()
      && before.streaming == None && before.pending == {}
      && agent.View() == Replay(before, log)
      && Monitor(log) != Broken
      && turnsDone == TurnsEnded(log)
      && (AbortSeen in log ==> agent.aborted)
      && Accounted()
    }

    /**
     * What the run took from each queue is what the log says it polled, message by message, and unless a
     * user withdrew something, everything that was ever offered was taken or is still queued.
     */
    ghost predicate Accounted()
      reads this, agent, agent.steering, agent.followUp
    {
      && agent.steering.taken == steeringBefore + From(Drained(log), Steering)
      && agent.followUp.taken == followUpBefore + From(Drained(log), FollowUp)
      && agent.withdrawals >= withdrawalsBefore
      && (agent.withdrawals == withdrawalsBefore ==>
            offersBefore.0 <= agent.steering.offered && offersBefore.1 <= agent.followUp.offered)
    }

    ghost function At(): Progress
      reads this
    {
      Monitor(log)
    }

    /** The three transcripts agree: the context, the new messages and the messages that ended. */
    ghost predicate Agrees()
      reads this
    {
      context == before.messages + newMessages && newMessages == Ended(log)
    }

    constructor (agent: Agent, skipInitialPoll: bool, stopAfter: seq<Message> -> bool)
      requires agent.Valid() && agent.active && agent.streaming == None && agent.pending == {}
      ensures Valid() && this.agent == agent && log == [] && turnsDone == 0 && before == agent.View()
      ensures context == agent.messages && newMessages == [] && this.skipInitialPoll == skipInitialPoll
      ensures steeringBefore == agent.steering.taken && followUpBefore == agent.followUp.taken
      ensures offersBefore == (agent.steering.offered, agent.followUp.offered) && withdrawalsBefore == agent.withdrawals
    {
      this.agent, context, newMessages := agent, agent.messages, [];
      this.skipInitialPoll, this.stopAfter := skipInitialPoll, stopAfter;
      steeringBefore, followUpBefore := agent.steering.taken, agent.followUp.taken;
      offersBefore, withdrawalsBefore := (agent.steering.offered, agent.followUp.offered), agent.withdrawals;
      before, log, turnsDone := agent.View(), [], 0;
    }

    /** Others go on while the run awaits. */
    method Await()
      requires Valid()
      modifies agent`aborted, agent`withdrawals, agent.steering, agent.followUp
      ensures Valid() && (old(agent.aborted) ==> agent.aborted)
    {
      hide Monitor, Replay, Ended, TurnsEnded, Drained, From;
      agent.Await();
    }

    method Emit(e: Event)
      requires Valid() && Emitted(e) && !e.TurnEnd? && Advance(At(), e) != Broken
      modifies this`log, agent`messages, agent`streaming, agent`pending, agent`error
      ensures Valid() && log == old(log) + [e] && At() == Advance(old(At()), e)
      ensures Ended(log) == Ended(old(log)) + (if e.MessageEnd? then [e.message] else [])
    {
      hide Advance, Reduce, Monitor, Replay, Ended, TurnsEnded, Drained, From;
      LogGrows(before, log, e);
      agent.ProcessEvents(e);
      log := log + [e];
    }

    method EmitTurnEnd(message: AssistantMessage, results: seq<Message>)
      requires Valid() && Advance(At(), TurnEnd(message, results)) != Broken
      modifies this`log, this`turnsDone, agent`messages, agent`streaming, agent`pending, agent`error
      ensures Valid() && At() == Advance(old(At()), TurnEnd(message, results))
      ensures Ended(log) == Ended(old(log)) && turnsDone == old(turnsDone) + 1
      ensures old(log) <= log
    {
      hide Advance, Reduce, Monitor, Replay, Ended, TurnsEnded, Drained, From;
      LogGrows(before, log, TurnEnd(message, results));
      agent.ProcessEvents(TurnEnd(message, results));
      log, turnsDone := log + [TurnEnd(message, results)], turnsDone + 1;
    }

    /** A step that is logged and not emitted. */
    ghost method Note(e: Event)
      requires Valid() && !Emitted(e) && !e.Polled? && Advance(At(), e) != Broken
      requires e.AbortSeen? ==> agent.aborted
      modifies this`log
      ensures Valid() && log == old(log) + [e] && At() == Advance(old(At()), e)
      ensures Ended(log) == Ended(old(log))
    {
      hide Advance, Monitor, Replay, Ended, TurnsEnded, Drained, From;
      LogGrows(before, log, e);
      log := log + [e];
    }

    // ----- the response -----

    /** `tries` are the requests that were made, `response` the stream that the loop read. */
    method StreamAssistantResponse()
      returns (message: AssistantMessage, ghost response: Stream, ghost tries: seq<Attempt>)
      requires Valid() && At() == Injecting(false, None, [], false)
      modifies this`context, this`log, agent`messages, agent`streaming, agent`pending, agent`error,
        agent`aborted, agent`withdrawals, agent.steering, agent.followUp
      ensures Valid() && At() == Responded(message)
      ensures context == old(context) + [message]
      ensures Ended(log) == Ended(old(log)) + [message]
      ensures log == old(log) + ResponseEvents(response, message)
      ensures Answers(tries, response, message, agent.aborted)
    {
      hide Advance, Monitor, Replay, Ended, TurnsEnded, Drained, From, Rejects, GaveUp, Passed, FinalMessage;
      Await();
      var empty: AssistantMessage := *;
      var first: Attempt, second: Attempt, third: Attempt := *, *, *;
      var provider := (k: nat) => if k == 0 then first else if k == 1 then second else third;
      var stream, final, aborted, requests := OpenStreams(provider, agent.aborted, empty);
      agent.aborted := aborted;
      response, tries, message := stream, requests, final;
      var partial := ReadStream(stream);
      FinishResponse(partial, message);
    }

    /** The loop over the stream's events, up to its final event. */
    method ReadStream(stream: Stream) returns (partial: Option<AssistantMessage>)
      requires Valid() && At() == Injecting(false, None, [], false)
      modifies this`context, this`log, agent`messages, agent`streaming, agent`pending, agent`error
      ensures Valid() && Ended(log) == Ended(old(log))
      ensures context == old(context) + (if partial.Some? then [partial.value] else [])
      ensures At() == if partial.Some? then Responding else Injecting(false, None, [], false)
      ensures log == old(log) + Announced(stream) && partial.Some? == Opens(stream)
    {
      hide Advance, Monitor, Replay, Ended, TurnsEnded, Drained, From, Accounted, Announced, Opens, EventsFor;
      NothingAnnounced();
      partial := None;
      var i := 0;
      assert stream[..0] == [];
      while i < |stream|
        invariant i <= |stream| && Valid()
        invariant context == old(context) + (if partial.Some? then [partial.value] else [])
        invariant At() == if partial.Some? then Responding else Injecting(false, None, [], false)
        invariant Ended(log) == Ended(old(log))
        invariant log == old(log) + Announced(stream[..i]) && partial.Some? == Opens(stream[..i])
      {
        var event := stream[i];
        AnnounceStep(stream, i);
        if Final(event) {
          assert stream[..i + 1] == stream;
          return;
        }
        partial := ForwardPartial(partial, event);
        i := i + 1;
      }
      assert stream[..i] == stream;
    }

    /** A partial message takes the place of the one before it. */
    method ForwardPartial(partial: Option<AssistantMessage>, event: StreamEvent)
      returns (next: Option<AssistantMessage>)
      requires Valid() && !Final(event)
      requires partial.Some? ==> context != []
      requires At() == if partial.Some? then Responding else Injecting(false, None, [], false)
      modifies this`context, this`log, agent`messages, agent`streaming, agent`pending, agent`error
      ensures Valid() && Ended(log) == Ended(old(log))
      ensures At() == if next.Some? then Responding else Injecting(false, None, [], false)
      ensures next == if event.Start? || partial.Some? then Some(event.partial) else None
      ensures log == old(log) + EventsFor(event, partial.Some?)
      ensures context == if next.None? then old(context) else
        (if partial.Some? then old(context)[..|old(context)| - 1] else old(context)) + [event.partial]
    {
      hide Advance, Monitor, Replay, Ended, TurnsEnded, Drained, From;
      next := partial;
      ResponseSteps(event.partial);
      if event.Start? {
        next := Some(event.partial);
        if partial.Some? {
          context := context[|context| - 1 := event.partial];
        } else {
          context := context + [event.partial];
          Emit(MessageStart(Response, event.partial));
        }
      } else if partial.Some? {
        next := Some(event.partial);
        context := context[|context| - 1 := event.partial];
        Emit(MessageUpdate(event.partial));
      }
    }

    method FinishResponse(partial: Option<AssistantMessage>, message: AssistantMessage)
      requires Valid()
      requires partial.Some? ==> context != []
      requires At() == if partial.Some? then Responding else Injecting(false, None, [], false)
      modifies this`context, this`log, agent`messages, agent`streaming, agent`pending, agent`error
      ensures Valid() && At() == Responded(message)
      ensures context == (if partial.Some? then old(context)[..|old(context)| - 1] else old(context)) + [message]
      ensures Ended(log) == Ended(old(log)) + [message]
      ensures log == old(log) + Conclusion(partial.Some?, message)
    {
      hide Advance, Monitor, Replay, Ended, TurnsEnded, Drained, From;
      ResponseSteps(message);
      if partial.Some? {
        context := context[|context| - 1 := message];
      } else {
        context := context + [message];
        Emit(MessageStart(Response, message));
      }
      Emit(MessageEnd(Response, message));
    }

    // ----- the tool batch -----

    /** The batch has ended: every call that started is finished and reported. */
    ghost predicate BatchOver(message: AssistantMessage, mode: Mode, results: seq<Message>, terminate: bool)
      reads this
    {
      && At().Tools? && !At().batch.open
      && At().batch.message == message && At().batch.mode == mode && At().batch.results == results
      && |At().batch.stages| == |results|
      && terminate == AllTerminate(At().batch.stages)
    }

    method EmitToolResult(ghost b: Batch, call: ToolCall, outcome: Outcome) returns (result: Message)
      requires Valid() && At() == Tools(b) && !b.open
      requires |b.results| < |b.stages| <= |ToolCalls(b.message)| && call == ToolCalls(b.message)[|b.results|]
      requires b.stages[|b.results|].Finished? && b.stages[|b.results|].outcome == outcome
      requires b.mode.Parallel? ==> AllFinished(b.stages)
      modifies this`log, agent`messages, agent`streaming, agent`pending, agent`error
      ensures Valid() && At() == Tools(b.(results := b.results + [result]))
      ensures Ended(log) == Ended(old(log)) + [result]
      ensures old(log) <= log
    {
      hide Advance, Monitor, Replay, Ended, TurnsEnded, Drained, From, Accounted;
      result := ResultMessage(call, outcome);
      ReportSteps(b);
      Emit(MessageStart(Result, result));
      Emit(MessageEnd(Result, result));
    }

    /** The tool is looked up, its arguments are checked, and a hook may block the call. */
    method PrepareToolCall(ghost b: Batch, slot: nat, call: ToolCall)
      returns (ready: bool, refusal: Outcome, ghost valid: bool, ghost blocked: bool)
      requires Valid() && At() == Tools(b) && !b.open && !b.mode.Truncated?
      requires slot < |b.stages| && b.stages[slot] == Started
      modifies this`log, agent`aborted, agent`withdrawals, agent.steering, agent.followUp
      ensures Valid() && Ended(log) == Ended(old(log))
      ensures At() == Tools(b.(stages := b.stages[slot := if ready then Ready else Refused]))
      ensures !ready ==> refusal.isError && !refusal.terminate
      ensures ready <==> ResolveTool(agent.tools, call.name).Some? && valid && !blocked && !agent.aborted
      ensures old(agent.aborted) ==> agent.aborted
      ensures old(log) <= log
    {
      hide Advance, Monitor, Replay, Ended, TurnsEnded, Drained, From, Accounted;
      var accepted: bool, refused: bool := *, *;
      var reason: string := *;
      valid, blocked := accepted, refused;
      ready, refusal := false, ErrorOutcome(reason);
      Await();
      if ResolveTool(agent.tools, call.name).Some? && accepted && !agent.aborted && !refused {
        ready := true;
      }
      PrepareSteps(b, slot, ready);
      Note(Prepared(slot, ready));
    }

    /** One call starts and ends without being prepared. */
    method FailTruncatedCall(ghost b: Batch, slot: nat, call: ToolCall) returns (outcome: Outcome)
      requires Valid() && At() == Tools(b) && !b.open && b.mode.Truncated? && |b.results| == |b.stages|
      requires slot == |b.stages| < |ToolCalls(b.message)| && call == ToolCalls(b.message)[slot]
      modifies this`log, agent`messages, agent`streaming, agent`pending, agent`error
      ensures Valid() && Ended(log) == Ended(old(log))
      ensures !outcome.terminate && At() == Tools(b.(stages := b.stages + [Finished(outcome, false)]))
      ensures old(log) <= log
    {
      hide Advance, Monitor, Replay, Ended, TurnsEnded, Drained, From, Accounted;
      outcome := ErrorOutcome("Tool call \"" + call.name
        + "\" was not executed: the response hit the output token limit");
      StartSteps(b);
      Emit(ToolStart(slot, call));
      ghost var started := b.(stages := b.stages + [Started]);
      EndSteps(started, slot, outcome);
      Emit(ToolEnd(slot, call, outcome));
      assert started.stages[slot := Finished(outcome, false)] == b.stages + [Finished(outcome, false)];
    }

    /** What the loop over the calls of a batch has done: each call is reported before the next starts. */
    ghost predicate Reporting(b: Batch, message: AssistantMessage, mode: Mode, outcomes: seq<Outcome>)
      reads this
    {
      && At() == Tools(b) && b.message == message && b.mode == mode && !b.open
      && |b.stages| == |b.results| && |b.stages| <= |ToolCalls(message)|
      && CameTo(b.stages, outcomes)
    }

    method FailTruncatedToolCalls(message: AssistantMessage, calls: seq<ToolCall>)
      returns (results: seq<Message>, terminate: bool)
      requires Valid() && calls == ToolCalls(message) && calls != []
      requires At() == Tools(Batch(message, Truncated, [], [], false))
      modifies this`log, agent`messages, agent`streaming, agent`pending, agent`error
      ensures Valid() && BatchOver(message, Truncated, results, terminate)
      ensures |results| == |calls| && Ended(log) == Ended(old(log)) + results
      ensures old(log) <= log
    {
      hide Advance, Monitor, Replay, Ended, TurnsEnded, Drained, From, Accounted;
      results, terminate := [], false;
      ghost var b, outcomes := Batch(message, Truncated, [], [], false), [];
      var i := 0;
      while i < |calls|
        invariant old(log) <= log
        invariant i <= |calls| && Valid() && Reporting(b, message, Truncated, outcomes) && |outcomes| == i
        invariant forall k :: 0 <= k < i ==> !outcomes[k].terminate
        invariant b.results == results && Ended(log) == Ended(old(log)) + results
      {
        var outcome := FailTruncatedCall(b, i, calls[i]);
        ghost var ended := b.(stages := b.stages + [Finished(outcome, false)]);
        outcomes := outcomes + [outcome];
        var result := EmitToolResult(ended, calls[i], outcome);
        b := ended.(results := b.results + [result]);
        results := results + [result];
        i := i + 1;
      }
      TerminateAgrees(b.stages, outcomes);
      assert !outcomes[0].terminate;
    }

    method ReportUpdates(ghost b: Batch, slot: nat, call: ToolCall)
      requires Valid() && At() == Tools(b) && !b.open && slot < |b.stages| <= |ToolCalls(b.message)|
      requires call == ToolCalls(b.message)[slot] && b.stages[slot].Running?
      modifies this`log, agent`messages, agent`streaming, agent`pending, agent`error, agent`aborted, agent`withdrawals,
        agent.steering, agent.followUp
      ensures Valid() && At() == Tools(b) && Ended(log) == Ended(old(log))
      ensures old(agent.aborted) ==> agent.aborted
      ensures old(log) <= log
    {
      hide Advance, Monitor, Replay, Ended, TurnsEnded, Drained, From, Accounted;
      RunSteps(b, slot);
      Await();
      var updates: nat := *;
      while updates > 0
        invariant old(log) <= log
        invariant Valid() && At() == Tools(b) && Ended(log) == Ended(old(log))
        invariant old(agent.aborted) ==> agent.aborted
      {
        Emit(ToolUpdate(slot, call));
        Await();
        updates := updates - 1;
      }
    }

    /** The tool runs, with updates on the way, and a hook may rewrite its outcome. */
    method ExecutePreparedToolCall(ghost b: Batch, slot: nat, call: ToolCall) returns (outcome: Outcome)
      requires Valid() && At() == Tools(b) && !b.open && slot < |b.stages| <= |ToolCalls(b.message)|
      requires call == ToolCalls(b.message)[slot] && b.stages[slot].Ready? && NoneStarted(b.stages)
      modifies this`log, agent`messages, agent`streaming, agent`pending, agent`error, agent`aborted, agent`withdrawals,
        agent.steering, agent.followUp
      ensures Valid() && Ended(log) == Ended(old(log)) && (old(agent.aborted) ==> agent.aborted)
      ensures At() == Tools(b.(stages := b.stages[slot := Running]))
      ensures old(log) <= log
    {
      hide Advance, Monitor, Replay, Ended, TurnsEnded, Drained, From, Accounted;
      RunSteps(b, slot);
      Note(Executing(slot));
      ReportUpdates(b.(stages := b.stages[slot := Running]), slot, call);
      outcome := *;
    }

    method RunCall(ghost b: Batch, slot: nat, call: ToolCall) returns (outcome: Outcome, ghost ran: bool)
      requires Valid() && At() == Tools(b) && !b.open && b.mode.Sequential? && |b.results| == |b.stages|
      requires slot == |b.stages| < |ToolCalls(b.message)| && call == ToolCalls(b.message)[slot]
      requires AllFinished(b.stages)
      modifies this`log, agent`messages, agent`streaming, agent`pending, agent`error, agent`aborted, agent`withdrawals,
        agent.steering, agent.followUp
      ensures Valid() && Ended(log) == Ended(old(log)) && (old(agent.aborted) ==> agent.aborted)
      ensures At() == Tools(b.(stages := b.stages + [Finished(outcome, ran)]))
      ensures old(log) <= log
    {
      hide Advance, Monitor, Replay, Ended, TurnsEnded, Drained, From, Accounted;
      StartSteps(b);
      Emit(ToolStart(slot, call));
      ghost var started := b.(stages := b.stages + [Started]);
      var ready, refusal;
      ghost var valid, blocked;
      ready, refusal, valid, blocked := PrepareToolCall(started, slot, call);
      ghost var next := started.(stages := started.stages[slot := if ready then Ready else Refused]);
      outcome, ran := refusal, ready;
      if ready {
        outcome := ExecutePreparedToolCall(next, slot, call);
        next := next.(stages := next.stages[slot := Running]);
      }
      EndSteps(next, slot, outcome);
      Emit(ToolEnd(slot, call, outcome));
      assert next.stages[slot := Finished(outcome, ran)] == b.stages + [Finished(outcome, ran)];
    }

    method RunAndReport(ghost b: Batch, slot: nat, call: ToolCall, ghost outcomes: seq<Outcome>)
      returns (outcome: Outcome, result: Message, ghost next: Batch)
      requires Valid() && Reporting(b, b.message, Sequential, outcomes)
      requires slot == |b.stages| < |ToolCalls(b.message)| && call == ToolCalls(b.message)[slot]
      modifies this`log, agent`messages, agent`streaming, agent`pending, agent`error, agent`aborted, agent`withdrawals,
        agent.steering, agent.followUp
      ensures Valid() && Reporting(next, b.message, Sequential, outcomes + [outcome])
      ensures old(agent.aborted) ==> agent.aborted
      ensures next.results == b.results + [result] && Ended(log) == Ended(old(log)) + [result]
      ensures old(log) <= log
    {
      hide Advance, Monitor, Replay, Ended, TurnsEnded, Drained, From, Accounted;
      ghost var ran;
      outcome, ran := RunCall(b, slot, call);
      ghost var ended := b.(stages := b.stages + [Finished(outcome, ran)]);
      result := EmitToolResult(ended, call, outcome);
      next := ended.(results := b.results + [result]);
    }

    method ExecuteToolCallsSequential(message: AssistantMessage, calls: seq<ToolCall>)
      returns (results: seq<Message>, terminate: bool)
      requires Valid() && calls == ToolCalls(message) && calls != []
      requires At() == Tools(Batch(message, Sequential, [], [], false))
      modifies this`log, agent`messages, agent`streaming, agent`pending, agent`error, agent`aborted, agent`withdrawals,
        agent.steering, agent.followUp
      ensures Valid() && BatchOver(message, Sequential, results, terminate)
      ensures |results| == |calls| || agent.aborted
      ensures old(agent.aborted) ==> |results| == 1
      ensures Ended(log) == Ended(old(log)) + results && |results| > 0
      ensures old(log) <= log
    {
      hide Advance, Monitor, Replay, Ended, TurnsEnded, Drained, From, Accounted;
      results := [];
      var outcomes := [];
      ghost var b := Batch(message, Sequential, [], [], false);
      var i := 0;
      while i < |calls|
        invariant old(log) <= log
        invariant i <= |calls| && Valid() && Reporting(b, message, Sequential, outcomes) && |outcomes| == i
        invariant b.results == results && Ended(log) == Ended(old(log)) + results
        invariant old(agent.aborted) ==> agent.aborted && i == 0
        invariant |results| == i
      {
        var outcome, result;
        outcome, result, b := RunAndReport(b, i, calls[i], outcomes);
        results := results + [result];
        outcomes := outcomes + [outcome];
        i := i + 1;
        Await();
        if agent.aborted { break; }
      }
      terminate := ShouldTerminate(outcomes);
      TerminateAgrees(b.stages, outcomes);
    }

    // ----- parallel batches -----

    method PreflightCall(ghost b: Batch, slot: nat, call: ToolCall) returns (entry: Entry)
      requires Valid() && At() == Tools(b) && !b.open && b.mode.Parallel? && b.results == []
      requires slot == |b.stages| < |ToolCalls(b.message)| && call == ToolCalls(b.message)[slot]
      requires AllPreparing(b.stages)
      modifies this`log, agent`messages, agent`streaming, agent`pending, agent`error, agent`aborted, agent`withdrawals,
        agent.steering, agent.followUp
      ensures Valid() && Ended(log) == Ended(old(log)) && (old(agent.aborted) ==> agent.aborted)
      ensures At() == Tools(b.(stages := b.stages + [PreflightStage(entry)]))
      ensures old(log) <= log
    {
      hide Advance, Monitor, Replay, Ended, TurnsEnded, Drained, From, Accounted;
      StartSteps(b);
      Emit(ToolStart(slot, call));
      ghost var started := b.(stages := b.stages + [Started]);
      var ready, refusal;
      ghost var valid, blocked;
      ready, refusal, valid, blocked := PrepareToolCall(started, slot, call);
      assert started.stages[slot := Ready] == b.stages + [Ready];
      if ready { return Deferred; }
      ghost var refused := started.(stages := started.stages[slot := Refused]);
      EndSteps(refused, slot, refusal);
      Emit(ToolEnd(slot, call, refusal));
      assert refused.stages[slot := Finished(refusal, false)] == b.stages + [Finished(refusal, false)];
      return Settled(refusal);
    }

    /** The calls that may run are started one after the other, before any of them can end. */
    method LaunchCalls(ghost b: Batch, calls: seq<ToolCall>, entries: seq<Entry>) returns (ghost next: Batch)
      requires Valid() && At() == Tools(b) && !b.open && calls == ToolCalls(b.message)
      requires |entries| <= |calls| && Racing(b.stages, entries, 0)
      modifies this`log, agent`messages, agent`streaming, agent`pending, agent`error, agent`aborted, agent`withdrawals,
        agent.steering, agent.followUp
      ensures Valid() && Ended(log) == Ended(old(log)) && (old(agent.aborted) ==> agent.aborted)
      ensures At() == Tools(next) && next == b.(stages := next.stages) && Racing(next.stages, entries, |entries|)
      ensures old(log) <= log
    {
      hide Advance, Monitor, Replay, Ended, TurnsEnded, Drained, From, Accounted;
      next := b;
      var k := 0;
      while k < |entries|
        invariant old(log) <= log
        invariant k <= |entries| && Valid() && Ended(log) == Ended(old(log)) && (old(agent.aborted) ==> agent.aborted)
        invariant At() == Tools(next) && next == b.(stages := next.stages) && Racing(next.stages, entries, k)
      {
        if entries[k].Deferred? {
          RunSteps(next, k);
          Note(Executing(k));
          next := next.(stages := next.stages[k := Running]);
          ReportUpdates(next, k, calls[k]);
        }
        k := k + 1;
      }
    }

    /** The calls that run end in any order, with updates in between. */
    method CompleteCalls(ghost b: Batch, calls: seq<ToolCall>, entries: seq<Entry>)
      returns (outcomes: seq<Outcome>, ghost next: Batch)
      requires Valid() && At() == Tools(b) && !b.open && calls == ToolCalls(b.message)
      requires |entries| <= |calls| && Racing(b.stages, entries, |entries|)
      modifies this`log, agent`messages, agent`streaming, agent`pending, agent`error, agent`aborted, agent`withdrawals,
        agent.steering, agent.followUp
      ensures Valid() && Ended(log) == Ended(old(log)) && (old(agent.aborted) ==> agent.aborted)
      ensures At() == Tools(next) && next == b.(stages := next.stages) && CameTo(next.stages, outcomes)
      ensures |outcomes| == |entries|
      ensures old(log) <= log
    {
      hide Advance, Monitor, Replay, Ended, TurnsEnded, Drained, From, Accounted;
      next := b;
      var settled, live := entries, set k | 0 <= k < |entries| && entries[k].Deferred?;
      var budget: nat := *;
      while live != {}
        invariant old(log) <= log
        invariant |settled| == |entries| && Valid() && Ended(log) == Ended(old(log))
        invariant old(agent.aborted) ==> agent.aborted
        invariant At() == Tools(next) && next == b.(stages := next.stages)
        invariant Racing(next.stages, settled, |settled|)
        invariant forall k :: k in live <==> 0 <= k < |settled| && settled[k].Deferred?
        decreases |live| + budget
      {
        var k :| k in live;
        var more: bool := *;
        if budget > 0 && more {
          ReportUpdates(next, k, calls[k]);
          budget := budget - 1;
        } else {
          var outcome: Outcome := *;
          EndSteps(next, k, outcome);
          Emit(ToolEnd(k, calls[k], outcome));
          next := next.(stages := next.stages[k := Finished(outcome, true)]);
          settled := settled[k := Settled(outcome)];
          live := live - {k};
        }
      }
      assert forall k :: 0 <= k < |settled| ==> settled[k].Settled?;
      outcomes := seq(|settled|, k requires 0 <= k < |settled| && settled[k].Settled? => settled[k].outcome);
    }

    method ReportAll(ghost b: Batch, calls: seq<ToolCall>, outcomes: seq<Outcome>) returns (results: seq<Message>)
      requires Valid() && At() == Tools(b) && !b.open && b.mode.Parallel? && b.results == []
      requires calls == ToolCalls(b.message) && |outcomes| <= |calls| && CameTo(b.stages, outcomes)
      modifies this`log, agent`messages, agent`streaming, agent`pending, agent`error
      ensures Valid() && At() == Tools(b.(results := results)) && |results| == |outcomes|
      ensures Ended(log) == Ended(old(log)) + results
      ensures old(log) <= log
    {
      hide Advance, Monitor, Replay, Ended, TurnsEnded, Drained, From, Accounted;
      results := [];
      var k := 0;
      while k < |outcomes|
        invariant old(log) <= log
        invariant k <= |outcomes| && Valid() && At() == Tools(b.(results := results)) && |results| == k
        invariant Ended(log) == Ended(old(log)) + results
      {
        var result := EmitToolResult(b.(results := results), calls[k], outcomes[k]);
        results := results + [result];
        k := k + 1;
      }
    }

    /** The calls are started and prepared in source order, until the signal aborts. */
    method PreflightCalls(message: AssistantMessage, calls: seq<ToolCall>)
      returns (entries: seq<Entry>, ghost b: Batch)
      requires Valid() && calls == ToolCalls(message)
      requires At() == Tools(Batch(message, Parallel, [], [], false))
      modifies this`log, agent`messages, agent`streaming, agent`pending, agent`error, agent`aborted, agent`withdrawals,
        agent.steering, agent.followUp
      ensures Valid() && Ended(log) == Ended(old(log)) && |entries| <= |calls|
      ensures At() == Tools(b) && b == Batch(message, Parallel, b.stages, [], false) && Preflighted(b.stages, entries)
      ensures |entries| == |calls| || (agent.aborted && entries != [])
      ensures old(agent.aborted) && calls != [] ==> |entries| == 1
      ensures old(log) <= log
    {
      hide Advance, Monitor, Replay, Ended, TurnsEnded, Drained, From, Accounted;
      entries, b := [], Batch(message, Parallel, [], [], false);
      var i := 0;
      while i < |calls|
        invariant old(log) <= log
        invariant i <= |calls| && Valid() && At() == Tools(b) && b == Batch(message, Parallel, b.stages, [], false)
        invariant |entries| == i && Preflighted(b.stages, entries) && Ended(log) == Ended(old(log))
        invariant old(agent.aborted) ==> agent.aborted && i == 0
      {
        PreflightedMayStart(b.stages, entries);
        var entry := PreflightCall(b, i, calls[i]);
        b := b.(stages := b.stages + [PreflightStage(entry)]);
        entries := entries + [entry];
        i := i + 1;
        Await();
        if agent.aborted { break; }
      }
    }

    method ExecuteToolCallsParallel(message: AssistantMessage, calls: seq<ToolCall>)
      returns (results: seq<Message>, terminate: bool)
      requires Valid() && calls == ToolCalls(message) && calls != []
      requires At() == Tools(Batch(message, Parallel, [], [], false))
      modifies this`log, agent`messages, agent`streaming, agent`pending, agent`error, agent`aborted, agent`withdrawals,
        agent.steering, agent.followUp
      ensures Valid() && BatchOver(message, Parallel, results, terminate)
      ensures |results| == |calls| || agent.aborted
      ensures old(agent.aborted) ==> |results| == 1
      ensures Ended(log) == Ended(old(log)) + results && |results| > 0
      ensures old(log) <= log
    {
      hide Advance, Monitor, Replay, Ended, TurnsEnded, Drained, From, Accounted, Racing, Preflighted, CameTo,
        ShouldTerminate, AllTerminate;
      var entries;
      ghost var b;
      entries, b := PreflightCalls(message, calls);
      PreflightedMayStart(b.stages, entries);
      b := LaunchCalls(b, calls, entries);
      var outcomes;
      outcomes, b := CompleteCalls(b, calls, entries);
      results := ReportAll(b, calls, outcomes);
      terminate := ShouldTerminate(outcomes);
      TerminateAgrees(b.stages, outcomes);
      assert |b.stages| == |outcomes| by { SameLength(b.stages, outcomes); }
    }

    method ExecuteToolCalls(message: AssistantMessage, calls: seq<ToolCall>)
      returns (results: seq<Message>, terminate: bool, ghost mode: Mode)
      requires Valid() && At() == Responded(message) && !Failed(message)
      requires calls == ToolCalls(message) && calls != []
      modifies this`log, agent`messages, agent`streaming, agent`pending, agent`error, agent`aborted, agent`withdrawals,
        agent.steering, agent.followUp
      ensures Valid() && BatchOver(message, mode, results, terminate)
      ensures |results| == |calls| || agent.aborted
      ensures Ended(log) == Ended(old(log)) + results
      ensures mode.Parallel? ==> !agent.sequential && !RunsInSequence(agent.tools, calls)
      ensures mode.Sequential? ==> agent.sequential || RunsInSequence(agent.tools, calls)
      ensures mode.Truncated? <==> message.stopReason == Length
      ensures old(agent.aborted) && !mode.Truncated? ==> |results| == 1
      ensures old(log) <= log
    {
      hide Advance, Monitor, Replay, Ended, TurnsEnded, Drained, From, Accounted;
      mode := if message.stopReason == Length then Truncated
        else if agent.sequential || RunsInSequence(agent.tools, calls) then Sequential else Parallel;
      DispatchSteps(message, mode);
      Note(Dispatched(mode));
      if message.stopReason == Length {
        results, terminate := FailTruncatedToolCalls(message, calls);
      } else if agent.sequential || RunsInSequence(agent.tools, calls) {
        results, terminate := ExecuteToolCallsSequential(message, calls);
      } else {
        results, terminate := ExecuteToolCallsParallel(message, calls);
      }
    }

    // ----- the queues -----

    method GetSteeringMessages() returns (polled: seq<Message>)
      requires Valid() && MayPoll(At(), Steering)
      modifies this`log, this`skipInitialPoll, agent`aborted, agent`withdrawals, agent.steering, agent.followUp
      ensures Valid() && !skipInitialPoll && Ended(log) == Ended(old(log))
      ensures At() == Advance(old(At()), Polled(Steering, polled)) && log == old(log) + [Polled(Steering, polled)]
      ensures if old(skipInitialPoll) then polled == []
        else polled == FirstOf(polled + agent.steering.messages, agent.steering.mode)
      ensures old(agent.aborted) ==> agent.aborted
    {
      hide Advance, Monitor, Replay, Ended, TurnsEnded, Drained, From;
      Await();
      if skipInitialPoll {
        skipInitialPoll, polled := false, [];
      } else {
        polled := agent.steering.Drain();
      }
      PollSteps(At(), Steering, polled);
      LogGrows(before, log, Polled(Steering, polled));
      PollGrows(Drained(log), Steering, polled);
      log := log + [Polled(Steering, polled)];
    }

    method GetFollowUpMessages() returns (polled: seq<Message>)
      requires Valid() && MayPoll(At(), FollowUp)
      modifies this`log, agent`aborted, agent`withdrawals, agent.steering, agent.followUp
      ensures Valid() && Ended(log) == Ended(old(log))
      ensures At() == Advance(old(At()), Polled(FollowUp, polled)) && log == old(log) + [Polled(FollowUp, polled)]
      ensures polled == FirstOf(polled + agent.followUp.messages, agent.followUp.mode)
      ensures old(agent.aborted) ==> agent.aborted
    {
      hide Advance, Monitor, Replay, Ended, TurnsEnded, Drained, From;
      Await();
      polled := agent.followUp.Drain();
      PollSteps(At(), FollowUp, polled);
      LogGrows(before, log, Polled(FollowUp, polled));
      PollGrows(Drained(log), FollowUp, polled);
      log := log + [Polled(FollowUp, polled)];
    }

    /** Why the loop goes on: tool results wait for the model, or messages wait to be injected. */
    ghost predicate Due(pending: seq<Message>, origin: Origin, hasMore: bool)
      reads this
    {
      && At().Between? && At().polls != NotPolled && MayPend(pending, origin)
      && (pending == [] ==> !At().cut)
      && (At().more ==> hasMore) && (hasMore ==> At().more || pending != [])
      && if origin.Resume? then At() == Between(false, true, AllEmpty, [])
         else At().owed == OwedAs(pending, origin) && (At().polls == Loaded <==> pending != [])
    }

    /** After a turn: steering messages, and for a response cut short a follow-up or the request to go on. */
    method NextPending(message: AssistantMessage, hasMore: bool) returns (pending: seq<Message>, origin: Origin)
      requires Valid() && Agrees()
      requires At() == Between(hasMore, CutShort(message), NotPolled, []) && (hasMore ==> !CutShort(message))
      modifies this`log, this`skipInitialPoll, agent`aborted, agent`withdrawals, agent.steering, agent.followUp
      ensures AtTurn(false, pending, origin, hasMore) && old(log) <= log
      ensures origin.Resume? ==> CutShort(message) && !old(agent.aborted)
      ensures message.stopReason == Length && ToolCalls(message) == [] && pending == [] ==> agent.aborted
    {
      hide Monitor, Replay, Ended, TurnsEnded, Drained, From, Accounted;
      pending := GetSteeringMessages();
      origin := Queued(Steering);
      if CutShort(message) && !agent.aborted {
        if pending == [] {
          pending, origin := PollWhenCut();
        }
      } else if CutShort(message) && pending == [] {
        Note(AbortSeen);
      }
    }

    /** A response was cut short and no steering came: a follow-up, or the request to resume. */
    method PollWhenCut() returns (pending: seq<Message>, origin: Origin)
      requires Valid() && Agrees() && At() == Between(false, true, SteeringEmpty, [])
      modifies this`log, agent`aborted, agent`withdrawals, agent.steering, agent.followUp
      ensures AtTurn(false, pending, origin, false) && old(log) <= log
      ensures origin.Resume? ==> !old(agent.aborted)
      ensures pending == [] ==> agent.aborted
    {
      hide Monitor, Replay, Ended, TurnsEnded, Drained, From, Accounted;
      pending := GetFollowUpMessages();
      origin := Queued(FollowUp);
      Await();
      if pending == [] && !agent.aborted {
        pending, origin := [RESUME], Resume;
      } else if pending == [] {
        Note(AbortSeen);
      }
    }

    method InjectMessage(ghost rest: seq<Message>, message: Message, origin: Origin)
      requires Valid() && Agrees() && rest != [] && message == rest[0] && MayPend(rest, origin)
      requires At() == Injecting(false, None, OwedAs(rest, origin), origin.Resume?)
      modifies this`context, this`newMessages, this`log,
        agent`messages, agent`streaming, agent`pending, agent`error
      ensures Valid() && Agrees() && newMessages == old(newMessages) + [message] && old(log) <= log
      ensures At() == Injecting(false, None, OwedAs(rest[1..], origin), false)
    {
      hide Advance, Monitor, Replay, Ended, TurnsEnded, Drained, From;
      InjectSteps(rest, origin);
      Emit(MessageStart(origin, message));
      Emit(MessageEnd(origin, message));
      context, newMessages := context + [message], newMessages + [message];
    }

    /** Queued messages enter the conversation before the next response. */
    method Inject(pending: seq<Message>, origin: Origin)
      requires Valid() && Agrees() && MayPend(pending, origin)
      requires At() == Injecting(false, None, OwedAs(pending, origin), origin.Resume?)
      modifies this`context, this`newMessages, this`log,
        agent`messages, agent`streaming, agent`pending, agent`error
      ensures Valid() && Agrees() && At() == Injecting(false, None, [], false)
      ensures newMessages == old(newMessages) + pending && old(log) <= log
    {
      hide *;
      var k := 0;
      assert pending[..0] == [] && pending[0..] == pending;
      ResumeIsOne(pending, origin);
      while k < |pending|
        invariant k <= |pending| && Valid() && Agrees() && old(log) <= log
        invariant newMessages == old(newMessages) + pending[..k]
        invariant k < |pending| ==> MayPend(pending[k..], origin)
        invariant At() == Injecting(false, None, OwedAs(pending[k..], origin), origin.Resume? && k == 0)
      {
        InjectMessage(pending[k..], pending[k], origin);
        assert pending[k..][1..] == pending[k + 1..] && pending[..k + 1] == pending[..k] + [pending[k]];
        k := k + 1;
        StillPending(pending, origin, k);
      }
      assert pending[..k] == pending && pending[k..] == [];
      NothingOwed(origin);
    }

    // ----- turns -----

    method AnswerToolCalls(message: AssistantMessage) returns (results: seq<Message>, hasMore: bool)
      requires Valid() && At() == Responded(message) && !Failed(message)
      modifies this`context, this`newMessages, this`log,
        agent`messages, agent`streaming, agent`pending, agent`error, agent`aborted, agent`withdrawals,
        agent.steering, agent.followUp
      ensures Valid() && context == old(context) + results && newMessages == old(newMessages) + results
      ensures Ended(log) == Ended(old(log)) + results
      ensures Advance(At(), TurnEnd(message, results)) == Between(hasMore, CutShort(message), NotPolled, [])
      ensures hasMore ==> !CutShort(message)
      ensures |results| == |ToolCalls(message)| || agent.aborted
      ensures old(log) <= log
    {
      hide Advance, Monitor, Replay, Ended, TurnsEnded, Drained, From;
      var calls := ToolCalls(message);
      results, hasMore := [], false;
      if |calls| > 0 {
        var terminate;
        ghost var mode;
        results, terminate, mode := ExecuteToolCalls(message, calls);
        hasMore := !terminate;
        context, newMessages := context + results, newMessages + results;
        BatchEndSteps(At().batch);
      } else {
        SilentEndSteps(message);
      }
    }

    /** One turn after its messages are in place. `stop` says that the response failed. */
    method RunTurn() returns (message: AssistantMessage, hasMore: bool, stop: bool)
      requires Valid() && Agrees() && At() == Injecting(false, None, [], false)
      modifies this`context, this`newMessages, this`log, this`turnsDone,
        agent`messages, agent`streaming, agent`pending, agent`error, agent`aborted, agent`withdrawals,
        agent.steering, agent.followUp
      ensures Valid() && Agrees() && stop == Failed(message) && old(newMessages) <= newMessages
      ensures At() == if stop then Closing else Between(hasMore, CutShort(message), NotPolled, [])
      ensures hasMore ==> !CutShort(message)
      ensures turnsDone == old(turnsDone) + 1
      ensures old(log) <= log
    {
      hide Advance, Monitor, Replay, Ended, TurnsEnded, Drained, From, Answers, ResponseEvents, Calls, ToolCalls,
        CutShort;
      ghost var response, tries;
      message, response, tries := StreamAssistantResponse();
      newMessages := newMessages + [message];
      hasMore, stop := false, Failed(message);
      if stop {
        SilentEndSteps(message);
        EmitTurnEnd(message, []);
        return;
      }
      var results;
      results, hasMore := AnswerToolCalls(message);
      EmitTurnEnd(message, results);
    }

    /** Where the loop stands when it may start a turn: the first turn has been started already. */
    ghost predicate AtTurn(firstTurn: bool, pending: seq<Message>, origin: Origin, hasMore: bool)
      reads this, agent, agent.steering, agent.followUp
    {
      && Valid() && Agrees()
      && if firstTurn then
           hasMore && origin == Queued(Steering) && At() == Injecting(false, None, OwedAs(pending, origin), false)
         else Due(pending, origin, hasMore)
    }

    method StartTurn(firstTurn: bool, pending: seq<Message>, origin: Origin, ghost hasMore: bool)
      requires AtTurn(firstTurn, pending, origin, hasMore) && (hasMore || pending != [])
      modifies this`log, agent`messages, agent`streaming, agent`pending, agent`error
      ensures Valid() && Agrees() && MayPend(pending, origin) && old(log) <= log
      ensures At() == Injecting(false, None, OwedAs(pending, origin), origin.Resume?)
    {
      hide Monitor, Replay, Ended, TurnsEnded, Drained, From, Accounted;
      if !firstTurn {
        Emit(TurnStart);
      }
    }

    method PollAtStart() returns (pending: seq<Message>)
      requires Valid() && Agrees() && At() == Injecting(true, None, [], false)
      modifies this`log, this`skipInitialPoll, agent`aborted, agent`withdrawals, agent.steering, agent.followUp
      ensures AtTurn(true, pending, Queued(Steering), true)
      ensures old(log) <= log
    {
      hide Monitor, Replay, Ended, TurnsEnded, Drained, From, Accounted;
      pending := GetSteeringMessages();
    }

    /** The agent would stop here: it asks for follow-up messages. */
    method PollAtEnd(ghost origin: Origin) returns (pending: seq<Message>)
      requires AtTurn(false, [], origin, false)
      modifies this`log, agent`aborted, agent`withdrawals, agent.steering, agent.followUp
      ensures Valid() && Agrees()
      ensures if pending == [] then At().Between? && At().polls == AllEmpty && !At().more && !At().cut
        else AtTurn(false, pending, Queued(FollowUp), true)
      ensures old(log) <= log
    {
      hide Monitor, Replay, Ended, TurnsEnded, Drained, From, Accounted;
      pending := GetFollowUpMessages();
    }

    method EndRun()
      requires Valid() && Agrees()
      requires At() == Closing || (At().Between? && At().polls == AllEmpty && !At().more && !At().cut)
      modifies this`log, agent`messages, agent`streaming, agent`pending, agent`error
      ensures Valid() && Agrees()
      ensures At() == Over && log != [] && log[|log| - 1] == AgentEnd(newMessages)
      ensures Monitor(log) == Over
      ensures old(log) <= log
    {
      hide Monitor, Replay, Ended, TurnsEnded, Drained, From, Accounted;
      Emit(AgentEnd(newMessages));
    }

    method StopIfAsked() returns (stop: bool)
      requires Valid() && Agrees() && At().Between? && At().polls == NotPolled
      modifies this`log
      ensures Valid() && Agrees()
      ensures At() == if stop then Closing else old(At())
      ensures stop <==> stopAfter(newMessages)
      ensures old(log) <= log
    {
      hide Monitor, Replay, Ended, TurnsEnded, Drained, From, Accounted;
      stop := stopAfter(newMessages);
      if stop { Note(StopAsked); }
    }

    /** One round of the inner loop: a turn, then the decision to stop or what is pending for the next. */
    method RunRound(firstTurn: bool, pending: seq<Message>, origin: Origin, ghost due: bool)
      returns (stop: bool, hasMore: bool, next: seq<Message>, nextOrigin: Origin)
      requires AtTurn(firstTurn, pending, origin, due) && (due || pending != [])
      modifies this`context, this`newMessages, this`log, this`turnsDone, this`skipInitialPoll,
        agent`messages, agent`streaming, agent`pending, agent`error, agent`aborted, agent`withdrawals,
        agent.steering, agent.followUp
      ensures old(newMessages) <= newMessages
      ensures stop ==> Valid() && Agrees() && At() == Closing
      ensures stopAfter(newMessages) ==> stop
      ensures !stop ==> AtTurn(false, next, nextOrigin, hasMore)
      ensures turnsDone == old(turnsDone) + 1
      ensures old(log) <= log
    {
      hide *;
      StartTurn(firstTurn, pending, origin, due);
      Inject(pending, origin);
      var message;
      message, hasMore, stop := RunTurn();
      next, nextOrigin := [], Queued(Steering);
      if !stop { stop := StopIfAsked(); }
      if !stop { next, nextOrigin := NextPending(message, hasMore); }
    }

    lemma TurnsAreBoundaries(firstTurn: bool, pending: seq<Message>, origin: Origin, hasMore: bool)
      requires AtTurn(firstTurn, pending, origin, hasMore)
      ensures Valid() && Agrees() && (At().Between? || At().Injecting?)
    {
    }

    /** Runs at most `turns` turns; `finished` says that the run came to its end. */
    method RunLoop(turns: nat) returns (finished: bool)
      requires Valid() && Agrees() && At() == Injecting(true, None, [], false)
      modifies this`context, this`newMessages, this`log, this`turnsDone, this`skipInitialPoll,
        agent`messages, agent`streaming, agent`pending, agent`error, agent`aborted, agent`withdrawals,
        agent.steering, agent.followUp
      ensures Valid() && Agrees() && old(newMessages) <= newMessages
      ensures finished ==> At() == Over && log != [] && log[|log| - 1] == AgentEnd(newMessages)
      ensures finished ==> GoesOnWhenCut(log)
      ensures !finished ==> At().Between? || At().Injecting?
      ensures !finished ==> turnsDone == old(turnsDone) + turns
      ensures !finished && turns > 0 ==> !stopAfter(newMessages)
      ensures old(log) <= log
    {
      hide *;
      var left: nat, firstTurn, origin := turns, true, Queued(Steering);
      var pending := PollAtStart();
      while true
        invariant old(log) <= log
        invariant AtTurn(firstTurn, pending, origin, true) && old(newMessages) <= newMessages
        invariant turnsDone + left == old(turnsDone) + turns
        invariant left < turns ==> !stopAfter(newMessages)
        decreases left
      {
        var hasMore := true;
        ghost var atStart := left;
        while hasMore || |pending| > 0
          invariant old(log) <= log
          invariant AtTurn(firstTurn, pending, origin, hasMore) && old(newMessages) <= newMessages
          invariant left <= atStart && (left == atStart ==> hasMore) && turnsDone + left == old(turnsDone) + turns
          invariant left < atStart ==> !firstTurn
          invariant left < turns ==> !stopAfter(newMessages)
          decreases left
        {
          TurnsAreBoundaries(firstTurn, pending, origin, hasMore);
          if left == 0 { return false; }
          left := left - 1;
          var stop;
          stop, hasMore, pending, origin := RunRound(firstTurn, pending, origin, hasMore);
          firstTurn := false;
          if stop {
            EndRun();
            CutShortGoesOn(log);
            return true;
          }
        }
        pending := PollAtEnd(origin);
        origin := Queued(FollowUp);
        if |pending| == 0 { break; }
      }
      EndRun();
      CutShortGoesOn(log);
      finished := true;
    }

    // ----- runs -----

    /** Between turns and after the run, all three transcripts hold the same messages. */
    ghost predicate TranscriptsAgree()
      reads this, agent
    {
      && context == agent.messages == before.messages + newMessages
      && agent.streaming == None && agent.pending == {}
    }

    /**
     * Nothing that left a queue is lost: each queue gave up exactly the messages that were injected from
     * it, in order, and those the next turn still owes; what was injected is among the new messages.
     */
    ghost predicate QueuesDelivered()
      reads this, agent, agent.steering, agent.followUp
    {
      && agent.steering.taken == steeringBefore + From(Injected(log) + Owed(At()), Steering)
      && agent.followUp.taken == followUpBefore + From(Injected(log) + Owed(At()), FollowUp)
      && Within(Messages(Injected(log)), newMessages)
    }

    lemma AllDelivered()
      requires Valid() && Agrees()
      ensures QueuesDelivered()
    {
      hide Monitor, Replay, Ended, TurnsEnded, Drained, From, Injected, Owed, Within;
      NothingDrainedIsLost(log);
      InjectedIsPartOfEnded(log);
    }

    lemma AtRest()
      requires Valid() && Agrees() && !InTurn(At())
      ensures TranscriptsAgree()
    {
      ReplayAtRest(before, log);
    }

    method OpenRun()
      requires Valid() && log == []
      modifies this`log, agent`messages, agent`streaming, agent`pending, agent`error
      ensures Valid() && At() == Injecting(true, None, [], false) && Ended(log) == []
      ensures old(log) <= log
    {
      hide Monitor, Replay, Ended, TurnsEnded, Drained, From, Accounted;
      EmptyLog();
      Emit(AgentStart);
      Emit(TurnStart);
    }

    method EmitPrompts(prompts: seq<Message>)
      requires Valid() && At() == Injecting(true, None, [], false)
      modifies this`log, agent`messages, agent`streaming, agent`pending, agent`error
      ensures Valid() && At() == Injecting(true, None, [], false)
      ensures Ended(log) == Ended(old(log)) + prompts
      ensures old(log) <= log
    {
      hide Advance, Monitor, Replay, Ended, TurnsEnded, Drained, From, Accounted;
      var k := 0;
      assert prompts[..0] == [];
      while k < |prompts|
        invariant old(log) <= log
        invariant k <= |prompts| && Valid() && At() == Injecting(true, None, [], false)
        invariant Ended(log) == Ended(old(log)) + prompts[..k]
      {
        PromptSteps(prompts[k]);
        Emit(MessageStart(Prompt, prompts[k]));
        Emit(MessageEnd(Prompt, prompts[k]));
        assert prompts[..k + 1] == prompts[..k] + [prompts[k]];
        k := k + 1;
      }
      assert prompts[..k] == prompts;
    }

    method RunAgentLoop(prompts: seq<Message>, turns: nat) returns (finished: bool)
      requires Valid() && log == [] && turnsDone == 0 && context == before.messages && newMessages == []
      modifies this`context, this`newMessages, this`log, this`turnsDone, this`skipInitialPoll,
        agent`messages, agent`streaming, agent`pending, agent`error, agent`aborted, agent`withdrawals,
        agent.steering, agent.followUp
      ensures Valid() && Agrees() && prompts <= newMessages
      ensures finished ==> At() == Over && log[|log| - 1] == AgentEnd(newMessages)
      ensures finished ==> TranscriptsAgree() && GoesOnWhenCut(log)
      ensures QueuesDelivered()
      ensures At().Between? ==> TranscriptsAgree()
      ensures !finished ==> TurnsEnded(log) == turns
      ensures old(log) <= log
    {
      hide Advance, Monitor, Replay, Ended, TurnsEnded, Drained, From, QueuesDelivered;
      newMessages, context := prompts, context + prompts;
      OpenRun();
      EmitPrompts(prompts);
      finished := RunLoop(turns);
      if !InTurn(At()) { AtRest(); }
      AllDelivered();
    }

    /** The caller has checked that there is a message to continue from, and that it is not a response. */
    method RunAgentLoopContinue(turns: nat) returns (finished: bool)
      requires Valid() && log == [] && turnsDone == 0 && context == before.messages && newMessages == []
      requires context != [] && !context[|context| - 1].Assistant?
      modifies this`context, this`newMessages, this`log, this`turnsDone, this`skipInitialPoll,
        agent`messages, agent`streaming, agent`pending, agent`error, agent`aborted, agent`withdrawals,
        agent.steering, agent.followUp
      ensures Valid() && Agrees()
      ensures finished ==> At() == Over && log[|log| - 1] == AgentEnd(newMessages)
      ensures finished ==> TranscriptsAgree() && GoesOnWhenCut(log)
      ensures QueuesDelivered()
      ensures At().Between? ==> TranscriptsAgree()
      ensures !finished ==> TurnsEnded(log) == turns
      ensures old(log) <= log
    {
      hide Advance, Monitor, Replay, Ended, TurnsEnded, Drained, From, Accounted, QueuesDelivered;
      OpenRun();
      finished := RunLoop(turns);
      if !InTurn(At()) { AtRest(); }
      AllDelivered();
    }
  }

  lemma ResponseSteps(m: AssistantMessage)
    ensures Advance(Injecting(false, None, [], false), MessageStart(Response, m)) == Responding
    ensures Advance(Responding, MessageUpdate(m)) == Responding
    ensures Advance(Responding, MessageEnd(Response, m)) == Responded(m)
  {
  }

  lemma StartSteps(b: Batch)
    requires !b.open && |b.stages| < |ToolCalls(b.message)| && MayStart(b)
    ensures Advance(Tools(b), ToolStart(|b.stages|, ToolCalls(b.message)[|b.stages|])) ==
      Tools(b.(stages := b.stages + [Started]))
  {
  }

  lemma PrepareSteps(b: Batch, slot: nat, ready: bool)
    requires !b.open && slot < |b.stages| && b.stages[slot].Started? && !b.mode.Truncated?
    ensures Advance(Tools(b), Prepared(slot, ready)) ==
      Tools(b.(stages := b.stages[slot := if ready then Ready else Refused]))
  {
  }

  lemma EndSteps(b: Batch, slot: nat, outcome: Outcome)
    requires !b.open && slot < |b.stages| <= |ToolCalls(b.message)| && MayEnd(b, slot, outcome)
    ensures Advance(Tools(b), ToolEnd(slot, ToolCalls(b.message)[slot], outcome)) ==
      Tools(b.(stages := b.stages[slot := Finished(outcome, b.stages[slot].Running?)]))
  {
  }

  lemma RunSteps(b: Batch, slot: nat)
    requires !b.open && slot < |b.stages| <= |ToolCalls(b.message)|
    ensures b.stages[slot].Ready? && NoneStarted(b.stages) ==>
      Advance(Tools(b), Executing(slot)) == Tools(b.(stages := b.stages[slot := Running]))
    ensures b.stages[slot].Running? ==>
      Advance(Tools(b), ToolUpdate(slot, ToolCalls(b.message)[slot])) == Tools(b)
  {
  }

  lemma ReportSteps(b: Batch)
    requires !b.open && |b.results| < |b.stages| <= |ToolCalls(b.message)|
    requires b.stages[|b.results|].Finished? && (b.mode.Parallel? ==> AllFinished(b.stages))
    ensures var result := ResultMessage(ToolCalls(b.message)[|b.results|], b.stages[|b.results|].outcome);
      && Advance(Tools(b), MessageStart(Result, result)) == Tools(b.(open := true))
      && Advance(Tools(b.(open := true)), MessageEnd(Result, result)) ==
           Tools(b.(results := b.results + [result]))
  {
  }

  lemma DispatchSteps(message: AssistantMessage, mode: Mode)
    requires !Failed(message) && ToolCalls(message) != [] && (mode.Truncated? <==> message.stopReason == Length)
    ensures Advance(Responded(message), Dispatched(mode)) == Tools(Batch(message, mode, [], [], false))
  {
  }

  predicate MayPoll(p: Progress, queue: Queue) {
    match queue
    case Steering => (p.Injecting? && p.prompting && p.open.None?) || (p.Between? && p.polls.NotPolled?)
    case FollowUp => p.Between? && (p.polls.SteeringEmpty? || p.polls.AllEmpty?) && !p.more
  }

  lemma PollSteps(p: Progress, queue: Queue, messages: seq<Message>)
    requires MayPoll(p, queue)
    ensures Advance(p, Polled(queue, messages)) != Broken
  {
  }

  lemma InjectSteps(rest: seq<Message>, origin: Origin)
    requires rest != [] && MayPend(rest, origin)
    ensures var m, owed := rest[0], OwedAs(rest, origin);
      && Advance(Injecting(false, None, owed, origin.Resume?), MessageStart(origin, m))
           == Injecting(false, Some(m), owed, origin.Resume?)
      && Advance(Injecting(false, Some(m), owed, origin.Resume?), MessageEnd(origin, m))
           == Injecting(false, None, OwedAs(rest[1..], origin), false)
  {
    if origin.Queued? { assert Deliveries(origin.queue, rest)[1..] == Deliveries(origin.queue, rest[1..]); }
  }

  lemma ResumeIsOne(pending: seq<Message>, origin: Origin)
    requires MayPend(pending, origin)
    ensures origin.Resume? ==> |pending| == 1
  {
  }

  lemma StillPending(pending: seq<Message>, origin: Origin, k: nat)
    requires MayPend(pending, origin) && 0 < k <= |pending|
    ensures k < |pending| ==> MayPend(pending[k..], origin)
  {
  }

  lemma NothingOwed(origin: Origin)
    ensures OwedAs([], origin) == []
  {
  }

  lemma EmptyLog()
    ensures Monitor([]) == Fresh && Ended([]) == [] && TurnsEnded([]) == 0
  {
  }

  lemma PromptSteps(m: Message)
    ensures Advance(Injecting(true, None, [], false), MessageStart(Prompt, m)) == Injecting(true, Some(m), [], false)
    ensures Advance(Injecting(true, Some(m), [], false), MessageEnd(Prompt, m)) == Injecting(true, None, [], false)
  {
  }

  lemma SilentEndSteps(message: AssistantMessage)
    ensures Failed(message) ==> Advance(Responded(message), TurnEnd(message, [])) == Closing
    ensures !Failed(message) && ToolCalls(message) == [] ==>
      Advance(Responded(message), TurnEnd(message, [])) == Between(false, CutShort(message), NotPolled, [])
  {
  }

  lemma BatchEndSteps(b: Batch)
    requires !b.open && |b.results| == |b.stages|
    ensures Advance(Tools(b), TurnEnd(b.message, b.results)) == Between(!AllTerminate(b.stages), false, NotPolled, [])
  {
  }

  lemma PollGrows(drained: seq<Delivery>, queue: Queue, polled: seq<Message>)
    ensures var e := Polled(queue, polled);
      forall q :: From(drained + Leaving(e), q) == From(drained, q) + if q == queue then polled else []
  {
    forall q ensures From(drained + Leaving(Polled(queue, polled)), q)
      == From(drained, q) + if q == queue then polled else []
    {
      FromConcat(drained, Deliveries(queue, polled), q);
      FromDeliveries(queue, polled, q);
    }
  }

  /** Pending messages as the monitor owes them; the request to resume comes from no queue. */
  function OwedAs(pending: seq<Message>, origin: Origin): seq<Delivery> {
    if origin.Queued? then Deliveries(origin.queue, pending) else []
  }

  /** Pending messages come from a queue, or are the one request to resume. */
  predicate MayPend(pending: seq<Message>, origin: Origin) {
    origin.Queued? || (origin.Resume? && pending == [RESUME])
  }
}
