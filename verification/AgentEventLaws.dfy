/** What every log that the monitor accepts has in common. */
module AgentEventLaws {
  import opened Strings
  import opened AgentEvents

  /** A prefix of an accepted log is accepted. */
  lemma {:induction false} PrefixesAreAccepted(log: seq<Event>, k: nat)
    requires k <= |log| && Monitor(log) != Broken
    ensures Monitor(log[..k]) != Broken
    decreases |log|
  {
    if k < |log| {
      var front := log[..|log| - 1];
      PrefixesAreAccepted(front, k);
      assert front[..k] == log[..k];
    } else {
      assert log[..k] == log;
    }
  }

  lemma StepAt(log: seq<Event>, k: nat)
    requires k < |log|
    ensures Monitor(log[..k + 1]) == Advance(Monitor(log[..k]), log[k])
  {
    assert log[..k + 1][..k] == log[..k];
  }

  // ----- what the monitor's states keep -----

  ghost predicate Reported(b: Batch) {
    && |b.results| <= |b.stages| <= |ToolCalls(b.message)|
    && (forall k :: 0 <= k < |b.results| ==>
          b.stages[k].Finished? && b.results[k] == ResultMessage(ToolCalls(b.message)[k], b.stages[k].outcome))
    && (b.open ==> |b.results| < |b.stages| && b.stages[|b.results|].Finished?)
  }

  ghost predicate Sound(p: Progress) {
    match p
    case Injecting(prompting, open, owed, resume) => prompting ==> owed == [] && !resume
    case Tools(b) => Reported(b) && ToolCalls(b.message) != []
    case Between(more, cut, polls, owed) => owed != [] ==> polls == Loaded
    case _ => true
  }

  lemma BatchStaysReported(b: Batch, e: Event)
    requires Reported(b) && AdvanceBatch(b, e).Some?
    ensures Reported(AdvanceBatch(b, e).value)
  {
    var next := AdvanceBatch(b, e).value;
    assert forall k :: 0 <= k < |b.results| ==> next.results[k] == b.results[k];
  }

  lemma {:induction false} MonitorIsSound(log: seq<Event>)
    ensures Sound(Monitor(log))
  {
    if log != [] {
      var front := log[..|log| - 1];
      MonitorIsSound(front);
      var p, e := Monitor(front), log[|log| - 1];
      if p.Tools? && AdvanceBatch(p.batch, e).Some? { BatchStaysReported(p.batch, e); }
    }
  }

  // ----- counting -----

  predicate IsTurnStart(e: Event) { e.TurnStart? }
  predicate IsAgentStart(e: Event) { e.AgentStart? }
  predicate IsAgentEnd(e: Event) { e.AgentEnd? }
  predicate IsMessageStart(e: Event) { e.MessageStart? }
  predicate IsMessageEnd(e: Event) { e.MessageEnd? }
  predicate IsResponse(e: Event) { e.MessageEnd? && e.origin == Response }

  predicate InTurn(p: Progress) { p.Injecting? || p.Responding? || p.Responded? || p.Tools? }

  predicate MessageOpen(p: Progress) {
    p.Responding? || (p.Injecting? && p.open.Some?) || (p.Tools? && p.batch.open)
  }

  function Bit(b: bool): nat { if b then 1 else 0 }

  /** One start and one end per run; turns do not nest; each ended turn has one response. */
  lemma {:induction false} TurnsBalance(log: seq<Event>)
    requires Monitor(log) != Broken
    ensures var p := Monitor(log);
      && Count(log, IsAgentStart) == Bit(!p.Fresh?)
      && Count(log, IsAgentEnd) == Bit(p.Over?)
      && Count(log, IsTurnStart) == TurnsEnded(log) + Bit(InTurn(p))
      && Count(log, IsResponse) == TurnsEnded(log) + Bit(p.Responded? || p.Tools?)
      && (p.Between? || p.Closing? || p.Over? ==> TurnsEnded(log) >= 1)
  {
    if log != [] {
      var front := log[..|log| - 1];
      TurnsBalance(front);
    }
  }

  /** At most one message is open at any time, and a message that starts ends before the turn does. */
  lemma {:induction false} MessagesBalance(log: seq<Event>)
    requires Monitor(log) != Broken
    ensures Count(log, IsMessageStart) == Count(log, IsMessageEnd) + Bit(MessageOpen(Monitor(log)))
  {
    if log != [] {
      var front := log[..|log| - 1];
      MessagesBalance(front);
    }
  }

  // ----- one call -----

  ghost predicate SameTurn(log: seq<Event>, i: nat, k: nat) {
    forall j :: i <= j < k && j < |log| ==> !log[j].TurnEnd?
  }

  function EndsOf(log: seq<Event>, slot: nat): nat {
    if log == [] then 0
    else
      var last := log[|log| - 1];
      EndsOf(log[..|log| - 1], slot) + Bit(last.ToolEnd? && last.slot == slot)
  }

  lemma FirstSlotStep(p: Progress, e: Event)
    requires e.ToolStart? && Advance(p, e) != Broken
    ensures var next := Advance(p, e);
      next.Tools? && e.slot < |next.batch.stages| && next.batch.stages[e.slot].Started?
  {
  }

  /** A slot finishes by its own end event, and an end event comes only to a slot that has not finished. */
  lemma SlotStep(p: Progress, e: Event, slot: nat)
    requires p.Tools? && slot < |p.batch.stages| && !e.TurnEnd? && Advance(p, e) != Broken
    ensures var next := Advance(p, e);
      && next.Tools? && slot < |next.batch.stages|
      && Bit(next.batch.stages[slot].Finished?)
         == Bit(p.batch.stages[slot].Finished?) + Bit(e.ToolEnd? && e.slot == slot)
  {
  }

  lemma {:induction false} SlotFrom(log: seq<Event>, i: nat, k: nat)
    requires Monitor(log) != Broken
    requires i < k <= |log| && log[i].ToolStart? && SameTurn(log, i, k)
    ensures var p := Monitor(log[..k]);
      && p.Tools? && log[i].slot < |p.batch.stages|
      && EndsOf(log[i..k], log[i].slot) == Bit(p.batch.stages[log[i].slot].Finished?)
    decreases k
  {
    hide Advance, Monitor;
    var slot := log[i].slot;
    PrefixesAreAccepted(log, k);
    StepAt(log, k - 1);
    if k == i + 1 {
      assert log[i..k] == [log[i]];
      assert EndsOf(log[i..k], slot) == EndsOf([], slot);
      FirstSlotStep(Monitor(log[..i]), log[i]);
    } else {
      SlotFrom(log, i, k - 1);
      assert log[i..k][..k - 1 - i] == log[i..k - 1];
      assert log[i..k][k - 1 - i] == log[k - 1];
      SlotStep(Monitor(log[..k - 1]), log[k - 1], slot);
    }
  }

  lemma UpdatesRun(p: Progress, e: Event)
    requires e.ToolUpdate? && Advance(p, e) != Broken
    ensures p.Tools? && e.slot < |p.batch.stages| && p.batch.stages[e.slot].Running?
  {
  }

  lemma TurnsEndFinished(p: Progress, e: Event)
    requires e.TurnEnd? && Advance(p, e) != Broken && Sound(p)
    ensures p.Tools? ==> AllFinished(p.batch.stages)
  {
  }

  /** A call that starts ends exactly once before its turn does, and every update of it comes before that. */
  lemma EveryStartHasOneEnd(log: seq<Event>, i: nat, end: nat)
    requires Monitor(log) != Broken
    requires i < end < |log| && log[i].ToolStart? && log[end].TurnEnd? && SameTurn(log, i, end)
    ensures EndsOf(log[i..end], log[i].slot) == 1
    ensures forall u :: i < u < end && log[u].ToolUpdate? && log[u].slot == log[i].slot ==>
      EndsOf(log[i..u], log[i].slot) == 0
  {
    hide Advance, Monitor, EndsOf, Sound;
    SlotFrom(log, i, end);
    PrefixesAreAccepted(log, end + 1);
    StepAt(log, end);
    MonitorIsSound(log[..end]);
    TurnsEndFinished(Monitor(log[..end]), log[end]);
    forall u | i < u < end && log[u].ToolUpdate? && log[u].slot == log[i].slot
      ensures EndsOf(log[i..u], log[i].slot) == 0
    {
      SlotFrom(log, i, u);
      PrefixesAreAccepted(log, u + 1);
      StepAt(log, u);
      UpdatesRun(Monitor(log[..u]), log[u]);
    }
  }

  // ----- parallel batches -----

  predicate Ran(stage: Stage) { stage.Running? || (stage.Finished? && stage.ran) }

  ghost predicate Launched(p: Progress) {
    && p.Tools? && p.batch.mode.Parallel? && NoneStarted(p.batch.stages)
    && exists k :: 0 <= k < |p.batch.stages| && Ran(p.batch.stages[k])
  }

  lemma LaunchStep(p: Progress, e: Event)
    requires Launched(p) && Advance(p, e) != Broken
    ensures !e.ToolStart? && !e.Prepared?
    ensures !e.TurnEnd? ==> Launched(Advance(p, e))
  {
    var n :| 0 <= n < |p.batch.stages| && Ran(p.batch.stages[n]);
    assert !Preparing(p.batch.stages[n]);
    if !e.TurnEnd? { assert Ran(Advance(p, e).batch.stages[n]); }
  }

  lemma FirstLaunch(p: Progress, e: Event)
    requires p.Tools? && p.batch.mode.Parallel? && e.Executing? && Advance(p, e) != Broken
    ensures Launched(Advance(p, e))
  {
    assert Ran(Advance(p, e).batch.stages[e.slot]);
  }

  lemma {:induction false} StaysLaunched(log: seq<Event>, i: nat, k: nat)
    requires Monitor(log) != Broken
    requires i < k <= |log| && log[i].Executing? && SameTurn(log, i, k)
    requires Monitor(log[..i]).Tools? && Monitor(log[..i]).batch.mode.Parallel?
    ensures Launched(Monitor(log[..k]))
    decreases k
  {
    hide Advance, Monitor, Launched;
    PrefixesAreAccepted(log, k);
    StepAt(log, k - 1);
    if k == i + 1 {
      FirstLaunch(Monitor(log[..i]), log[i]);
    } else {
      StaysLaunched(log, i, k - 1);
      LaunchStep(Monitor(log[..k - 1]), log[k - 1]);
    }
  }

  /** In a parallel batch no call starts or is prepared once one has begun to execute. */
  lemma NothingRunsBeforeAllArePrepared(log: seq<Event>, i: nat, j: nat)
    requires Monitor(log) != Broken
    requires i < j < |log| && log[i].Executing? && (log[j].ToolStart? || log[j].Prepared?)
    requires Monitor(log[..i]).Tools? && Monitor(log[..i]).batch.mode.Parallel?
    ensures !SameTurn(log, i, j)
  {
    hide Advance, Monitor, Launched;
    PrefixesAreAccepted(log, j + 1);
    StepAt(log, j);
    if Launched(Monitor(log[..j])) { LaunchStep(Monitor(log[..j]), log[j]); }
    if SameTurn(log, i, j) { StaysLaunched(log, i, j); }
  }

  // ----- results -----

  /** The calls of a message are its call parts, in their order. */
  lemma {:induction false} CallsInOrder(a: seq<Part>, b: seq<Part>)
    ensures Calls(a + b) == Calls(a) + Calls(b)
    ensures forall part :: Calls([part]) == if part.Call? then [part.call] else []
    decreases |a|
  {
    forall part ensures Calls([part]) == if part.Call? then [part.call] else [] {
      assert [part][1..] == [] && Calls([]) == [];
    }
    if a == [] {
      assert a + b == b;
    } else {
      assert (a + b)[1..] == a[1..] + b;
      CallsInOrder(a[1..], b);
    }
  }

  /** Result k of a turn answers call k of its response, and a response cut by the output limit runs nothing. */
  lemma ResultsPairWithCalls(log: seq<Event>, i: nat)
    requires Monitor(log) != Broken && i < |log| && log[i].TurnEnd?
    ensures log[i].message.Assistant?
    ensures var calls, results := ToolCalls(log[i].message), log[i].results;
      && |results| <= |calls|
      && (forall k :: 0 <= k < |results| ==>
            results[k].ToolResult? && results[k].callId == calls[k].id && results[k].toolName == calls[k].name)
  {
    PrefixesAreAccepted(log, i + 1);
    StepAt(log, i);
    MonitorIsSound(log[..i]);
  }

  lemma {:induction false} BatchModeFits(log: seq<Event>)
    ensures var p := Monitor(log);
      p.Tools? ==> (p.batch.mode.Truncated? <==> p.batch.message.stopReason == Length) && !Failed(p.batch.message)
  {
    if log != [] { BatchModeFits(log[..|log| - 1]); }
  }

  predicate NotReady(stages: seq<Stage>) {
    forall k :: 0 <= k < |stages| ==>
      stages[k].Started? || (stages[k].Finished? && stages[k].outcome.isError)
  }

  lemma TruncatedStep(b: Batch, e: Event)
    requires b.mode.Truncated? && NotReady(b.stages) && AdvanceBatch(b, e).Some?
    ensures NotReady(AdvanceBatch(b, e).value.stages) && AdvanceBatch(b, e).value.mode.Truncated?
  {
  }

  lemma ModeStays(b: Batch, e: Event)
    requires AdvanceBatch(b, e).Some?
    ensures AdvanceBatch(b, e).value.mode == b.mode
  {
  }

  lemma {:induction false} TruncatedNeverReady(log: seq<Event>)
    ensures var p := Monitor(log); p.Tools? && p.batch.mode.Truncated? ==> NotReady(p.batch.stages)
  {
    if log != [] {
      hide AdvanceBatch, NotReady;
      var front, e := log[..|log| - 1], log[|log| - 1];
      TruncatedNeverReady(front);
      var p := Monitor(front);
      if p.Tools? && AdvanceBatch(p.batch, e).Some? {
        ModeStays(p.batch, e);
        if p.batch.mode.Truncated? { TruncatedStep(p.batch, e); }
      }
      NothingStarted();
    }
  }

  lemma NothingStarted()
    ensures NotReady([])
  {
  }

  lemma OnlyReadyExecute(p: Progress, e: Event)
    requires e.Executing? && Advance(p, e) != Broken
    ensures p.Tools? && e.slot < |p.batch.stages| && p.batch.stages[e.slot].Ready?
  {
  }

  /** A call executes only if its response was complete. */
  lemma OnlyCompleteResponsesExecute(log: seq<Event>, i: nat)
    requires Monitor(log) != Broken && i < |log| && log[i].Executing?
    ensures Monitor(log[..i]).Tools?
    ensures Monitor(log[..i]).batch.message.stopReason !in {Length, Error, Aborted}
  {
    hide Advance, Monitor;
    PrefixesAreAccepted(log, i + 1);
    StepAt(log, i);
    OnlyReadyExecute(Monitor(log[..i]), log[i]);
    BatchModeFits(log[..i]);
    TruncatedNeverReady(log[..i]);
  }

  // ----- going on after tool calls -----

  /** Position `e` holds the end of a call of the turn that ends at `j`. */
  ghost predicate CallEnded(log: seq<Event>, e: nat, j: nat) {
    e < j <= |log| && log[e].ToolEnd? && SameTurn(log, e, j)
  }

  lemma EndStep(p: Progress, e: Event)
    requires e.ToolEnd? && Advance(p, e) != Broken
    ensures var next := Advance(p, e);
      next.Tools? && e.slot < |next.batch.stages| && next.batch.stages[e.slot].Finished?
      && next.batch.stages[e.slot].outcome == e.outcome
  {
  }

  lemma FinishedStep(p: Progress, e: Event, slot: nat)
    requires p.Tools? && slot < |p.batch.stages| && p.batch.stages[slot].Finished?
    requires !e.TurnEnd? && Advance(p, e) != Broken
    ensures var next := Advance(p, e);
      next.Tools? && slot < |next.batch.stages| && next.batch.stages[slot] == p.batch.stages[slot]
  {
  }

  /** How a call ended is remembered up to the end of the turn. */
  lemma {:induction false} StaysFinished(log: seq<Event>, e: nat, k: nat)
    requires Monitor(log) != Broken && CallEnded(log, e, k)
    ensures var p := Monitor(log[..k]);
      && p.Tools? && log[e].slot < |p.batch.stages|
      && p.batch.stages[log[e].slot].Finished? && p.batch.stages[log[e].slot].outcome == log[e].outcome
    decreases k
  {
    hide Advance, Monitor;
    PrefixesAreAccepted(log, k);
    StepAt(log, k - 1);
    if k == e + 1 {
      EndStep(Monitor(log[..e]), log[e]);
    } else {
      StaysFinished(log, e, k - 1);
      FinishedStep(Monitor(log[..k - 1]), log[k - 1], log[e].slot);
    }
  }

  lemma FinishedBefore(p: Progress, e: Event, slot: nat)
    requires var next := Advance(p, e);
      next.Tools? && slot < |next.batch.stages| && next.batch.stages[slot].Finished?
    ensures (p.Tools? && !e.TurnEnd?) || p.Responded?
    ensures var next := Advance(p, e);
      || (e.ToolEnd? && e.slot == slot && e.outcome == next.batch.stages[slot].outcome)
      || (p.Tools? && slot < |p.batch.stages| && p.batch.stages[slot] == next.batch.stages[slot])
  {
  }

  /** A call that has finished ended in this turn. */
  lemma {:induction false} FinishedHasEnd(log: seq<Event>, k: nat, slot: nat) returns (e: nat)
    requires Monitor(log) != Broken && k <= |log|
    requires var p := Monitor(log[..k]);
      p.Tools? && slot < |p.batch.stages| && p.batch.stages[slot].Finished?
    ensures CallEnded(log, e, k) && log[e].slot == slot
    ensures log[e].outcome == Monitor(log[..k]).batch.stages[slot].outcome
    decreases k
  {
    hide Advance;
    assert log[..0] == [];
    if k > 0 {
      StepAt(log, k - 1);
      hide Monitor;
      var p, event := Monitor(log[..k - 1]), log[k - 1];
      FinishedBefore(p, event, slot);
      if event.ToolEnd? && event.slot == slot && event.outcome == Monitor(log[..k]).batch.stages[slot].outcome {
        e := k - 1;
      } else {
        e := FinishedHasEnd(log, k - 1, slot);
        EndsStayInTurn(p, event);
      }
    }
  }

  lemma EndsStayInTurn(p: Progress, e: Event)
    requires p.Tools? && Advance(p, e).Tools?
    ensures !e.TurnEnd?
  {
  }

  /** Between turns the model is owed an answer exactly if some call of the turn did not ask to stop. */
  lemma MoreUnlessAllAsk(log: seq<Event>, j: nat)
    requires Monitor(log) != Broken && j < |log| && log[j].TurnEnd? && log[j].results != []
    ensures Monitor(log[..j + 1]).Between? && !Monitor(log[..j + 1]).cut
    ensures Monitor(log[..j + 1]).more <==> exists e: nat :: CallEnded(log, e, j) && !log[e].outcome.terminate
  {
    hide Advance, Monitor, AllTerminate;
    PrefixesAreAccepted(log, j + 1);
    StepAt(log, j);
    var p := Monitor(log[..j]);
    MonitorIsSound(log[..j]);
    TurnOfTools(p, log[j]);
    var stages := p.batch.stages;
    if exists e: nat :: CallEnded(log, e, j) && !log[e].outcome.terminate {
      var e: nat :| CallEnded(log, e, j) && !log[e].outcome.terminate;
      StaysFinished(log, e, j);
      SomeGoesOn(stages, log[e].slot);
    } else {
      forall k | 0 <= k < |stages|
        ensures stages[k].outcome.terminate
      {
        var e := FinishedHasEnd(log, j, k);
      }
      AllStop(stages);
    }
  }

  lemma TurnOfTools(p: Progress, e: Event)
    requires Sound(p) && e.TurnEnd? && e.results != [] && Advance(p, e) != Broken
    ensures p.Tools? && p.batch.stages != [] && AllFinished(p.batch.stages)
    ensures Advance(p, e) == Between(!AllTerminate(p.batch.stages), false, NotPolled, [])
  {
  }

  lemma SomeGoesOn(stages: seq<Stage>, k: nat)
    requires k < |stages| && stages[k].Finished? && !stages[k].outcome.terminate
    ensures !AllTerminate(stages)
  {
  }

  lemma AllStop(stages: seq<Stage>)
    requires stages != [] && forall k :: 0 <= k < |stages| ==> stages[k].Finished? && stages[k].outcome.terminate
    ensures AllTerminate(stages)
  {
  }

  /** Result k of a turn reports how call k ended. */
  lemma ResultsReportTheEnds(log: seq<Event>, i: nat, k: nat) returns (e: nat)
    requires Monitor(log) != Broken && i < |log| && log[i].TurnEnd? && k < |log[i].results|
    ensures CallEnded(log, e, i) && log[e].slot == k && log[i].results[k].ToolResult?
    ensures log[i].results[k].content == log[e].outcome.content
    ensures log[i].results[k].isError == log[e].outcome.isError
  {
    hide Advance, Monitor;
    PrefixesAreAccepted(log, i + 1);
    StepAt(log, i);
    MonitorIsSound(log[..i]);
    ReportedResult(Monitor(log[..i]), log[i], k);
    e := FinishedHasEnd(log, i, k);
  }

  lemma ReportedResult(p: Progress, e: Event, k: nat)
    requires Sound(p) && e.TurnEnd? && k < |e.results| && Advance(p, e) != Broken
    ensures p.Tools? && k < |p.batch.stages| && p.batch.stages[k].Finished? && e.results[k].ToolResult?
    ensures e.results[k].content == p.batch.stages[k].outcome.content
    ensures e.results[k].isError == p.batch.stages[k].outcome.isError
  {
  }

  /** A response that failed or was aborted ends the run with its turn. */
  lemma FailedResponsesEndTheRun(log: seq<Event>, j: nat)
    requires Monitor(log) != Broken && j + 1 < |log| && log[j].TurnEnd?
    requires log[j].message.Assistant? && log[j].message.stopReason in {Error, Aborted}
    ensures log[j + 1].AgentEnd? && j + 2 == |log|
  {
    hide Advance, Monitor;
    PrefixesAreAccepted(log, j + 1);
    PrefixesAreAccepted(log, j + 2);
    StepAt(log, j);
    StepAt(log, j + 1);
    BatchModeFits(log[..j]);
    FailedStep(Monitor(log[..j]), log[j]);
    ClosingStep(Monitor(log[..j + 1]), log[j + 1]);
    if j + 2 < |log| {
      PrefixesAreAccepted(log, j + 3);
      StepAt(log, j + 2);
      NothingAfterEnd(log[j + 2]);
    }
  }

  lemma FailedStep(p: Progress, e: Event)
    requires e.TurnEnd? && e.message.Assistant? && e.message.stopReason in {Error, Aborted} && Advance(p, e) != Broken
    requires p.Tools? ==> !Failed(p.batch.message)
    ensures Advance(p, e) == Closing
  {
  }

  lemma NothingAfterEnd(e: Event)
    ensures Advance(Over, e) == Broken
  {
  }

  lemma MoreStep(p: Progress, e: Event)
    requires p.Between? && p.more && !p.cut && Advance(p, e) != Broken && !e.TurnStart? && !e.StopAsked?
    ensures Advance(p, e).Between? && Advance(p, e).more && !Advance(p, e).cut
  {
  }

  lemma {:induction false} StaysMore(log: seq<Event>, j: nat, k: nat)
    requires Monitor(log) != Broken && j < k <= |log|
    requires Monitor(log[..j + 1]).Between? && Monitor(log[..j + 1]).more && !Monitor(log[..j + 1]).cut
    requires forall i :: j < i < k ==> !log[i].TurnStart? && !log[i].StopAsked?
    ensures Monitor(log[..k]).Between? && Monitor(log[..k]).more && !Monitor(log[..k]).cut
    decreases k
  {
    hide Advance, Monitor;
    if k > j + 1 {
      StaysMore(log, j, k - 1);
      PrefixesAreAccepted(log, k);
      StepAt(log, k - 1);
      MoreStep(Monitor(log[..k - 1]), log[k - 1]);
    }
  }

  /** Unless every call of a turn asks to stop, its results are given to the model, or the run was asked to stop. */
  lemma ResultsAreAnswered(log: seq<Event>, e: nat, j: nat)
    requires Monitor(log) == Over && j < |log| && log[j].TurnEnd? && log[j].results != []
    requires CallEnded(log, e, j) && !log[e].outcome.terminate
    ensures exists k :: j < k < |log| && (log[k].TurnStart? || log[k].StopAsked?)
  {
    hide Advance, Monitor;
    MoreUnlessAllAsk(log, j);
    assert log[..|log|] == log;
    if forall i :: j < i < |log| ==> !log[i].TurnStart? && !log[i].StopAsked? {
      StaysMore(log, j, |log|);
    }
  }

  predicate Loads(e: Event) { e.Polled? && e.messages != [] }

  lemma DoneStep(p: Progress, e: Event)
    requires p.Between? && !p.more && !p.cut && p.polls != Loaded && Advance(p, e) != Broken && !Loads(e)
    ensures !e.TurnStart?
    ensures Advance(p, e) == Closing || Advance(p, e) == Over
      || (Advance(p, e).Between? && !Advance(p, e).more && !Advance(p, e).cut && Advance(p, e).polls != Loaded)
  {
  }

  lemma {:induction false} StaysDone(log: seq<Event>, j: nat, k: nat)
    requires Monitor(log) != Broken && j < k <= |log|
    requires var p := Monitor(log[..j + 1]); p.Between? && !p.more && !p.cut && p.polls != Loaded
    requires forall i :: j < i < k ==> !Loads(log[i])
    ensures var p := Monitor(log[..k]);
      p == Closing || p == Over || (p.Between? && !p.more && !p.cut && p.polls != Loaded)
    decreases k
  {
    hide Advance, Monitor;
    if k > j + 1 {
      StaysDone(log, j, k - 1);
      PrefixesAreAccepted(log, k);
      StepAt(log, k - 1);
      var p := Monitor(log[..k - 1]);
      if p.Between? { DoneStep(p, log[k - 1]); } else { ClosingStep(p, log[k - 1]); }
    }
  }

  lemma ClosingStep(p: Progress, e: Event)
    requires (p == Closing || p == Over) && Advance(p, e) != Broken
    ensures Advance(p, e) == Over && e.AgentEnd?
  {
  }

  /** If every call of a turn asks to stop, only a message from a queue starts another turn. */
  lemma StopIsHeeded(log: seq<Event>, j: nat, k: nat)
    requires Monitor(log) != Broken && j < k < |log| && log[j].TurnEnd? && log[j].results != [] && log[k].TurnStart?
    requires forall e: nat :: CallEnded(log, e, j) ==> log[e].outcome.terminate
    ensures exists i :: j < i < k && Loads(log[i])
  {
    hide Advance, Monitor;
    MoreUnlessAllAsk(log, j);
    FreshGap(log, j);
    if forall i :: j < i < k ==> !Loads(log[i]) {
      StaysDone(log, j, k);
      PrefixesAreAccepted(log, k + 1);
      StepAt(log, k);
      var p := Monitor(log[..k]);
      if p.Between? { DoneStep(p, log[k]); } else { ClosingStep(p, log[k]); }
    }
  }

  lemma FreshGap(log: seq<Event>, j: nat)
    requires Monitor(log) != Broken && j < |log| && log[j].TurnEnd?
    ensures Monitor(log[..j + 1]).Between? ==> Monitor(log[..j + 1]).polls == NotPolled
  {
    hide Advance, Monitor;
    StepAt(log, j);
    TurnEndStep(Monitor(log[..j]), log[j]);
  }

  lemma TurnEndStep(p: Progress, e: Event)
    requires e.TurnEnd?
    ensures Advance(p, e).Between? ==> Advance(p, e).polls == NotPolled
  {
    hide AdvanceBatch, ToolCalls, CutShort, AllTerminate;
  }

  // ----- queues -----

  function Owed(p: Progress): seq<Delivery> {
    if p.Injecting? || p.Between? then p.owed else []
  }

  lemma InjectingDebt(p: Progress, e: Event)
    requires p.Injecting? && Sound(p) && AdvanceInjecting(p, e) != Broken
    ensures p.owed + Leaving(e) == Entering(e) + Owed(AdvanceInjecting(p, e))
  {
  }

  lemma BetweenDebt(p: Progress, e: Event)
    requires p.Between? && Sound(p) && AdvanceBetween(p, e) != Broken
    ensures p.owed + Leaving(e) == Entering(e) + Owed(AdvanceBetween(p, e))
  {
  }

  lemma ToolsOweNothing(b: Batch, e: Event)
    requires AdvanceTools(b, e) != Broken
    ensures Leaving(e) == Entering(e) == Owed(AdvanceTools(b, e)) == []
  {
  }

  lemma DebtStep(p: Progress, e: Event)
    requires Sound(p) && Advance(p, e) != Broken
    ensures Owed(p) + Leaving(e) == Entering(e) + Owed(Advance(p, e))
  {
    hide AdvanceInjecting, AdvanceBetween, AdvanceTools, Sound;
    if p.Injecting? { InjectingDebt(p, e); }
    if p.Between? { BetweenDebt(p, e); }
    if p.Tools? { ToolsOweNothing(p.batch, e); }
  }

  /** What left a queue has entered the conversation, in that order, or is still owed to it. */
  lemma {:induction false} NothingDrainedIsLost(log: seq<Event>)
    requires Monitor(log) != Broken
    ensures Drained(log) == Injected(log) + Owed(Monitor(log))
  {
    hide Advance, Sound, Owed, Leaving, Entering;
    if log == [] {
      NothingOwedAtFirst();
    } else {
      var front, e := log[..|log| - 1], log[|log| - 1];
      PrefixesAreAccepted(log, |log| - 1);
      NothingDrainedIsLost(front);
      MonitorIsSound(front);
      DebtStep(Monitor(front), e);
      calc {
        Drained(log);
        Drained(front) + Leaving(e);
        Injected(front) + (Owed(Monitor(front)) + Leaving(e));
        Injected(front) + Entering(e) + Owed(Monitor(log));
        Injected(log) + Owed(Monitor(log));
      }
    }
  }

  lemma NothingOwedAtFirst()
    ensures Owed(Fresh) == []
  {
  }

  lemma {:induction false} FromConcat(a: seq<Delivery>, b: seq<Delivery>, queue: Queue)
    ensures From(a + b, queue) == From(a, queue) + From(b, queue)
    decreases |b|
  {
    if b == [] {
      assert a + b == a;
    } else {
      FromConcat(a, b[..|b| - 1], queue);
      assert (a + b)[..|a + b| - 1] == a + b[..|b| - 1];
    }
  }

  lemma {:induction false} FromDeliveries(of: Queue, messages: seq<Message>, queue: Queue)
    ensures From(Deliveries(of, messages), queue) == if of == queue then messages else []
    decreases |messages|
  {
    if messages != [] {
      var front := messages[..|messages| - 1];
      FromDeliveries(of, front, queue);
      assert Deliveries(of, messages)[..|messages| - 1] == Deliveries(of, front);
      assert messages == front + [messages[|messages| - 1]];
    }
  }

  ghost predicate Quiet(p: Progress) { p.Between? && (p.polls.SteeringEmpty? || p.polls.AllEmpty?) }

  lemma QuietStep(p: Progress, e: Event)
    requires Quiet(Advance(p, e))
    ensures e == Polled(Steering, []) || (Quiet(p) && (e == Polled(FollowUp, []) || e == AbortSeen))
  {
  }

  /** Position `j` holds a steering poll that came back empty, and since then only empty follow-up polls
      and a look at the signal came. */
  ghost predicate QuietSince(log: seq<Event>, j: nat) {
    && j < |log| && log[j] == Polled(Steering, [])
    && forall k :: j < k < |log| ==> log[k] == Polled(FollowUp, []) || log[k] == AbortSeen
  }

  lemma {:induction false} QuietBegins(log: seq<Event>) returns (j: nat)
    requires Quiet(Monitor(log))
    ensures QuietSince(log, j)
  {
    hide Advance, Quiet;
    NotQuietAtFirst();
    var front, e := log[..|log| - 1], log[|log| - 1];
    QuietStep(Monitor(front), e);
    if e == Polled(Steering, []) {
      j := |log| - 1;
    } else {
      j := QuietBegins(front);
      assert forall k :: j < k < |front| ==> log[k] == front[k];
    }
  }

  lemma NotQuietAtFirst()
    ensures !Quiet(Fresh)
  {
  }

  lemma FollowUpPollsAreQuiet(p: Progress, messages: seq<Message>)
    requires Advance(p, Polled(FollowUp, messages)) != Broken
    ensures Quiet(p)
  {
  }

  /** Follow-ups are polled only after a steering poll of the same gap between turns came back empty. */
  lemma FollowUpsComeAfterSteering(log: seq<Event>, i: nat)
    requires Monitor(log) != Broken && i < |log| && log[i].Polled? && log[i].queue == FollowUp
    ensures exists j :: QuietSince(log[..i], j)
  {
    hide Advance, Quiet, Monitor;
    PrefixesAreAccepted(log, i + 1);
    StepAt(log, i);
    FollowUpPollsAreQuiet(Monitor(log[..i]), log[i].messages);
    var j := QuietBegins(log[..i]);
  }

  // ----- responses that were cut short -----

  /** No turn has started since position `j`, and nothing asked the run to end. */
  ghost predicate Unanswered(log: seq<Event>, j: nat) {
    forall k :: j < k < |log| ==> !log[k].TurnStart? && !log[k].StopAsked? && !log[k].AbortSeen?
  }

  lemma CutStep(p: Progress, e: Event)
    requires Sound(p) && Advance(p, e) != Broken
    ensures e.TurnEnd? && e.message.Assistant? && CutShort(e.message) ==>
      Advance(p, e) == Between(false, true, NotPolled, [])
    ensures p.Between? && p.cut && !e.TurnStart? && !e.StopAsked? && !e.AbortSeen? ==>
      Advance(p, e).Between? && Advance(p, e).cut
  {
  }

  lemma {:induction false} StaysCut(log: seq<Event>, j: nat, k: nat)
    requires Monitor(log) != Broken && j < k <= |log| && Unanswered(log[..k], j)
    requires log[j].TurnEnd? && log[j].message.Assistant? && CutShort(log[j].message)
    ensures Monitor(log[..k]).Between? && Monitor(log[..k]).cut
    decreases k
  {
    hide Advance, Monitor, Sound;
    PrefixesAreAccepted(log, k);
    StepAt(log, k - 1);
    MonitorIsSound(log[..k - 1]);
    CutStep(Monitor(log[..k - 1]), log[k - 1]);
    if k > j + 1 {
      assert forall i :: j < i < k - 1 ==> log[..k - 1][i] == log[..k][i];
      StaysCut(log, j, k - 1);
      assert log[k - 1] == log[..k][k - 1];
    }
  }

  /**
   * After a response that was cut short the model is asked to go on: a run ends on such a response only if
   * it was asked to stop, or was seen to be aborted, after it.
   */
  lemma CutShortGoesOn(log: seq<Event>)
    requires Monitor(log) == Over
    ensures GoesOnWhenCut(log)
  {
    hide Advance, Monitor;
    assert log[..|log|] == log;
    forall j: nat | EndsCutShort(log, j)
      ensures !Unanswered(log, j)
    {
      NoCalls(log[j].message.parts);
      if Unanswered(log, j) {
        StaysCut(log, j, |log|);
      }
    }
  }

  /** Position `j` ends a turn whose response hit the output limit and called no tool. */
  ghost predicate EndsCutShort(log: seq<Event>, j: nat) {
    j < |log| && log[j].TurnEnd? && log[j].message.Assistant? && log[j].message.stopReason == Length
    && forall k :: 0 <= k < |log[j].message.parts| ==> !log[j].message.parts[k].Call?
  }

  lemma {:induction false} NoCalls(parts: seq<Part>)
    requires forall k :: 0 <= k < |parts| ==> !parts[k].Call?
    ensures Calls(parts) == []
  {
    if parts != [] {
      NoCalls(parts[1..]);
    }
  }

  /** Every response that was cut short is followed by a turn, a request to stop or an abort. */
  ghost predicate GoesOnWhenCut(log: seq<Event>) {
    forall j: nat :: EndsCutShort(log, j) ==> !Unanswered(log, j)
  }

  /** `a` is what is left of `b` when some of its elements are dropped. */
  ghost predicate Within(a: seq<Message>, b: seq<Message>)
    decreases |b|
  {
    if b == [] then a == []
    else
      || Within(a, b[..|b| - 1])
      || (a != [] && a[|a| - 1] == b[|b| - 1] && Within(a[..|a| - 1], b[..|b| - 1]))
  }

  function Messages(deliveries: seq<Delivery>): (m: seq<Message>)
    ensures |m| == |deliveries| && forall i :: 0 <= i < |m| ==> m[i] == deliveries[i].message
  {
    seq(|deliveries|, i requires 0 <= i < |deliveries| => deliveries[i].message)
  }

  /** What was injected is part of what entered the conversation, in the same order. */
  lemma {:induction false} InjectedIsPartOfEnded(log: seq<Event>)
    ensures Within(Messages(Injected(log)), Ended(log))
  {
    if log != [] {
      var front, last := log[..|log| - 1], log[|log| - 1];
      InjectedIsPartOfEnded(front);
      var a, b := Messages(Injected(front)), Ended(front);
      if last.MessageEnd? {
        assert Ended(log)[..|b|] == b;
        if last.origin.Queued? {
          assert Messages(Injected(log)) == a + [last.message];
          assert (a + [last.message])[..|a|] == a;
        } else {
          assert Messages(Injected(log)) == a;
        }
      } else {
        assert Messages(Injected(log)) == a && Ended(log) == b;
      }
    }
  }

  // ----- the wrapper's transcript -----

  ghost predicate Covered(pending: set<string>, b: Batch) {
    |b.stages| <= |ToolCalls(b.message)|
    && forall x :: x in pending ==>
         exists k :: 0 <= k < |b.stages| && !b.stages[k].Finished? && ToolCalls(b.message)[k].id == x
  }

  lemma PendingStaysCovered(pending: set<string>, b: Batch, s: State, e: Event)
    requires Covered(pending, b) && s.pending == pending && AdvanceBatch(b, e).Some?
    ensures Covered(Reduce(s, e).pending, AdvanceBatch(b, e).value)
  {
    var next := AdvanceBatch(b, e).value;
    forall x | x in Reduce(s, e).pending
      ensures exists k :: 0 <= k < |next.stages| && !next.stages[k].Finished? && ToolCalls(b.message)[k].id == x
    {
      if x in pending {
        var k :| 0 <= k < |b.stages| && !b.stages[k].Finished? && ToolCalls(b.message)[k].id == x;
        assert !next.stages[k].Finished?;
      } else {
        assert !next.stages[|b.stages|].Finished?;
      }
    }
  }

  ghost predicate Mirrors(s: State, p: Progress) {
    && (s.streaming.Some? <==> MessageOpen(p))
    && (if p.Tools? then Covered(s.pending, p.batch) else s.pending == {})
  }

  lemma {:induction false} ReplayMirrors(s: State, log: seq<Event>)
    requires s.streaming == None && s.pending == {} && Monitor(log) != Broken
    ensures Mirrors(Replay(s, log), Monitor(log))
  {
    if log != [] {
      var front := log[..|log| - 1];
      ReplayMirrors(s, front);
      MonitorIsSound(front);
      var p, e, t := Monitor(front), log[|log| - 1], Replay(s, front);
      if p.Tools? && !e.TurnEnd? {
        PendingStaysCovered(t.pending, p.batch, t, e);
      }
    }
  }

  ghost predicate DistinctIds(calls: seq<ToolCall>) {
    forall i, j :: 0 <= i < j < |calls| ==> calls[i].id != calls[j].id
  }

  /** Every call that has started and not ended is pending. */
  ghost predicate ShowsRunning(s: State, b: Batch) {
    |b.stages| <= |ToolCalls(b.message)|
    && forall k :: 0 <= k < |b.stages| && !b.stages[k].Finished? ==> ToolCalls(b.message)[k].id in s.pending
  }

  lemma RunningStaysShown(s: State, b: Batch, e: Event)
    requires ShowsRunning(s, b) && DistinctIds(ToolCalls(b.message)) && AdvanceBatch(b, e).Some?
    ensures ShowsRunning(Reduce(s, e), AdvanceBatch(b, e).value)
    ensures AdvanceBatch(b, e).value.message == b.message
  {
  }

  /** While tools run, the pending calls are those that have started and not ended, if their ids differ. */
  lemma {:induction false} ReplayShowsRunning(s: State, log: seq<Event>)
    requires Monitor(log) != Broken
    ensures var p := Monitor(log);
      p.Tools? && DistinctIds(ToolCalls(p.batch.message)) ==> ShowsRunning(Replay(s, log), p.batch)
  {
    if log != [] {
      hide AdvanceBatch, ShowsRunning, DistinctIds, Reduce;
      var front, e := log[..|log| - 1], log[|log| - 1];
      var p := Monitor(front);
      ReplayShowsRunning(s, front);
      if p.Tools? && AdvanceBatch(p.batch, e).Some? {
        if DistinctIds(ToolCalls(p.batch.message)) {
          RunningStaysShown(Replay(s, front), p.batch, e);
        } else {
          MessageStays(p.batch, e);
        }
      }
      NothingRunsYet(Replay(s, log), Monitor(log));
    }
  }

  lemma MessageStays(b: Batch, e: Event)
    requires AdvanceBatch(b, e).Some?
    ensures AdvanceBatch(b, e).value.message == b.message
  {
  }

  lemma NothingRunsYet(s: State, p: Progress)
    ensures p.Tools? && p.batch.stages == [] ==> ShowsRunning(s, p.batch)
  {
  }

  predicate Streams(e: Event) { e.MessageStart? || e.MessageUpdate? || e.MessageEnd? || e.AgentEnd? }

  /** Position `k` shows a message that is not final, and nothing has been shown or ended since. */
  ghost predicate ShownLast(log: seq<Event>, k: nat, m: Message) {
    && k < |log| && (log[k].MessageStart? || log[k].MessageUpdate?) && log[k].message == m
    && forall i :: k < i < |log| ==> !Streams(log[i])
  }

  /** The message that is being streamed is the one that was shown last, and it has not ended. */
  lemma {:induction false} ReplayShowsLast(s: State, log: seq<Event>) returns (k: nat)
    requires s.streaming == None && Replay(s, log).streaming.Some?
    ensures ShownLast(log, k, Replay(s, log).streaming.value)
  {
    var n := |log| - 1;
    if log[n].MessageStart? || log[n].MessageUpdate? {
      k := n;
    } else {
      k := ReplayShowsLast(s, log[..n]);
      assert forall i :: 0 <= i < n ==> log[..n][i] == log[i];
    }
  }

  predicate EndsInError(e: Event) { e.TurnEnd? && e.message.Assistant? && e.message.errorMessage != "" }

  /** The errors of the turns, in order. */
  function Errors(log: seq<Event>): seq<string> {
    if log == [] then []
    else
      var last := log[|log| - 1];
      Errors(log[..|log| - 1]) + (if EndsInError(last) then [last.message.errorMessage] else [])
  }

  /** The error that is kept is that of the last turn that had one. */
  lemma {:induction false} ReplayKeepsError(s: State, log: seq<Event>)
    ensures var errors := Errors(log);
      Replay(s, log).error == if errors == [] then s.error else Some(errors[|errors| - 1])
  {
    if log != [] {
      ReplayKeepsError(s, log[..|log| - 1]);
    }
  }

  lemma {:induction false} ReplayMessages(s: State, log: seq<Event>)
    ensures Replay(s, log).messages == s.messages + Ended(log)
  {
    if log != [] { ReplayMessages(s, log[..|log| - 1]); }
  }

  /**
   * Between turns and after the run, replaying the events through the wrapper leaves the transcript
   * it started with and the messages that ended, no message half streamed and no call pending.
   */
  lemma ReplayAtRest(s: State, log: seq<Event>)
    requires s.streaming == None && s.pending == {}
    requires Monitor(log) != Broken && !InTurn(Monitor(log))
    ensures Replay(s, log).messages == s.messages + Ended(log)
    ensures Replay(s, log).streaming == None && Replay(s, log).pending == {}
  {
    ReplayMirrors(s, log);
    ReplayMessages(s, log);
  }

  /** A log that is over begins with the run's start, ends with its end, and leaves no queue message behind. */
  lemma FinishedRuns(log: seq<Event>)
    requires Monitor(log) == Over
    ensures |log| >= 4 && log[0] == AgentStart && log[1] == TurnStart && log[|log| - 1].AgentEnd?
    ensures Count(log, IsTurnStart) == TurnsEnded(log) == Count(log, IsResponse) >= 1
    ensures Count(log, IsMessageStart) == Count(log, IsMessageEnd)
    ensures Drained(log) == Injected(log)
  {
    hide Advance, Count, TurnsEnded, Drained, Injected;
    TurnsBalance(log);
    MessagesBalance(log);
    NothingDrainedIsLost(log);
    RunsOpen(log);
    OnlyAgentEndEnds(Monitor(log[..|log| - 1]), log[|log| - 1]);
  }

  lemma OnlyAgentEndEnds(p: Progress, e: Event)
    ensures Advance(p, e) == Over ==> e.AgentEnd?
  {
  }

  lemma {:induction false} RunsOpen(log: seq<Event>)
    requires Monitor(log) != Broken
    ensures |log| >= 1 ==> log[0] == AgentStart
    ensures |log| >= 2 ==> log[1] == TurnStart
    ensures Monitor(log).Fresh? <==> |log| == 0
    ensures Monitor(log).Opened? <==> |log| == 1
    ensures |log| == 2 ==> Monitor(log).Injecting?
    ensures |log| == 3 ==> !Monitor(log).Over?
  {
    if log != [] {
      var front := log[..|log| - 1];
      RunsOpen(front);
      if |log| == 3 { assert Monitor(front).Injecting?; }
    }
  }
}
