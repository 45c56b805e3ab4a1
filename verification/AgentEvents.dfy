/**
 * The agent loop's messages and events, and the protocol they follow.
 *
 * `Advance` is a monitor that reads one event at a time; `Monitor` runs it over a whole log and is
 * `Broken` as soon as an event comes out of turn. `Reduce` is what the stateful wrapper makes of one
 * event, and `Replay` folds it over a log.
 */
module AgentEvents {
  import opened Strings

  // ----- messages -----

  datatype StopReason = Stop | Length | ToolUse | Error | Aborted

  datatype ToolCall = ToolCall(id: string, name: string, arguments: string)

  datatype Part = Text(text: string) | Thinking(text: string) | Call(call: ToolCall)

  /** What a call came to, after the hook that may rewrite it. */
  datatype Outcome = Outcome(content: string, isError: bool, terminate: bool)

  /** `User` stands for every message that is neither a response nor a tool result. */
  datatype Message =
    | User(text: string)
    | Assistant(parts: seq<Part>, stopReason: StopReason, errorMessage: string)
    | ToolResult(callId: string, toolName: string, content: string, isError: bool)

  type AssistantMessage = m: Message | m.Assistant? witness Assistant([], Stop, "")

  function Calls(parts: seq<Part>): seq<ToolCall> {
    if parts == [] then []
    else (if parts[0].Call? then [parts[0].call] else []) + Calls(parts[1..])
  }

  function ToolCalls(message: AssistantMessage): seq<ToolCall> { Calls(message.parts) }

  predicate Failed(message: AssistantMessage) {
    message.stopReason == Error || message.stopReason == Aborted
  }

  /** A response that hit the output limit before it called a tool: the loop asks it to go on. */
  predicate CutShort(message: AssistantMessage) {
    message.stopReason == Length && ToolCalls(message) == []
  }

  function ErrorOutcome(text: string): Outcome { Outcome(text, true, false) }

  function ResultMessage(call: ToolCall, outcome: Outcome): Message {
    ToolResult(call.id, call.name, outcome.content, outcome.isError)
  }

  const RESUME := User(
    "Your previous response reached the output token limit. Continue exactly where it stopped, preserving "
    + "all previous output. Do not restart or repeat content already provided. Complete the original "
    + "request within the user's existing permissions.")

  // ----- events -----

  datatype Queue = Steering | FollowUp

  /** Why a message enters the conversation. Listeners see the message only. */
  datatype Origin = Prompt | Queued(queue: Queue) | Resume | Response | Result

  /** A message and the queue it came from. */
  datatype Delivery = Delivery(queue: Queue, message: Message)

  function Deliveries(queue: Queue, messages: seq<Message>): (d: seq<Delivery>)
    ensures |d| == |messages|
    ensures forall i :: 0 <= i < |d| ==> d[i] == Delivery(queue, messages[i])
  {
    seq(|messages|, i requires 0 <= i < |messages| => Delivery(queue, messages[i]))
  }

  /** The messages of one queue. */
  function From(deliveries: seq<Delivery>, queue: Queue): seq<Message> {
    if deliveries == [] then []
    else
      var last := deliveries[|deliveries| - 1];
      From(deliveries[..|deliveries| - 1], queue) + (if last.queue == queue then [last.message] else [])
  }

  datatype Mode = Sequential | Parallel | Truncated

  /**
   * The emitted events, then six steps of the loop that are logged but not emitted. A `slot` is the
   * position of the call in its message: listeners see the call's id, and ids may repeat.
   */
  datatype Event =
    | AgentStart
    | TurnStart
    | MessageStart(origin: Origin, message: Message)
    | MessageUpdate(message: Message)
    | MessageEnd(origin: Origin, message: Message)
    | ToolStart(slot: nat, call: ToolCall)
    | ToolUpdate(slot: nat, call: ToolCall)
    | ToolEnd(slot: nat, call: ToolCall, outcome: Outcome)
    | TurnEnd(message: Message, results: seq<Message>)
    | AgentEnd(messages: seq<Message>)
    | Polled(queue: Queue, messages: seq<Message>)
    | StopAsked
    | AbortSeen
    | Dispatched(mode: Mode)
    | Prepared(slot: nat, ready: bool)
    | Executing(slot: nat)

  predicate Emitted(e: Event) {
    !e.Polled? && !e.StopAsked? && !e.AbortSeen? && !e.Dispatched? && !e.Prepared? && !e.Executing?
  }

  // ----- the protocol of one tool batch -----

  /** How far one call has come. `ran` tells a call that executed from one that was refused. */
  datatype Stage = Started | Ready | Refused | Running | Finished(outcome: Outcome, ran: bool)

  /** `stages` holds the calls started so far, in source order; `results` those reported so far. */
  datatype Batch = Batch(
    message: AssistantMessage, mode: Mode, stages: seq<Stage>, results: seq<Message>, open: bool)

  predicate Preparing(stage: Stage) { stage.Ready? || (stage.Finished? && !stage.ran) }

  predicate AllPreparing(stages: seq<Stage>) { forall k :: 0 <= k < |stages| ==> Preparing(stages[k]) }

  predicate NoneStarted(stages: seq<Stage>) { forall k :: 0 <= k < |stages| ==> !stages[k].Started? }

  predicate AllFinished(stages: seq<Stage>) { forall k :: 0 <= k < |stages| ==> stages[k].Finished? }

  /** Every call of the batch asked the agent to stop. */
  predicate AllTerminate(stages: seq<Stage>) {
    stages != [] && forall k :: 0 <= k < |stages| ==> stages[k].Finished? && stages[k].outcome.terminate
  }

  /** A call starts after the batch so far has been reported, or, in parallel, before anything ran. */
  predicate MayStart(b: Batch) {
    match b.mode
    case Parallel => b.results == [] && AllPreparing(b.stages)
    case Sequential => |b.results| == |b.stages|
    case Truncated => |b.results| == |b.stages|
  }

  predicate MayEnd(b: Batch, slot: nat, outcome: Outcome)
    requires slot < |b.stages|
  {
    match b.stages[slot]
    case Running => true
    case Refused => outcome.isError && !outcome.terminate
    case Started => b.mode.Truncated? && outcome.isError && !outcome.terminate
    case _ => false
  }

  function AdvanceBatch(b: Batch, e: Event): Option<Batch> {
    var calls := ToolCalls(b.message);
    if b.open then
      if e.MessageEnd? && e.origin == Result && |b.results| < |b.stages| && |b.stages| <= |calls|
         && b.stages[|b.results|].Finished?
         && e.message == ResultMessage(calls[|b.results|], b.stages[|b.results|].outcome)
      then Some(b.(results := b.results + [e.message], open := false)) else None
    else
      match e
      case ToolStart(slot, call) =>
        if slot == |b.stages| < |calls| && call == calls[slot] && MayStart(b)
        then Some(b.(stages := b.stages + [Started])) else None
      case Prepared(slot, ready) =>
        if slot < |b.stages| && b.stages[slot].Started? && !b.mode.Truncated?
        then Some(b.(stages := b.stages[slot := if ready then Ready else Refused])) else None
      case Executing(slot) =>
        if slot < |b.stages| && b.stages[slot].Ready? && NoneStarted(b.stages)
        then Some(b.(stages := b.stages[slot := Running])) else None
      case ToolUpdate(slot, call) =>
        if slot < |b.stages| && b.stages[slot].Running? && slot < |calls| && call == calls[slot]
        then Some(b) else None
      case ToolEnd(slot, call, outcome) =>
        if slot < |b.stages| && MayEnd(b, slot, outcome) && slot < |calls| && call == calls[slot]
        then Some(b.(stages := b.stages[slot := Finished(outcome, b.stages[slot].Running?)])) else None
      case MessageStart(origin, message) =>
        if origin == Result && |b.results| < |b.stages| && |b.stages| <= |calls|
           && b.stages[|b.results|].Finished? && (b.mode.Parallel? ==> AllFinished(b.stages))
           && message == ResultMessage(calls[|b.results|], b.stages[|b.results|].outcome)
        then Some(b.(open := true)) else None
      case _ => None
  }

  // ----- the protocol of a run -----

  /** What the loop has asked its queues since the turn ended. */
  datatype Polls = NotPolled | Loaded | SteeringEmpty | AllEmpty

  datatype Progress =
    | Fresh
    | Opened
      /** The turn has started; `owed` left a queue and has not entered the conversation yet. */
    | Injecting(prompting: bool, open: Option<Message>, owed: seq<Delivery>, resume: bool)
    | Responding
    | Responded(message: AssistantMessage)
    | Tools(batch: Batch)
      /** Between turns. `more`: tool results wait for the model. `cut`: the response was cut short, and the
          model must go on unless the run is stopped or aborted. */
    | Between(more: bool, cut: bool, polls: Polls, owed: seq<Delivery>)
    | Closing
    | Over
    | Broken

  function AdvanceInjecting(p: Progress, e: Event): Progress
    requires p.Injecting?
  {
    match p.open
    case Some(m) =>
      if !e.MessageEnd? || e.message != m then Broken
      else if e.origin == Prompt && p.prompting then p.(open := None)
      else if e.origin.Queued? && p.owed != [] && p.owed[0] == Delivery(e.origin.queue, m) then
        p.(open := None, owed := p.owed[1..])
      else if e.origin == Resume && p.resume && m == RESUME then p.(open := None, resume := false)
      else Broken
    case None =>
      match e
      case MessageStart(origin, m) =>
        if origin == Prompt && p.prompting then p.(open := Some(m))
        else if origin.Queued? && !p.prompting && p.owed != [] && p.owed[0] == Delivery(origin.queue, m) then
          p.(open := Some(m))
        else if origin == Resume && !p.prompting && p.resume && m == RESUME then p.(open := Some(m))
        else if origin == Response && !p.prompting && p.owed == [] && !p.resume then Responding
        else Broken
      case Polled(queue, messages) =>
        if queue == Steering && p.prompting then
          p.(prompting := false, owed := Deliveries(queue, messages))
        else Broken
      case _ => Broken
  }

  function AdvanceBetween(p: Progress, e: Event): Progress
    requires p.Between?
  {
    match e
    case Polled(queue, messages) =>
      if queue == Steering && p.polls == NotPolled then
        p.(polls := if messages == [] then SteeringEmpty else Loaded, owed := Deliveries(queue, messages))
      else if queue == FollowUp && (p.polls == SteeringEmpty || p.polls == AllEmpty) && !p.more then
        p.(polls := if messages == [] then AllEmpty else Loaded, owed := Deliveries(queue, messages))
      else Broken
    case StopAsked => if p.polls == NotPolled then Closing else Broken
    case AbortSeen =>
      if p.cut && (p.polls == SteeringEmpty || p.polls == AllEmpty) then p.(cut := false) else Broken
    case TurnStart =>
      if p.polls == Loaded || (p.more && p.polls != NotPolled) then Injecting(false, None, p.owed, false)
      else if p.cut && p.polls == AllEmpty then Injecting(false, None, [], true)
      else Broken
    case AgentEnd(_) => if p.polls == AllEmpty && !p.more && !p.cut then Over else Broken
    case _ => Broken
  }

  function AdvanceResponded(message: AssistantMessage, e: Event): Progress {
    match e
    case TurnEnd(m, results) =>
      if m != message || results != [] then Broken
      else if Failed(message) then Closing
      else if ToolCalls(message) == [] then Between(false, CutShort(message), NotPolled, [])
      else Broken
    case Dispatched(mode) =>
      if !Failed(message) && ToolCalls(message) != [] && (mode.Truncated? <==> message.stopReason == Length)
      then Tools(Batch(message, mode, [], [], false)) else Broken
    case _ => Broken
  }

  function AdvanceTools(b: Batch, e: Event): Progress {
    if e.TurnEnd? then
      if e.message == b.message && e.results == b.results && !b.open && |b.results| == |b.stages|
      then Between(!AllTerminate(b.stages), false, NotPolled, []) else Broken
    else
      match AdvanceBatch(b, e)
      case Some(next) => Tools(next)
      case None => Broken
  }

  function Advance(p: Progress, e: Event): Progress {
    match p
    case Fresh => if e.AgentStart? then Opened else Broken
    case Opened => if e.TurnStart? then Injecting(true, None, [], false) else Broken
    case Injecting(_, _, _, _) => AdvanceInjecting(p, e)
    case Responding =>
      if e.MessageUpdate? then Responding
      else if e.MessageEnd? && e.origin == Response && e.message.Assistant? then Responded(e.message)
      else Broken
    case Responded(message) => AdvanceResponded(message, e)
    case Tools(batch) => AdvanceTools(batch, e)
    case Between(_, _, _, _) => AdvanceBetween(p, e)
    case Closing => if e.AgentEnd? then Over else Broken
    case Over => Broken
    case Broken => Broken
  }

  function Monitor(log: seq<Event>): Progress {
    if log == [] then Fresh else Advance(Monitor(log[..|log| - 1]), log[|log| - 1])
  }

  // ----- what the wrapper makes of the events -----

  /** The fields of the agent's state that events change. */
  datatype State = State(
    messages: seq<Message>, streaming: Option<Message>, pending: set<string>, error: Option<string>)

  function Reduce(s: State, e: Event): State {
    match e
    case MessageStart(_, m) => s.(streaming := Some(m))
    case MessageUpdate(m) => s.(streaming := Some(m))
    case MessageEnd(_, m) => s.(streaming := None, messages := s.messages + [m])
    case ToolStart(_, call) => s.(pending := s.pending + {call.id})
    case ToolEnd(_, call, _) => s.(pending := s.pending - {call.id})
    case TurnEnd(m, _) => if m.Assistant? && m.errorMessage != "" then s.(error := Some(m.errorMessage)) else s
    case AgentEnd(_) => s.(streaming := None)
    case _ => s
  }

  function Replay(s: State, log: seq<Event>): State {
    if log == [] then s else Reduce(Replay(s, log[..|log| - 1]), log[|log| - 1])
  }

  // ----- what a log says -----

  /** The messages that entered the conversation, in order. */
  function Ended(log: seq<Event>): seq<Message> {
    if log == [] then []
    else
      var last := log[|log| - 1];
      Ended(log[..|log| - 1]) + (if last.MessageEnd? then [last.message] else [])
  }

  function Leaving(e: Event): seq<Delivery> { if e.Polled? then Deliveries(e.queue, e.messages) else [] }

  function Entering(e: Event): seq<Delivery> {
    if e.MessageEnd? && e.origin.Queued? then [Delivery(e.origin.queue, e.message)] else []
  }

  /** The messages that left a queue, in the order they left it. */
  function Drained(log: seq<Event>): seq<Delivery> {
    if log == [] then []
    else
      var last := log[|log| - 1];
      Drained(log[..|log| - 1]) + Leaving(last)
  }

  /** The messages that entered the conversation because they had left a queue. */
  function Injected(log: seq<Event>): seq<Delivery> {
    if log == [] then []
    else
      var last := log[|log| - 1];
      Injected(log[..|log| - 1]) + Entering(last)
  }

  function TurnsEnded(log: seq<Event>): nat {
    if log == [] then 0 else TurnsEnded(log[..|log| - 1]) + (if log[|log| - 1].TurnEnd? then 1 else 0)
  }

  function Count(log: seq<Event>, kind: Event -> bool): nat {
    if log == [] then 0
    else Count(log[..|log| - 1], kind) + (if kind(log[|log| - 1]) then 1 else 0)
  }
}
