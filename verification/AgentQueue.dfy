/** The queues that hold messages while the agent is busy. */
module AgentQueue {
  import opened AgentEvents

  datatype QueueMode = All | OneAtATime

  /** What one drain takes from a queue. */
  function FirstOf(queued: seq<Message>, mode: QueueMode): seq<Message> {
    if mode == All || |queued| <= 1 then queued else queued[..1]
  }

  class PendingMessageQueue {
    var messages: seq<Message>
    var mode: QueueMode
    /** Everything that was queued and not withdrawn, and the part of it that has been taken. */
    ghost var offered: seq<Message>
    ghost var taken: seq<Message>
    ghost var clears: nat

    /** Messages leave in the order they came, each once. */
    ghost predicate Valid()
      reads this
    {
      offered == taken + messages
    }

    constructor (mode: QueueMode)
      ensures Valid() && messages == [] && this.mode == mode && clears == 0
    {
      this.mode := mode;
      messages, offered, taken, clears := [], [], [], 0;
    }

    method Enqueue(message: Message)
      requires Valid()
      modifies this
      ensures Valid() && mode == old(mode)
      ensures messages == old(messages) + [message] && taken == old(taken)
      ensures offered == old(offered) + [message] && clears == old(clears)
    {
      messages, offered := messages + [message], offered + [message];
    }

    method HasItems() returns (any: bool)
      ensures any <==> messages != []
    {
      any := |messages| > 0;
    }

    method Drain() returns (drained: seq<Message>)
      requires Valid()
      modifies this
      ensures Valid() && mode == old(mode) && offered == old(offered) && clears == old(clears)
      ensures drained + messages == old(messages) && taken == old(taken) + drained
      ensures drained == FirstOf(old(messages), mode)
      ensures mode.All? ==> drained == old(messages)
      ensures mode.OneAtATime? ==> drained == if old(messages) == [] then [] else [old(messages)[0]]
    {
      if mode == All {
        drained := messages;
        messages, taken := [], taken + messages;
        return;
      }
      if messages == [] { return []; }
      drained := [messages[0]];
      messages, taken := messages[1..], taken + drained;
      assert drained + messages == old(messages);
    }

    method Clear()
      requires Valid()
      modifies this
      ensures Valid() && mode == old(mode) && messages == [] && taken == old(taken) && clears == old(clears) + 1
    {
      messages, offered, clears := [], taken, clears + 1;
    }
  }
}
