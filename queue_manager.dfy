/** `MessageQueueManager`: routes each incoming update to its chat's queue,
    creating the queue the first time the chat is seen and keeping it for
    ever, and on every tick of its background loop gives each known chat one
    delivery attempt. */
module Manager {
  import opened Common
  import opened Telegram
  import opened Queueing

  // ---------------------------------------------------------------------
  // Routing
  // ---------------------------------------------------------------------

  /** The message whose chat an update belongs to: the new message, else the
      edited one, else the message a pressed button was attached to. */
  function RoutedMessage(u: Update): Option<Message> {
    if u.message.Some? then u.message
    else if u.editedMessage.Some? then u.editedMessage
    else if u.callbackQuery.Some? then u.callbackQuery.value.message
    else None
  }

  /** `message.Chat.Id`, which throws when the message has no chat. */
  function ChatIdOf(m: Message): Result<Int32> {
    if m.chat.Some? then Success(m.chat.value.id) else Failure(NullReference)
  }

  /** The session key `OnUpdate` computes: `(Message ?? EditedMessage).Chat.Id`,
      and without either `CallbackQuery.Message.Chat.Id`. Any null on the way
      throws `NullReferenceException`; in particular a chat-less message is
      not skipped in favour of the edited message or the callback. */
  function ChatKey(u: Update): (r: Result<Int32>)
    ensures r.Success? <==> RoutedMessage(u).Some? && RoutedMessage(u).value.chat.Some?
    ensures r.Success? ==> r.value == RoutedMessage(u).value.chat.value.id
    ensures r.Failure? ==> r.error == NullReference
  {
    var message := if u.message.Some? then u.message else u.editedMessage;
    if message.Some? then ChatIdOf(message.value)
    else if u.callbackQuery.None? then Failure(NullReference)
    else if u.callbackQuery.value.message.None? then Failure(NullReference)
    else ChatIdOf(u.callbackQuery.value.message.value)
  }

  /** The callback query is read only when the update has neither a message
      nor an edited message; the edited message only without a message. */
  lemma ChatKeyPrefersMessages(u: Update, click: Option<CallbackQuery>, edited: Option<Message>)
    ensures u.message.Some? || u.editedMessage.Some? ==>
              ChatKey(u.(callbackQuery := click)) == ChatKey(u)
    ensures u.message.Some? ==> ChatKey(u.(editedMessage := edited)) == ChatKey(u)
  {
  }

  /** A reply built from the routed message goes back to the chat whose
      queue received the update. */
  lemma ReplyGoesToRoutedChat(u: Update, text: Option<Utf16>)
    requires ChatKey(u).Success?
    ensures CreateReply(RoutedMessage(u).value, text).Success?
    ensures CreateReply(RoutedMessage(u).value, text).value.chatId == ChatKey(u).value
  {
  }

  // ---------------------------------------------------------------------
  // One tick, on values
  // ---------------------------------------------------------------------

  /** The handler calls a tick makes when it visits the chats in the order
      `visited`, each queue starting from its state in `before`. */
  ghost function Deliveries(visited: seq<int>, before: map<int, QueueState>, react: Update -> Outcome): seq<Invocation>
    requires forall k :: k in visited ==> k in before
  {
    if visited == [] then []
    else
      var last := visited[|visited| - 1];
      Deliveries(visited[..|visited| - 1], before, react) + Delivered(HandleStep(before[last], react))
  }

  /** The queue states part-way through a tick: the chats in `pending` still
      as they were, every other one after its `HandleMessage` call. */
  ghost function TickState(before: map<int, QueueState>, react: Update -> Outcome, pending: set<int>): map<int, QueueState>
  {
    map k | k in before :: if k in pending then before[k] else HandleStep(before[k], react).next
  }

  /** Before any chat is handled the tick state is the initial one; after
      all of them, every chat has had exactly one step. */
  lemma TickStateEnds(before: map<int, QueueState>, react: Update -> Outcome)
    ensures TickState(before, react, before.Keys) == before
    ensures TickState(before, react, {}) == map k | k in before :: HandleStep(before[k], react).next
  {
  }

  /** Handling one more pending chat advances the tick state at that chat only. */
  lemma TickStateAdvance(before: map<int, QueueState>, react: Update -> Outcome, pending: set<int>, key: int)
    requires key in pending && key in before
    ensures TickState(before, react, pending)[key := HandleStep(before[key], react).next]
            == TickState(before, react, pending - {key})
  {
  }

  /** Visiting one more chat appends that chat's handler call, if any. */
  lemma DeliveriesAppend(visited: seq<int>, before: map<int, QueueState>, react: Update -> Outcome, key: int)
    requires forall k :: k in visited ==> k in before
    requires key in before
    ensures Deliveries(visited + [key], before, react)
            == Deliveries(visited, before, react) + Delivered(HandleStep(before[key], react))
  {
    assert (visited + [key])[..|visited|] == visited;
  }

  // ---------------------------------------------------------------------
  // The manager
  // ---------------------------------------------------------------------

  class MessageQueueManager {
    /** `_sessions`: chat id to that chat's queue. */
    var sessions: map<int, MessageQueue>

    /** Distinct chats own distinct queues, and every queue is consistent. */
    ghost predicate Valid()
      reads this, sessions.Values
    {
      && (forall k1, k2 :: k1 in sessions && k2 in sessions && k1 != k2 ==> sessions[k1] != sessions[k2])
      && (forall k :: k in sessions ==> sessions[k].Valid())
    }

    /** Every chat's queue state. */
    ghost function Snapshot(): map<int, QueueState>
      reads this, sessions.Values
    {
      map k | k in sessions :: sessions[k].State()
    }

    constructor ()
      ensures Valid() && sessions == map[]
    {
      sessions := map[];
    }

    /** `ConcurrentDictionary.GetOrAdd`: the queue already bound to the key,
        or a new empty one bound to it now. Nothing else changes. */
    method GetOrAdd(key: int) returns (session: MessageQueue)
      requires Valid()
      modifies this
      ensures Valid()
      ensures sessions == old(sessions)[key := session]
      ensures key in old(sessions) ==> session == old(sessions[key])
      ensures key !in old(sessions) ==> fresh(session) && session.messages == map[] && !session.isBusy
    {
      if key in sessions {
        session := sessions[key];
      } else {
        session := new MessageQueue();
        sessions := sessions[key := session];
      }
    }

    /** Routes an update to its chat's queue and pushes it there. Without a
        chat the call throws before touching the registry; otherwise the
        chat's queue is reused or created, and the push can still throw on
        a duplicate `UpdateId`. No other chat and no binding changes. */
    method OnUpdate(payload: Update) returns (outcome: Outcome)
      requires Valid()
      modifies this, sessions.Values
      ensures Valid()
      ensures forall k :: k in old(sessions) ==> k in sessions && sessions[k] == old(sessions[k])
      ensures ChatKey(payload).Failure? ==>
                outcome == Fail(NullReference) && sessions == old(sessions) && Snapshot() == old(Snapshot())
      ensures ChatKey(payload).Success? ==>
                var key := ChatKey(payload).value;
                var before := if key in old(sessions) then old(Snapshot())[key] else QueueState(map[], false);
                && sessions.Keys == old(sessions.Keys) + {key}
                && (key !in old(sessions) ==> fresh(sessions[key]))
                && (outcome.Pass? <==> payload.updateId !in before.messages)
                && (outcome.Fail? ==> outcome.error == DuplicateKey)
                && Snapshot() == old(Snapshot())[key :=
                     if outcome.Pass? then QueueState(before.messages[payload.updateId := payload], before.busy)
                     else before]
    {
      var key := ChatKey(payload);
      if key.Failure? {
        return Fail(key.error);
      }
      ghost var before := Snapshot();
      var session := GetOrAdd(key.value);
      ghost var start := session.State();
      outcome := session.Push(payload);
      ghost var expected := before[key.value := session.State()];
      forall k | k in sessions ensures k in expected && Snapshot()[k] == expected[k] {
        if k != key.value {
          assert sessions[k] != session;
        }
      }
      assert Snapshot() == expected;
    }

    /** The body of the background loop for one key: `TryGetValue`, then
        `HandleMessage` inside a `try` whose `catch` logs the exception and
        lets the loop go on. Only that chat's queue and the handler change. */
    method Dispatch(key: int, handler: Handler) returns (outcome: Outcome)
      requires Valid()
      modifies sessions.Values, handler
      ensures Valid()
      ensures key !in sessions ==>
                outcome == Pass && Snapshot() == old(Snapshot()) && handler.invocations == old(handler.invocations)
      ensures key in sessions ==>
                var step := HandleStep(old(Snapshot())[key], handler.react);
                && Snapshot() == old(Snapshot())[key := step.next]
                && outcome == step.outcome
                && handler.invocations == old(handler.invocations) + Delivered(step)
    {
      if key !in sessions {
        return Pass;
      }
      ghost var before := Snapshot();
      var session := sessions[key];
      outcome := session.HandleMessage(handler);
      ghost var expected := before[key := session.State()];
      forall k | k in sessions ensures k in expected && Snapshot()[k] == expected[k] {
        if k != key {
          assert sessions[k] != session;
        }
      }
      assert Snapshot() == expected;
    }

    /** Where a tick stands: the chats in `pending` are still as they were
        in `before`, every other one has had its `HandleMessage` call, in the
        order `visited`; the handler has received exactly those calls' updates
        after `calls`, and `failed` holds the chats whose handler threw. */
    ghost predicate Progress(handler: Handler, before: map<int, QueueState>, calls: seq<Invocation>,
                             pending: set<int>, visited: seq<int>, failed: set<int>)
      reads this, sessions.Values, handler
    {
      && Valid()
      && pending <= sessions.Keys == before.Keys
      && (forall k :: k in visited <==> k in sessions && k !in pending)
      && (forall i, j :: 0 <= i < j < |visited| ==> visited[i] != visited[j])
      && Snapshot() == TickState(before, handler.react, pending)
      && handler.invocations == calls + Deliveries(visited, before, handler.react)
      && (forall k :: k in failed <==> k in sessions && k !in pending && HandleStep(before[k], handler.react).outcome.Fail?)
    }

    /** One iteration of the loop over the keys: dispatch one pending chat
        and record it, and the chat if its handler threw. */
    method Visit(key: int, handler: Handler, ghost before: map<int, QueueState>, ghost calls: seq<Invocation>,
                 ghost pending: set<int>, ghost visited: seq<int>, failed: set<int>)
      returns (failedAfter: set<int>)
      requires key in pending
      requires Progress(handler, before, calls, pending, visited, failed)
      modifies sessions.Values, handler
      ensures Progress(handler, before, calls, pending - {key}, visited + [key], failedAfter)
    {
      ghost var step := HandleStep(before[key], handler.react);
      assert Snapshot()[key] == before[key];
      ghost var prior := handler.invocations;
      var outcome := Dispatch(key, handler);
      assert handler.invocations == prior + Delivered(step) && outcome == step.outcome;
      failedAfter := if outcome.Fail? then failed + {key} else failed;
      DeliveriesAppend(visited, before, handler.react, key);
      assert handler.invocations == calls + Deliveries(visited + [key], before, handler.react);
      TickStateAdvance(before, handler.react, pending, key);
    }

    /** One pass of the background loop: every chat known when the pass
        starts is visited exactly once, in the dictionary's order, and gets
        one `HandleMessage` call; an exception from one chat's handler is
        caught and recorded, and the pass goes on with the next chat. */
    method Tick(handler: Handler) returns (visited: seq<int>, failed: set<int>)
      requires Valid()
      modifies sessions.Values, handler
      ensures Valid()
      ensures forall i, j :: 0 <= i < j < |visited| ==> visited[i] != visited[j]
      ensures forall k :: k in visited <==> k in sessions
      ensures Snapshot() == map k | k in old(Snapshot()) :: HandleStep(old(Snapshot())[k], handler.react).next
      ensures handler.invocations == old(handler.invocations) + Deliveries(visited, old(Snapshot()), handler.react)
      ensures forall k :: k in failed <==> k in sessions && HandleStep(old(Snapshot())[k], handler.react).outcome.Fail?
    {
      ghost var before := Snapshot();
      var remaining := sessions.Keys;
      visited := [];
      failed := {};
      TickStateEnds(before, handler.react);
      while remaining != {}
        invariant Progress(handler, before, old(handler.invocations), remaining, visited, failed)
        decreases remaining
      {
        // A member in hand, so that the choice below provably has one.
        ghost var some := SomeMember(remaining);
        var key :| key in remaining;
        failed := Visit(key, handler, before, old(handler.invocations), remaining, visited, failed);
        visited := visited + [key];
        remaining := remaining - {key};
      }
    }
  }
}
