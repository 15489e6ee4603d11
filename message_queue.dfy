/** One chat's delivery queue: the updates waiting for that chat, ordered by
    `UpdateId`, and the flag that keeps a second handler call out while one
    is running. The pure functions first say what the queue's operations do
    to its state; the classes then carry that state and are proved against
    them. */
module Queueing {
  import opened Common
  import opened Telegram

  // ---------------------------------------------------------------------
  // The buffer as a value
  // ---------------------------------------------------------------------

  /** Every buffered update sits under its own `UpdateId`. */
  ghost predicate KeysMatch(messages: map<int, Update>) {
    forall k :: k in messages ==> messages[k].updateId == k
  }

  ghost predicate IsLeast(k: int, messages: map<int, Update>) {
    k in messages && forall j :: j in messages ==> k <= j
  }

  /** A non-empty buffer has a least key. */
  lemma {:induction false} LeastKeyExists(messages: map<int, Update>)
    requires messages != map[]
    ensures exists k :: IsLeast(k, messages)
    decreases |messages|
  {
    var x := SomeMember(messages.Keys);
    var rest := messages - {x};
    assert rest.Keys == messages.Keys - {x};
    if rest != map[] {
      LeastKeyExists(rest);
      var k :| IsLeast(k, rest);
      forall j | j in messages && j != x ensures j in rest { }
      if x < k {
        assert IsLeast(x, messages);
      } else {
        assert IsLeast(k, messages);
      }
    } else {
      forall j | j in messages ensures x <= j {
        assert j !in rest;
      }
      assert IsLeast(x, messages);
    }
  }

  /** The key `SortedList` keeps at index 0. */
  ghost function LeastKey(messages: map<int, Update>): (k: int)
    requires messages != map[]
    ensures IsLeast(k, messages)
  {
    LeastKeyExists(messages);
    var k :| IsLeast(k, messages);
    k
  }

  /** The order in which successive pulls hand out the buffered updates. */
  ghost function DrainOrder(messages: map<int, Update>): seq<Update>
    decreases |messages|
  {
    if messages == map[] then []
    else
      var k := LeastKey(messages);
      assert (messages - {k}).Keys == messages.Keys - {k};
      [messages[k]] + DrainOrder(messages - {k})
  }

  /** Draining hands out as many updates as are buffered. */
  lemma {:induction false} DrainOrderLength(messages: map<int, Update>)
    ensures |DrainOrder(messages)| == |messages|
    decreases |messages|
  {
    if messages != map[] {
      var k := LeastKey(messages);
      assert (messages - {k}).Keys == messages.Keys - {k};
      DrainOrderLength(messages - {k});
    }
  }

  /** Every update draining hands out is the one buffered under its id. */
  lemma {:induction false} DrainOrderEntries(messages: map<int, Update>)
    requires KeysMatch(messages)
    ensures forall u :: u in DrainOrder(messages) ==> u.updateId in messages && messages[u.updateId] == u
    decreases |messages|
  {
    if messages != map[] {
      var k := LeastKey(messages);
      var rest := messages - {k};
      assert rest.Keys == messages.Keys - {k};
      DrainOrderEntries(rest);
      assert DrainOrder(messages) == [messages[k]] + DrainOrder(rest);
    }
  }

  /** Every buffered update is handed out by draining. */
  lemma {:induction false} DrainOrderComplete(messages: map<int, Update>)
    ensures forall k :: k in messages ==> messages[k] in DrainOrder(messages)
    decreases |messages|
  {
    if messages != map[] {
      var k := LeastKey(messages);
      var rest := messages - {k};
      assert rest.Keys == messages.Keys - {k};
      DrainOrderComplete(rest);
      var d := DrainOrder(messages);
      assert d == [messages[k]] + DrainOrder(rest);
      forall key | key in messages ensures messages[key] in d {
        if key != k {
          assert messages[key] == rest[key];
          assert messages[key] in DrainOrder(rest);
        }
      }
    }
  }

  /** Draining hands out the buffered updates in strictly increasing
      `UpdateId` order, so none of them twice. */
  lemma {:induction false} DrainOrderAscending(messages: map<int, Update>)
    requires KeysMatch(messages)
    ensures forall i, j :: 0 <= i < j < |DrainOrder(messages)| ==>
              DrainOrder(messages)[i].updateId < DrainOrder(messages)[j].updateId
    decreases |messages|
  {
    if messages != map[] {
      var k := LeastKey(messages);
      var rest := messages - {k};
      assert rest.Keys == messages.Keys - {k};
      DrainOrderAscending(rest);
      DrainOrderEntries(rest);
      var d := DrainOrder(messages);
      var tail := DrainOrder(rest);
      assert d == [messages[k]] + tail;
      forall i, j | 0 <= i < j < |d| ensures d[i].updateId < d[j].updateId {
        assert d[j] == tail[j - 1];
        if i == 0 {
          var u := tail[j - 1];
          assert u in tail;
          assert u.updateId in rest && u.updateId != k;
          assert u.updateId in messages;
          assert d[0].updateId == k;
        } else {
          assert d[i] == tail[i - 1];
          assert tail[i - 1].updateId < tail[j - 1].updateId;
        }
      }
    }
  }

  /** Removing the least entry, as `Pull` does, hands out the first update
      of the drain order and leaves the rest of it, in the same order. */
  lemma PullFollowsDrainOrder(messages: map<int, Update>, k: int)
    requires IsLeast(k, messages)
    ensures DrainOrder(messages)[0] == messages[k]
    ensures DrainOrder(messages - {k}) == DrainOrder(messages)[1..]
  {
    assert k == LeastKey(messages);
  }

  // ---------------------------------------------------------------------
  // The queue's state and one HandleMessage call on it
  // ---------------------------------------------------------------------

  datatype QueueState = QueueState(messages: map<int, Update>, busy: bool)

  /** What one `HandleMessage` call did: the state it left, the update it
      handed to the handler (if any) and how the call completed. */
  datatype Step = Step(next: QueueState, delivered: Option<Update>, outcome: Outcome)

  /** `HandleMessage`, on values. A busy queue is skipped; an idle empty one
      stays idle; otherwise the least update is removed and handed to the
      handler, and the busy flag is cleared only if the handler returns. */
  ghost function HandleStep(s: QueueState, react: Update -> Outcome): (r: Step)
    ensures s.busy || s.messages == map[] ==> r == Step(s, None, Pass)
    ensures !s.busy && s.messages != map[] ==>
              && r.delivered == Some(DrainOrder(s.messages)[0])
              && DrainOrder(r.next.messages) == DrainOrder(s.messages)[1..]
              && |r.next.messages| == |s.messages| - 1
              && r.outcome == react(r.delivered.value)
              && r.next.busy == r.outcome.Fail?
  {
    if s.busy || s.messages == map[] then Step(s, None, Pass)
    else
      var key := LeastKey(s.messages);
      var update := s.messages[key];
      var outcome := react(update);
      assert (s.messages - {key}).Keys == s.messages.Keys - {key};
      Step(QueueState(s.messages - {key}, outcome.Fail?), Some(update), outcome)
  }

  /** The handler call a step made, as the handler records it: the flag
      reads busy while the handler runs, and the update has already left the
      buffer. */
  ghost function Delivered(step: Step): seq<Invocation> {
    if step.delivered.Some? then [Invocation(step.delivered.value, true, false)] else []
  }

  /** `n` successive `HandleMessage` calls with nothing pushed in between:
      the final state and the updates the handler received, in order. */
  ghost function Run(s: QueueState, react: Update -> Outcome, n: nat): (QueueState, seq<Update>)
    decreases n
  {
    if n == 0 then (s, [])
    else
      var step := HandleStep(s, react);
      var later := Run(step.next, react, n - 1);
      (later.0, (if step.delivered.Some? then [step.delivered.value] else []) + later.1)
  }

  /** A busy queue stays exactly as it is for ever: however many ticks pass,
      the handler is never called again and nothing is removed. Since a
      handler that throws leaves the flag set, one failure wedges the chat. */
  lemma {:induction false} BusyQueueIsWedged(s: QueueState, react: Update -> Outcome, n: nat)
    requires s.busy
    ensures Run(s, react, n) == (s, [])
  {
    if n > 0 {
      BusyQueueIsWedged(s, react, n - 1);
      assert HandleStep(s, react) == Step(s, None, Pass);
      var none: seq<Update> := [];
      assert none + none == none;
      assert Run(s, react, n) == (s, none + none);
    }
  }

  /** A failing handler call leaves the queue busy, so every later call is a
      no-op: after the failure the chat receives nothing more. */
  lemma FailureWedgesQueue(s: QueueState, react: Update -> Outcome, n: nat)
    requires !s.busy && s.messages != map[]
    requires react(DrainOrder(s.messages)[0]).Fail?
    ensures Run(s, react, n + 1).1 == [DrainOrder(s.messages)[0]]
    ensures Run(s, react, n + 1).0.busy
    ensures |Run(s, react, n + 1).0.messages| == |s.messages| - 1
  {
    BusyQueueIsWedged(HandleStep(s, react).next, react, n);
  }

  /** While the handler keeps returning, one call per buffered update hands
      the whole buffer to the handler in `UpdateId` order and leaves the
      queue empty and idle. */
  lemma {:induction false} RunDrainsInOrder(s: QueueState, react: Update -> Outcome)
    requires !s.busy
    requires forall k :: k in s.messages ==> react(s.messages[k]) == Pass
    ensures Run(s, react, |s.messages|) == (QueueState(map[], false), DrainOrder(s.messages))
    decreases |s.messages|
  {
    if s.messages != map[] {
      var key := LeastKey(s.messages);
      var step := HandleStep(s, react);
      assert step.next == QueueState(s.messages - {key}, false);
      assert (s.messages - {key}).Keys == s.messages.Keys - {key};
      RunDrainsInOrder(step.next, react);
    }
  }

  // ---------------------------------------------------------------------
  // The handler and the queue as objects
  // ---------------------------------------------------------------------

  /** One call of the application's callback: the update it received, what
      the calling queue's busy flag read while it ran, and whether that
      update was still in the queue's buffer. */
  datatype Invocation = Invocation(update: Update, queueBusy: bool, stillBuffered: bool)

  /** The application's `ITelegramCallback`. What it does with an update is
      the function `react`; every call is recorded in `invocations`. */
  class Handler {
    const react: Update -> Outcome
    var invocations: seq<Invocation>

    constructor (react: Update -> Outcome)
      ensures this.react == react && invocations == []
    {
      this.react := react;
      invocations := [];
    }

    method OnUpdate(update: Update, queue: MessageQueue) returns (outcome: Outcome)
      modifies this
      ensures invocations == old(invocations)
                               + [Invocation(update, queue.isBusy, update.updateId in queue.messages)]
      ensures outcome == react(update)
    {
      invocations := invocations + [Invocation(update, queue.isBusy, update.updateId in queue.messages)];
      outcome := react(update);
    }
  }

  /** `MessageQueueManager.MessageQueue`: the `SortedList` of pending updates
      keyed by `UpdateId`, and the busy flag. */
  class MessageQueue {
    var isBusy: bool
    var messages: map<int, Update>

    ghost predicate Valid()
      reads this
    {
      KeysMatch(messages)
    }

    ghost function State(): QueueState
      reads this
    {
      QueueState(messages, isBusy)
    }

    constructor ()
      ensures Valid() && messages == map[] && !isBusy
    {
      isBusy := false;
      messages := map[];
    }

    /** `SortedList.Add`: a new `UpdateId` adds exactly its entry; one already
        buffered throws and leaves the buffer as it was. */
    method Push(update: Update) returns (outcome: Outcome)
      requires Valid()
      modifies this
      ensures Valid() && isBusy == old(isBusy)
      ensures outcome.Pass? <==> update.updateId !in old(messages)
      ensures outcome.Pass? ==> messages == old(messages)[update.updateId := update]
      ensures outcome.Fail? ==> outcome.error == DuplicateKey && messages == old(messages)
    {
      if update.updateId in messages {
        outcome := Fail(DuplicateKey);
      } else {
        messages := messages[update.updateId := update];
        outcome := Pass;
      }
    }

    /** Removes and returns the update with the least `UpdateId`, or returns
        null when nothing is buffered. */
    method Pull() returns (update: Option<Update>)
      requires Valid()
      modifies this
      ensures Valid() && isBusy == old(isBusy)
      ensures old(messages) == map[] ==> update == None && messages == old(messages)
      ensures old(messages) != map[] ==>
                && update.Some?
                && IsLeast(update.value.updateId, old(messages))
                && update.value == old(messages)[update.value.updateId]
                && messages == old(messages) - {update.value.updateId}
    {
      if messages != map[] {
        LeastKeyExists(messages);
        var key :| key in messages && forall j :: j in messages ==> key <= j;
        assert key == LeastKey(messages);
        update := Some(messages[key]);
        messages := messages - {key};
      } else {
        update := None;
      }
    }

    /** One delivery attempt: skipped while busy; otherwise the least update
        is pulled and handed to the handler with the flag set, and the flag
        is cleared only when the handler returns. A handler exception
        escapes with the flag still set. */
    method HandleMessage(handler: Handler) returns (outcome: Outcome)
      requires Valid()
      modifies this, handler
      ensures Valid()
      ensures var step := HandleStep(old(State()), handler.react);
              && State() == step.next
              && outcome == step.outcome
              && handler.invocations == old(handler.invocations) + Delivered(step)
    {
      if isBusy {
        return Pass;
      }
      var update := Pull();
      if update.Some? {
        isBusy := true;
        outcome := handler.OnUpdate(update.value, this);
        if outcome.Fail? {
          return;
        }
        isBusy := false;
      } else {
        outcome := Pass;
      }
    }
  }

  function IdOf(update: Option<Update>): Option<int> {
    if update.Some? then Some(update.value.updateId) else None
  }

  /** Pushing ids 5, 2 and 8 into a new queue and pulling four times yields
      2, 5 and 8 and then nothing. */
  method PullOrderScenario() returns (pulled: seq<Option<int>>)
    ensures pulled == [Some(2), Some(5), Some(8), None]
  {
    var u5, u2, u8 := Update(5, None, None, None), Update(2, None, None, None), Update(8, None, None, None);
    var queue := new MessageQueue();
    var _ := queue.Push(u5);
    var _ := queue.Push(u2);
    var _ := queue.Push(u8);
    assert queue.messages == map[5 := u5, 2 := u2, 8 := u8];
    assert 2 in queue.messages;
    var first := queue.Pull();
    assert first.value.updateId <= 2;
    assert first == Some(u2);
    assert queue.messages == map[5 := u5, 8 := u8];
    assert 5 in queue.messages;
    var second := queue.Pull();
    assert second.value.updateId <= 5;
    assert second == Some(u5);
    assert queue.messages == map[8 := u8];
    var third := queue.Pull();
    assert queue.messages == map[];
    var fourth := queue.Pull();
    pulled := [IdOf(first), IdOf(second), IdOf(third), IdOf(fourth)];
  }
}
