/** The consumer of lifecycle events: an event table keyed by event id. */
module EventTimeline {
  import opened Wrappers
  import opened LifecycleEvents

  type Timeline = map<EventId, Message>

  /** An event that is already there is left as it is. */
  function Recorded(events: Timeline, m: Message): Timeline {
    if m.eventId in events then events else events[m.eventId := m]
  }

  function AllRecorded(events: Timeline, messages: seq<Message>): Timeline
    decreases messages
  {
    if messages == [] then events else AllRecorded(Recorded(events, messages[0]), messages[1..])
  }

  predicate IdsIdentify(messages: seq<Message>) {
    forall a, b :: a in messages && b in messages && a.eventId == b.eventId ==> a == b
  }

  /** Old entries stay, every delivered id has an entry, and a new entry is one of the delivered messages. */
  lemma {:induction false} RecordedOnce(events: Timeline, messages: seq<Message>)
    ensures var after := AllRecorded(events, messages);
            && (forall id :: id in events ==> id in after && after[id] == events[id])
            && (forall m :: m in messages ==> m.eventId in after)
            && (forall id :: id in after && id !in events ==> after[id] in messages && after[id].eventId == id)
    decreases messages
  {
    if messages != [] {
      RecordedOnce(Recorded(events, messages[0]), messages[1..]);
      assert messages == [messages[0]] + messages[1..];
    }
  }

  /** Two deliveries of the same messages, in any order and with any repetitions, leave the same table. */
  lemma IngestionIsOrderFree(events: Timeline, a: seq<Message>, b: seq<Message>)
    requires IdsIdentify(a) && forall m :: m in a <==> m in b
    ensures AllRecorded(events, a) == AllRecorded(events, b)
  {
    RecordedOnce(events, a);
    RecordedOnce(events, b);
    var left, right := AllRecorded(events, a), AllRecorded(events, b);
    forall id | id in left || id in right ensures id in left && id in right && left[id] == right[id] {
      if id !in events {
        if id in left {
          assert left[id] in b;
        }
        if id in right {
          assert right[id] in a;
        }
      }
    }
  }

  /** Redelivering everything changes nothing. */
  lemma IngestionIsIdempotent(events: Timeline, messages: seq<Message>)
    ensures AllRecorded(AllRecorded(events, messages), messages) == AllRecorded(events, messages)
  {
    RecordedOnce(events, messages);
    NothingNew(AllRecorded(events, messages), messages);
  }

  lemma {:induction false} NothingNew(events: Timeline, messages: seq<Message>)
    requires forall m :: m in messages ==> m.eventId in events
    ensures AllRecorded(events, messages) == events
    decreases messages
  {
    if messages != [] {
      assert messages[0] in messages;
      NothingNew(events, messages[1..]);
    }
  }

  datatype Reply = Acknowledge | Requeue | Discard

  class EventStore {
    var events: Timeline
    var executions: set<ExecutionId>

    constructor (executions: set<ExecutionId>)
      ensures events == map[] && this.executions == executions
    {
      events := map[];
      this.executions := executions;
    }

    /** A new event must belong to a stored execution; an event already there is left alone. */
    method PersistWorkflowExecutionEvent(message: Message) returns (ok: bool)
      modifies this`events
      ensures ok <==> message.eventId in old(events) || message.key.execution in executions
      ensures events == if ok then Recorded(old(events), message) else old(events)
    {
      if message.eventId !in events {
        if message.key.execution !in executions {
          return false;
        }
        events := events[message.eventId := message];
      }
      ok := true;
    }

    /**
     * A delivery is acknowledged exactly when its event is in the table afterwards; only a
     * database outage puts it back in the queue.
     */
    method HandleDelivery(parsed: Option<Message>, outage: bool) returns (reply: Reply)
      modifies this`events
      ensures reply == Requeue <==> parsed.Some? && outage
      ensures reply == Acknowledge ==>
              parsed.Some? && events == Recorded(old(events), parsed.value) && parsed.value.eventId in events
      ensures reply != Acknowledge ==> events == old(events)
      ensures reply == Discard <==> parsed.None? || (!outage && parsed.value.eventId !in events)
    {
      if parsed.None? {
        return Discard;
      }
      if outage {
        return Requeue;
      }
      var ok := PersistWorkflowExecutionEvent(parsed.value);
      reply := if ok then Acknowledge else Discard;
    }
  }
}
