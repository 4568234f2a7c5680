/** When a published outbox row leaves PUBLISHED again, and that it does. */
module StaleCopies {
  import opened Wrappers
  import opened LifecycleEvents
  import opened Outbox
  import opened ExecutionProtocol
  import opened ProtocolPaths
  import opened ProtocolInvariant
  import opened ProtocolSteps
  import opened ProtocolTheorems
  import opened ProtocolRuns
  import opened Recovery

  /** A process writes back that its publish of a copy of the row failed. */
  predicate RecordsFailure(s: State, step: Step, key: EventKey) {
    && step.RecordPublish? && step.p in s.processes
    && s.processes[step.p].pc.Mark? && !s.processes[step.p].pc.accepted
    && s.processes[step.p].pc.snapshot.message.key == key
  }

  lemma RowStays(orders: Orders, s: State, t: State, step: Step, key: EventKey)
    requires NextStep(orders, s, t, step) && !step.RecordPublish? && key in s.outbox
    ensures key in t.outbox && t.outbox[key] == s.outbox[key]
  {
  }

  /**
   * A published row stays published in every step but one: a dispatcher that
   * copied it earlier records a failure.  It is then pending again while the
   * copy has attempts left, and failed otherwise.
   */
  lemma PublishedIsLeftIff(orders: Orders, s: State, t: State, step: Step, key: EventKey)
    requires Reachable(orders, s) && NextStep(orders, s, t, step)
    requires key in s.outbox && s.outbox[key].status == PUBLISHED
    ensures key in t.outbox && (t.outbox[key].status == PUBLISHED <==> !RecordsFailure(s, step, key))
    ensures t.outbox[key].status == PENDING <==>
              RecordsFailure(s, step, key) && s.processes[step.p].pc.snapshot.attempts + 1 < MAX_PUBLISH_ATTEMPTS
  {
    if step.RecordPublish? {
      ReachableHasInv(orders, s);
      RecordFits(orders, s, step.p);
      SentIsStored(orders, s, step.p);
    } else {
      RowStays(orders, s, t, step, key);
    }
  }

  // ---- Two dispatchers with the same copy ----

  function Dispatcher(key: EventKey, pc: Pc): Process {
    Process(None, key.execution, pc)
  }

  /** s with two dispatchers at the given places. */
  function TwoDispatchers(s: State, key: EventKey, p: ProcessId, q: ProcessId, first: Pc, second: Pc): State {
    s.(processes := s.processes[p := Dispatcher(key, first)][q := Dispatcher(key, second)])
  }

  lemma BothCopy(orders: Orders, s: State, key: EventKey, p: ProcessId, q: ProcessId)
    requires p != q && p !in s.processes && q !in s.processes && IsPending(s.outbox, key)
    ensures var send := Send(s.outbox[key], Halt, Halt); Continues(orders, s, TwoDispatchers(s, key, p, q, send, send))
  {
    var send := Send(s.outbox[key], Halt, Halt);
    var s1 := s.(processes := s.processes[p := Dispatcher(key, send)]);
    Stay(orders, s);
    Continue(orders, s, s, s1, StartDispatcher(p, key));
    Continue(orders, s, s1, TwoDispatchers(s, key, p, q, send, send), StartDispatcher(q, key));
  }

  /** The first one publishes the row and records it. */
  lemma FirstPublishes(orders: Orders, s: State, key: EventKey, p: ProcessId, q: ProcessId, second: Pc)
    returns (t: State)
    requires p != q && key in s.outbox && s.outbox[key].status == PENDING && s.outbox[key].message.key == key
    ensures Continues(orders, TwoDispatchers(s, key, p, q, Send(s.outbox[key], Halt, Halt), second), t)
    ensures q in t.processes && t.processes[q] == Dispatcher(key, second)
    ensures t.outbox == MarkedPublished(s.outbox, key)
  {
    var row := s.outbox[key];
    var s0 := TwoDispatchers(s, key, p, q, Send(row, Halt, Halt), second);
    var s1 := HandOver(Goto(s0, p, Mark(row, true, Halt, Halt)), row.message, true);
    Stay(orders, s0);
    Continue(orders, s0, s0, s1, Publish(p, Delivered, true, true));
    t := Goto(s1, p, Halt).(outbox := MarkedPublished(s.outbox, key));
    Continue(orders, s0, s1, t, RecordPublish(p));
  }

  /** The second one then fails to publish its copy. */
  lemma SecondFails(orders: Orders, s: State, q: ProcessId, row: OutboxRow) returns (t: State)
    requires q in s.processes && s.processes[q].pc == Send(row, Halt, Halt) && row.status == PENDING
    requires row.message.key in s.outbox
    ensures Continues(orders, s, t) && t.outbox == MarkedFailed(s.outbox, row)
  {
    var s1 := Goto(s, q, Mark(row, false, Halt, Halt));
    Stay(orders, s);
    Continue(orders, s, s, s1, Publish(q, Threw, false, false));
    var rows := MarkedFailed(s.outbox, row);
    var key := row.message.key;
    t := Goto(s1, q, Halt).(outbox := rows,
                            gaveUp := if rows[key].status == FAILED then s.gaveUp + {key} else s.gaveUp);
    Continue(orders, s, s1, t, RecordPublish(q));
  }

  /** Any pending row with two attempts left can be published and then become pending again. */
  lemma PublishedCanBecomePending(orders: Orders, s: State, key: EventKey) returns (t: State, u: State)
    requires Reachable(orders, s) && IsPending(s.outbox, key) && s.outbox[key].attempts + 1 < MAX_PUBLISH_ATTEMPTS
    ensures Continues(orders, s, t) && key in t.outbox && t.outbox[key].status == PUBLISHED
    ensures Continues(orders, t, u) && key in u.outbox && u.outbox[key].status == PENDING
  {
    ReachableHasInv(orders, s);
    assert RowFits(orders, s, key);
    var row := s.outbox[key];
    var p := UnusedNumber(s.processes.Keys);
    var q := UnusedNumber(s.processes.Keys + {p});
    BothCopy(orders, s, key, p, q);
    t := FirstPublishes(orders, s, key, p, q, Send(row, Halt, Halt));
    ContinuesTransitive(orders, s, TwoDispatchers(s, key, p, q, Send(row, Halt, Halt), Send(row, Halt, Halt)), t);
    u := SecondFails(orders, t, q, row);
  }

  /** There are runs in which a published row becomes pending again. */
  lemma PublishedBecomesPending(orders: Orders) returns (t: State, u: State)
    ensures Reachable(orders, t) && WorkflowStarted("e") in t.outbox
            && t.outbox[WorkflowStarted("e")].status == PUBLISHED
    ensures Continues(orders, t, u) && WorkflowStarted("e") in u.outbox
            && u.outbox[WorkflowStarted("e")].status == PENDING
  {
    SecondReloads(orders);
    t, u := PublishedCanBecomePending(orders, TAKING_OVER, WorkflowStarted("e"));
    StillReachable(orders, TAKING_OVER, t);
  }
}
