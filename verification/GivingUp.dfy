/**
 * How an execution can end without its outcome being published: the outbox
 * gives a row up after five failed attempts, and commands are acknowledged all the same.
 */
module GivingUp {
  import opened Wrappers
  import opened LifecycleEvents
  import opened Outbox
  import opened RetryPolicy
  import opened ExecutionProtocol
  import opened ProtocolPaths
  import opened ProtocolInvariant
  import opened ProtocolSteps
  import opened ProtocolTheorems
  import opened Recovery

  // ---- Five failed attempts ----

  /** The state after a dispatcher has failed to publish a row from an up-to-date copy. */
  function Failed(s: State, key: EventKey): State
    requires key in s.outbox
  {
    var row := FailedRow(s.outbox[key], s.outbox[key]);
    s.(outbox := s.outbox[key := row], gaveUp := if row.status == FAILED then s.gaveUp + {key} else s.gaveUp)
  }

  /** A dispatcher for a row, as it goes along. */
  function Dispatching(s: State, key: EventKey, p: ProcessId, pc: Pc): State {
    s.(processes := s.processes[p := Process(None, key.execution, pc)])
  }

  lemma DispatcherFails(orders: Orders, s: State, key: EventKey, p: ProcessId)
    requires p !in s.processes && IsPending(s.outbox, key) && s.outbox[key].message.key == key
    ensures Continues(orders, s, Failed(s, key))
  {
    var row := s.outbox[key];
    var started, sent :=
        Dispatching(s, key, p, Send(row, Halt, Halt)), Dispatching(s, key, p, Mark(row, false, Halt, Halt));
    Stay(orders, s);
    Continue(orders, s, s, started, StartDispatcher(p, key));
    assert sent.processes == Goto(started, p, Mark(row, false, Halt, Halt)).processes;
    Continue(orders, s, started, sent, Publish(p, Threw, false, false));
    FailureRecorded(orders, s, key, p);
    DispatcherHalts(orders, Failed(s, key), key, p);
    Continue(orders, s, sent, Dispatching(Failed(s, key), key, p, Halt), RecordPublish(p));
    Continue(orders, s, Dispatching(Failed(s, key), key, p, Halt), Failed(s, key), Finish(p));
  }

  lemma FailureRecorded(orders: Orders, s: State, key: EventKey, p: ProcessId)
    requires p !in s.processes && key in s.outbox && s.outbox[key].message.key == key
    ensures NextStep(orders, Dispatching(s, key, p, Mark(s.outbox[key], false, Halt, Halt)),
                     Dispatching(Failed(s, key), key, p, Halt), RecordPublish(p))
  {
    var sent := Dispatching(s, key, p, Mark(s.outbox[key], false, Halt, Halt));
    assert Dispatching(Failed(s, key), key, p, Halt).processes == Goto(sent, p, Halt).processes;
  }

  lemma DispatcherHalts(orders: Orders, s: State, key: EventKey, p: ProcessId)
    requires p !in s.processes
    ensures NextStep(orders, Dispatching(s, key, p, Halt), s, Finish(p))
  {
    assert Dispatching(s, key, p, Halt).processes - {p} == s.processes;
  }

  /** The state in which a row, if it was pending, has used up its attempts. */
  function GivenUp(s: State, key: EventKey): State {
    if key in s.outbox && s.outbox[key].status == PENDING then
      s.(outbox := s.outbox[key := s.outbox[key].(status := FAILED, attempts := MAX_PUBLISH_ATTEMPTS)],
         gaveUp := s.gaveUp + {key})
    else s
  }

  ghost predicate RowsAreSound(s: State) {
    forall k :: k in s.outbox ==> s.outbox[k].message.key == k && AttemptsFit(s.outbox[k])
  }

  /** Any pending row can be given up without its message ever being handed over, and with nothing else changed. */
  lemma {:induction false} RowGetsGivenUp(orders: Orders, s: State, key: EventKey)
    requires RowsAreSound(s)
    ensures Continues(orders, s, GivenUp(s, key)) && RowsAreSound(GivenUp(s, key))
    decreases if key in s.outbox then MAX_PUBLISH_ATTEMPTS - s.outbox[key].attempts else 0
  {
    if key in s.outbox && s.outbox[key].status == PENDING {
      var p := UnusedNumber(s.processes.Keys);
      var t := Failed(s, key);
      DispatcherFails(orders, s, key, p);
      FailedTowardsGivenUp(s, key);
      if t != GivenUp(s, key) {
        RowGetsGivenUp(orders, t, key);
        ContinuesTransitive(orders, s, t, GivenUp(s, key));
      }
    } else {
      Stay(orders, s);
    }
  }

  lemma FailedTowardsGivenUp(s: State, key: EventKey)
    requires key in s.outbox && s.outbox[key].status == PENDING && s.outbox[key].attempts < MAX_PUBLISH_ATTEMPTS
    ensures Failed(s, key) == GivenUp(s, key)
         || (Failed(s, key).outbox[key].status == PENDING && GivenUp(Failed(s, key), key) == GivenUp(s, key))
  {
    var row := s.outbox[key];
    if row.attempts + 1 < MAX_PUBLISH_ATTEMPTS {
      var done := row.(status := FAILED, attempts := MAX_PUBLISH_ATTEMPTS);
      assert s.outbox[key := FailedRow(row, row)][key := done] == s.outbox[key := done];
    }
  }

  function AllGivenUp(s: State, e: ExecutionId): State {
    GivenUp(GivenUp(GivenUp(s, WorkflowStarted(e)), WorkflowCompleted(e)), WorkflowFailed(e))
  }

  lemma OutcomeRowsGetGivenUp(orders: Orders, s: State, e: ExecutionId)
    requires RowsAreSound(s)
    ensures Continues(orders, s, AllGivenUp(s, e))
  {
    var s1 := GivenUp(s, WorkflowStarted(e));
    var s2 := GivenUp(s1, WorkflowCompleted(e));
    RowGetsGivenUp(orders, s, WorkflowStarted(e));
    RowGetsGivenUp(orders, s1, WorkflowCompleted(e));
    RowGetsGivenUp(orders, s2, WorkflowFailed(e));
    ContinuesTransitive(orders, s, s1, s2);
    ContinuesTransitive(orders, s, s2, AllGivenUp(s, e));
  }

  lemma NothingLeftPending(s: State, e: ExecutionId)
    ensures forall key :: IsLifecycleKey(e, key) && key in AllGivenUp(s, e).outbox ==>
            AllGivenUp(s, e).outbox[key].status != PENDING
  {
  }

  // ---- Acknowledged all the same ----

  lemma FlushesNothing(orders: Orders, s: State, e: ExecutionId, p: ProcessId, status: ExecutionStatus)
    returns (t: State)
    requires At(s, e, p, status, Load) && IsTerminal(status)
    requires forall key :: IsLifecycleKey(e, key) && key in s.outbox ==> s.outbox[key].status != PENDING
    ensures Continues(orders, s, t) && At(t, e, p, status, Ack) && t.log == s.log
    ensures t.processes[p].command == s.processes[p].command
  {
    var s1 := Goto(s, p, Flush(Ack, Catch(true)));
    Stay(orders, s);
    Continue(orders, s, s, s1, Move(p, Flush(Ack, Catch(true))));
    var s2 := Goto(s1, p, Flushing([], Ack, Catch(true)));
    Continue(orders, s, s1, s2, Fetch(p, []));
    t := Goto(s2, p, Ack);
    Continue(orders, s, s2, t, Move(p, Ack));
  }

  /**
   * The other half of AcknowledgedAfterPublication: once an execution has
   * ended, a queued command for it can come to be acknowledged with nothing
   * more published.  If its outcome was not published before, it was given up.
   */
  lemma UnpublishedCanBeAcknowledged(orders: Orders, s: State, e: ExecutionId, c: CommandId)
    returns (t: State, p: ProcessId)
    requires Reachable(orders, s) && e in s.status && IsTerminal(s.status[e]) && IsQueuedFor(s, e, c)
    ensures Continues(orders, s, t) && At(t, e, p, s.status[e], Ack) && t.processes[p].command == Some(c)
    ensures t.log == s.log
    ensures var outcome := if s.status[e].StatusSucceeded? then WorkflowCompleted(e) else WorkflowFailed(e);
            outcome !in PublishedKeys(s.log) ==> outcome in t.gaveUp
  {
    ReachableRowsAreSound(orders, s);
    var s1 := AllGivenUp(s, e);
    OutcomeRowsGetGivenUp(orders, s, e);
    NothingLeftPending(s, e);
    var s2: State;
    s2, p := GetsDelivered(orders, s1, e, c);
    t := FlushesNothing(orders, s2, e, p, s.status[e]);
    ContinuesTransitive(orders, s, s1, s2);
    ContinuesTransitive(orders, s, s2, t);
    StillReachable(orders, s, t);
    AcknowledgedAfterPublication(orders, t, p);
  }

  lemma ReachableRowsAreSound(orders: Orders, s: State)
    requires Reachable(orders, s)
    ensures RowsAreSound(s)
  {
    ReachableHasInv(orders, s);
    forall key | key in s.outbox ensures s.outbox[key].message.key == key && AttemptsFit(s.outbox[key]) {
      assert RowFits(orders, s, key);
    }
  }

  // ---- A state in which that happens ----

  lemma ThrowsAtLoad(orders: Orders, s: State, e: ExecutionId, p: ProcessId, status: ExecutionStatus) returns (t: State)
    requires At(s, e, p, status, Load)
    ensures Continues(orders, s, t) && At(t, e, p, status, Catch(true))
    ensures t.log == s.log && t.commands == s.commands && t.processes[p].command == s.processes[p].command
  {
    t := Goto(s, p, Catch(true));
    Stay(orders, s);
    Continue(orders, s, s, t, Throw(p, true));
  }

  lemma Crashes(orders: Orders, s: State, e: ExecutionId, p: ProcessId, status: ExecutionStatus, pc: Pc)
    returns (t: State)
    requires At(s, e, p, status, pc) && HoldsCommand(s, p) && s.commands[s.processes[p].command.value].execution == e
    ensures Continues(orders, s, t) && IsQueuedFor(t, e, s.processes[p].command.value)
    ensures t.log == s.log && StatusOf(t, e) == Some(status)
  {
    t := Released(s, p);
    Stay(orders, s);
    Continue(orders, s, s, t, Crash(p));
  }

  /** A command on its last attempt meets a database error. */
  lemma RunsOutOfAttempts(orders: Orders, s: State, e: ExecutionId, c: CommandId) returns (t: State, p: ProcessId)
    requires StatusOf(s, e) == Some(StatusPending) && IsQueuedFor(s, e, c)
             && s.commands[c].attempt >= MAX_RETRY_ATTEMPTS
    ensures Continues(orders, s, t) && At(t, e, p, StatusPending, FailTx) && t.log == s.log
            && t.processes[p].command == Some(c)
  {
    var s1: State;
    s1, p := GetsDelivered(orders, s, e, c);
    var s2 := ThrowsAtLoad(orders, s1, e, p, StatusPending);
    t := MovesOn(orders, s2, e, p, StatusPending, Catch(true), FailTx);
    ContinuesTransitive(orders, s, s1, s2);
    ContinuesTransitive(orders, s, s2, t);
  }

  /** The execution is failed, and the worker crashes before publishing that. */
  lemma FailsUnpublished(orders: Orders, s: State, e: ExecutionId, p: ProcessId, c: CommandId) returns (t: State)
    requires Reachable(orders, s) && At(s, e, p, StatusPending, FailTx) && s.processes[p].command == Some(c)
    ensures Continues(orders, s, t) && StatusOf(t, e) == Some(StatusFailed) && IsQueuedFor(t, e, c) && t.log == s.log
  {
    ReachableHasInv(orders, s);
    CurrentlyFits(orders, s, p);
    var u, row := WritesRow(orders, s, e, p, StatusPending, FailTx, WorkflowFailed(e));
    t := Crashes(orders, u, e, p, StatusFailed, DispatchAfter(FailTx, row));
    ContinuesTransitive(orders, s, u, t);
  }

  /** One stored execution with one command for its last attempt. */
  const LAST_ATTEMPT := State(map["e" := StatusPending], {"e"}, map[], [], multiset{}, {}, {}, map[],
                              map[0 := Command("e", 3, 3, 0, 0, Queued)], [], map[])

  lemma LastAttemptIsReachable(orders: Orders)
    ensures Reachable(orders, LAST_ATTEMPT)
  {
    var s0 := State(map[], {}, map[], [], multiset{}, {}, {}, map[], map[], [], map[]);
    Start(orders, s0);
    var s1 := s0.(status := map["e" := StatusPending]);
    Advance(orders, s0, s1, CreateExecution("e"));
    AttemptRoundTrips(3);
    Advance(orders, s1, LAST_ATTEMPT, RequestExecution("e", 0, NumberHeader(3.0)));
  }

  /**
   * There are runs in which the only command of a failed execution is about to be
   * acknowledged and nothing was ever published.
   */
  lemma AcknowledgedUnpublished(orders: Orders) returns (t: State, p: ProcessId)
    ensures Reachable(orders, t) && At(t, "e", p, StatusFailed, Ack) && t.log == []
  {
    LastAttemptIsReachable(orders);
    var s0, worker := RunsOutOfAttempts(orders, LAST_ATTEMPT, "e", 0);
    StillReachable(orders, LAST_ATTEMPT, s0);
    var s := FailsUnpublished(orders, s0, "e", worker, 0);
    StillReachable(orders, s0, s);
    t, p := UnpublishedCanBeAcknowledged(orders, s, "e", 0);
    StillReachable(orders, s, t);
  }
}
