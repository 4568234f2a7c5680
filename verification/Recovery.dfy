/** What can still happen from any state of the execution protocol, whatever has gone wrong before. */
module Recovery {
  import opened Wrappers
  import opened LifecycleEvents
  import opened Outbox
  import opened ExecutionProtocol
  import opened ProtocolPaths
  import opened ProtocolInvariant
  import opened ProtocolSteps
  import opened ProtocolTheorems

  // ---- Fresh ids ----

  lemma UnusedNumber(used: set<nat>) returns (n: nat)
    ensures n !in used
  {
    n := 0;
    var left := used;
    while n in left
      invariant forall m :: m in used && m >= n ==> m in left
      decreases left
    {
      left := left - {n};
      n := n + 1;
    }
  }

  lemma {:induction false} LongerThanAll(used: set<string>) returns (id: string)
    ensures forall other :: other in used ==> |other| < |id|
    decreases |used|
  {
    if used == {} {
      id := "";
    } else {
      var some :| some in used;
      var longer := LongerThanAll(used - {some});
      id := longer + some + "x";
    }
  }

  lemma UnusedEventId(s: State) returns (id: EventId)
    ensures FreshEventId(s, id)
  {
    id := LongerThanAll(set k | k in s.outbox :: s.outbox[k].message.eventId);
  }

  // ---- A worker that meets no further trouble ----

  ghost predicate At(s: State, e: ExecutionId, p: ProcessId, status: ExecutionStatus, pc: Pc) {
    && StatusOf(s, e) == Some(status)
    && p in s.processes && s.processes[p].execution == e && s.processes[p].pc == pc
  }

  lemma MovesOn(orders: Orders, s: State, e: ExecutionId, p: ProcessId, status: ExecutionStatus, pc: Pc, next: Pc)
    returns (t: State)
    requires At(s, e, p, status, pc) && Moves(orders(e), Some(status), AttemptOf(s, p), pc, next)
    ensures Continues(orders, s, t) && At(t, e, p, status, next)
    ensures t.log == s.log && t.commands == s.commands && t.processes[p].command == s.processes[p].command
  {
    t := Goto(s, p, next);
    Stay(orders, s);
    Continue(orders, s, s, t, Move(p, next));
  }

  /** The status a transaction at pc leaves behind. */
  function StatusThen(status: ExecutionStatus, pc: Pc): ExecutionStatus {
    match pc
    case BeginTx => StatusRunning
    case CompleteTx => StatusSucceeded
    case FailTx => StatusFailed
    case _ => status
  }

  lemma WritesRow(orders: Orders, s: State, e: ExecutionId, p: ProcessId, status: ExecutionStatus, pc: Pc,
                  key: EventKey)
    returns (t: State, row: OutboxRow)
    requires RowsFit(orders, s) && At(s, e, p, status, pc)
    requires PersistedKey(orders(e), e, pc) == Some(key) && MayPersist(Some(status), pc)
    ensures Continues(orders, s, t) && At(t, e, p, StatusThen(status, pc), DispatchAfter(pc, row))
            && row.message.key == key
    ensures t.log == s.log && t.commands == s.commands && t.processes[p].command == s.processes[p].command
  {
    var id := UnusedEventId(s);
    var rows := Upserted(s.outbox, Message(id, key, ""));
    row := rows[key];
    assert RowFits(orders, s, key);
    t := Goto(s, p, DispatchAfter(pc, row)).(outbox := rows, status := StatusAfter(s.status, e, pc));
    Stay(orders, s);
    Continue(orders, s, s, t, Persist(p, id, ""));
  }

  lemma Publishes(orders: Orders, s: State, e: ExecutionId, p: ProcessId, status: ExecutionStatus, row: OutboxRow,
                  after: Pc, onThrow: Pc)
    returns (t: State)
    requires At(s, e, p, status, Send(row, after, onThrow)) && row.status != PUBLISHED
    ensures Continues(orders, s, t) && At(t, e, p, status, Mark(row, true, after, onThrow))
    ensures t.log == s.log + [row.message]
  {
    t := HandOver(Goto(s, p, Mark(row, true, after, onThrow)), row.message, true);
    Stay(orders, s);
    Continue(orders, s, s, t, Publish(p, Delivered, true, true));
  }

  lemma Records(orders: Orders, s: State, e: ExecutionId, p: ProcessId, status: ExecutionStatus, row: OutboxRow,
                after: Pc, onThrow: Pc)
    returns (t: State)
    requires At(s, e, p, status, Mark(row, true, after, onThrow)) && row.message.key in s.outbox
    ensures Continues(orders, s, t) && At(t, e, p, status, after) && t.log == s.log
  {
    t := Goto(s, p, after).(outbox := MarkedPublished(s.outbox, row.message.key));
    Stay(orders, s);
    Continue(orders, s, s, t, RecordPublish(p));
  }

  /** A dispatch that goes well ends where it returns to, with the event published. */
  lemma DispatchesWell(orders: Orders, s: State, e: ExecutionId, p: ProcessId, status: ExecutionStatus,
                       row: OutboxRow, after: Pc, onThrow: Pc)
    returns (t: State)
    requires Reachable(orders, s) && At(s, e, p, status, Send(row, after, onThrow))
    ensures Continues(orders, s, t) && At(t, e, p, status, after) && row.message.key in PublishedKeys(t.log)
  {
    ReachableHasInv(orders, s);
    if row.status == PUBLISHED {
      CurrentlyFits(orders, s, p);
      t := MovesOn(orders, s, e, p, status, Send(row, after, onThrow), after);
    } else {
      SentIsStored(orders, s, p);
      var u := Publishes(orders, s, e, p, status, row, after, onThrow);
      assert u.log[|s.log|] == row.message;
      StillReachable(orders, s, u);
      ReachableHasInv(orders, u);
      SentIsStored(orders, u, p);
      t := Records(orders, u, e, p, status, row, after, onThrow);
      ContinuesTransitive(orders, s, u, t);
    }
  }

  /** Writing an event's row and having it published. */
  lemma Announces(orders: Orders, s: State, e: ExecutionId, p: ProcessId, status: ExecutionStatus, pc: Pc,
                  key: EventKey) returns (t: State)
    requires Reachable(orders, s) && At(s, e, p, status, pc)
    requires PersistedKey(orders(e), e, pc) == Some(key) && MayPersist(Some(status), pc)
    ensures Continues(orders, s, t) && At(t, e, p, StatusThen(status, pc), AfterDispatch(pc))
            && key in PublishedKeys(t.log)
  {
    ReachableHasInv(orders, s);
    var u, row := WritesRow(orders, s, e, p, status, pc, key);
    StillReachable(orders, s, u);
    var send := DispatchAfter(pc, row);
    t := DispatchesWell(orders, u, e, p, StatusThen(status, pc), row, send.after, send.onThrow);
    ContinuesTransitive(orders, s, u, t);
  }

  /** Where control goes once the row written at pc has been dispatched. */
  function AfterDispatch(pc: Pc): Pc {
    match pc
    case PersistNodeStarted(k) => ExecuteNode(k)
    case PersistNodeCompleted(k) => RunNodes(k + 1)
    case PersistNodeFailed(k, retryable) => Catch(retryable)
    case CompleteTx => Ack
    case FailTx => DeadLetter
    case _ => RunNodes(0)
  }

  lemma StartsNode(orders: Orders, s: State, e: ExecutionId, p: ProcessId, k: nat) returns (t: State)
    requires Reachable(orders, s) && At(s, e, p, StatusRunning, RunNodes(k)) && k < |orders(e)|
    ensures Continues(orders, s, t) && At(t, e, p, StatusRunning, ExecuteNode(k))
  {
    var u := MovesOn(orders, s, e, p, StatusRunning, RunNodes(k), PersistNodeStarted(k));
    StillReachable(orders, s, u);
    t := Announces(orders, u, e, p, StatusRunning, PersistNodeStarted(k), NodeStarted(e, orders(e)[k]));
    ContinuesTransitive(orders, s, u, t);
  }

  lemma CompletesNode(orders: Orders, s: State, e: ExecutionId, p: ProcessId, k: nat) returns (t: State)
    requires Reachable(orders, s) && At(s, e, p, StatusRunning, ExecuteNode(k)) && k < |orders(e)|
    ensures Continues(orders, s, t) && At(t, e, p, StatusRunning, RunNodes(k + 1))
  {
    var u := MovesOn(orders, s, e, p, StatusRunning, ExecuteNode(k), PersistNodeCompleted(k));
    StillReachable(orders, s, u);
    t := Announces(orders, u, e, p, StatusRunning, PersistNodeCompleted(k), NodeCompleted(e, orders(e)[k]));
    ContinuesTransitive(orders, s, u, t);
  }

  lemma {:induction false} RunsToTheEnd(orders: Orders, s: State, e: ExecutionId, p: ProcessId, k: nat)
    returns (t: State)
    requires Reachable(orders, s) && At(s, e, p, StatusRunning, RunNodes(k)) && k <= |orders(e)|
    ensures Continues(orders, s, t) && At(t, e, p, StatusSucceeded, Ack) && WorkflowCompleted(e) in PublishedKeys(t.log)
    decreases |orders(e)| - k
  {
    if k < |orders(e)| {
      var started := StartsNode(orders, s, e, p, k);
      StillReachable(orders, s, started);
      var completed := CompletesNode(orders, started, e, p, k);
      StillReachable(orders, started, completed);
      t := RunsToTheEnd(orders, completed, e, p, k + 1);
      ContinuesTransitive(orders, s, started, completed);
      ContinuesTransitive(orders, s, completed, t);
    } else {
      var u := MovesOn(orders, s, e, p, StatusRunning, RunNodes(k), CompleteTx);
      StillReachable(orders, s, u);
      t := Announces(orders, u, e, p, StatusRunning, CompleteTx, WorkflowCompleted(e));
      ContinuesTransitive(orders, s, u, t);
    }
  }

  /** A worker that loads an unfinished execution can bring it to its nodes. */
  lemma ReachesNodes(orders: Orders, s: State, e: ExecutionId, p: ProcessId, status: ExecutionStatus) returns (t: State)
    requires Reachable(orders, s) && At(s, e, p, status, Load) && !IsTerminal(status)
    ensures Continues(orders, s, t) && At(t, e, p, StatusRunning, RunNodes(0))
  {
    var pc := if status.StatusPending? then BeginTx else PersistStarted;
    var u := MovesOn(orders, s, e, p, status, Load, pc);
    StillReachable(orders, s, u);
    t := Announces(orders, u, e, p, status, pc, WorkflowStarted(e));
    ContinuesTransitive(orders, s, u, t);
  }

  // ---- Getting hold of a command ----

  ghost predicate IsQueuedFor(s: State, e: ExecutionId, c: CommandId) {
    c in s.commands && s.commands[c].execution == e && s.commands[c].place == Queued
  }

  /** A live command can get back into its queue: its delay runs out, or its worker crashes. */
  lemma GetsQueued(orders: Orders, s: State, e: ExecutionId, c: CommandId) returns (t: State)
    requires CommandsFit(s) && LiveFor(s, e, c)
    ensures Continues(orders, s, t) && IsQueuedFor(t, e, c) && t.status == s.status && t.log == s.log
  {
    Stay(orders, s);
    assert CommandFits(s, c);
    match s.commands[c].place
    case Queued => t := s;
    case Delayed =>
      t := s.(commands := s.commands[c := s.commands[c].(place := Queued)]);
      Continue(orders, s, s, t, RetryExpires(c));
    case Unacked(p) =>
      t := Released(s, p);
      Continue(orders, s, s, t, Crash(p));
  }

  lemma GetsDelivered(orders: Orders, s: State, e: ExecutionId, c: CommandId) returns (t: State, p: ProcessId)
    requires IsQueuedFor(s, e, c) && e in s.status
    ensures Continues(orders, s, t) && At(t, e, p, s.status[e], Load) && t.processes[p].command == Some(c)
    ensures t.log == s.log && t.outbox == s.outbox && HoldsCommand(t, p) && AttemptOf(t, p) == s.commands[c].attempt
  {
    p := UnusedNumber(s.processes.Keys);
    t := s.(commands := s.commands[c := s.commands[c].(place := Unacked(p))],
            processes := s.processes[p := Process(Some(c), e, Load)]);
    Stay(orders, s);
    Continue(orders, s, s, t, Deliver(p, c));
  }

  /**
   * From every reachable state, an execution that was requested and has not
   * ended can still succeed, with its completion published.
   */
  lemma CanStillSucceed(orders: Orders, s: State, e: ExecutionId) returns (t: State)
    requires Reachable(orders, s) && e in s.requested && e in s.status && !IsTerminal(s.status[e])
    ensures Continues(orders, s, t) && StatusOf(t, e) == Some(StatusSucceeded)
            && WorkflowCompleted(e) in PublishedKeys(t.log)
  {
    ReachableHasInv(orders, s);
    assert NotOrphaned(s, e);
    var c :| LiveFor(s, e, c);
    var s1 := GetsQueued(orders, s, e, c);
    var s2, p := GetsDelivered(orders, s1, e, c);
    ContinuesTransitive(orders, s, s1, s2);
    StillReachable(orders, s, s2);
    var s3 := ReachesNodes(orders, s2, e, p, s.status[e]);
    ContinuesTransitive(orders, s, s2, s3);
    StillReachable(orders, s, s3);
    t := RunsToTheEnd(orders, s3, e, p, 0);
    ContinuesTransitive(orders, s, s3, t);
  }
}
