/** A concrete run of the execution protocol: two workers on one execution. */
module ProtocolRuns {
  import opened Wrappers
  import opened LifecycleEvents
  import opened Outbox
  import opened RetryPolicy
  import opened ExecutionProtocol
  import opened ProtocolPaths
  import opened StartOrder

  const STARTED := Message("a", WorkflowStarted("e"), "")

  /** One execution, requested twice, with both requests in the hands of workers at the given places. */
  function TwoWorkers(status: ExecutionStatus, outbox: OutboxRows, log: seq<Message>, first: Pc, second: Pc): State {
    State(map["e" := status], {"e"}, outbox, log, multiset(log), {}, {}, map[],
          map[0 := Command("e", 0, 0, 0, 0, Unacked(0)), 1 := Command("e", 0, 0, 0, 0, Unacked(1))], [],
          map[0 := Process(Some(0), "e", first), 1 := Process(Some(1), "e", second)])
  }

  /** The state with both requests queued. */
  const REQUESTED_TWICE := State(map["e" := StatusPending], {"e"}, map[], [], multiset{}, {}, {}, map[],
                                 map[0 := Command("e", 0, 0, 0, 0, Queued), 1 := Command("e", 0, 0, 0, 0, Queued)],
                                 [], map[])

  lemma RequestedTwice(orders: Orders)
    ensures Reachable(orders, REQUESTED_TWICE)
  {
    var s0 := State(map[], {}, map[], [], multiset{}, {}, {}, map[], map[], [], map[]);
    Start(orders, s0);
    var s1 := s0.(status := map["e" := StatusPending]);
    Advance(orders, s0, s1, CreateExecution("e"));
    var s2 := s1.(requested := {"e"}, commands := map[0 := Command("e", 0, 0, 0, 0, Queued)]);
    Advance(orders, s1, s2, RequestExecution("e", 0, Absent));
    assert s2.requested + {"e"} == {"e"};
    Advance(orders, s2, REQUESTED_TWICE, RequestExecution("e", 1, Absent));
  }

  lemma BothLoad(orders: Orders)
    ensures Reachable(orders, TwoWorkers(StatusPending, map[], [], Load, Load))
  {
    RequestedTwice(orders);
    var s0 := REQUESTED_TWICE;
    var s1 := s0.(commands := s0.commands[0 := Command("e", 0, 0, 0, 0, Unacked(0))],
                  processes := map[0 := Process(Some(0), "e", Load)]);
    Advance(orders, s0, s1, Deliver(0, 0));
    Advance(orders, s1, TwoWorkers(StatusPending, map[], [], Load, Load), Deliver(1, 1));
  }

  lemma Moved(orders: Orders, s: State, p: ProcessId, next: Pc)
    requires Reachable(orders, s) && p in s.processes
    requires Moves(orders(s.processes[p].execution), StatusOf(s, s.processes[p].execution), AttemptOf(s, p),
                   s.processes[p].pc, next)
    ensures Reachable(orders, Goto(s, p, next))
  {
    Advance(orders, s, Goto(s, p, next), Move(p, next));
  }

  lemma FirstReplaced(a: Process, b: Process, c: Process)
    ensures map[0 := a, 1 := b][0 := c] == map[0 := c, 1 := b]
  {
  }

  lemma SecondReplaced(a: Process, b: Process, c: Process)
    ensures map[0 := a, 1 := b][1 := c] == map[0 := a, 1 := c]
  {
  }

  lemma FirstMoves(orders: Orders, status: ExecutionStatus, outbox: OutboxRows, first: Pc, second: Pc, next: Pc)
    requires Reachable(orders, TwoWorkers(status, outbox, [], first, second))
             && Moves(orders("e"), Some(status), 0, first, next)
    ensures Reachable(orders, TwoWorkers(status, outbox, [], next, second))
  {
    var s := TwoWorkers(status, outbox, [], first, second);
    assert StatusOf(s, "e") == Some(status) && AttemptOf(s, 0) == 0;
    Moved(orders, s, 0, next);
    FirstReplaced(s.processes[0], s.processes[1], s.processes[0].(pc := next));
  }

  lemma SecondMoves(orders: Orders, status: ExecutionStatus, outbox: OutboxRows, first: Pc, second: Pc, next: Pc)
    requires Reachable(orders, TwoWorkers(status, outbox, [], first, second))
             && Moves(orders("e"), Some(status), 0, second, next)
    ensures Reachable(orders, TwoWorkers(status, outbox, [], first, next))
  {
    var s := TwoWorkers(status, outbox, [], first, second);
    assert StatusOf(s, "e") == Some(status) && AttemptOf(s, 1) == 0;
    Moved(orders, s, 1, next);
    SecondReplaced(s.processes[0], s.processes[1], s.processes[1].(pc := next));
  }

  /** The first worker begins the execution; the second one was about to. */
  lemma FirstBegins(orders: Orders)
    ensures var row := OutboxRow(STARTED, PENDING, 0);
            Reachable(orders, TwoWorkers(StatusRunning, map[STARTED.key := row], [],
                                         Send(row, RunNodes(0), Catch(true)), BeginTx))
  {
    BothBegin(orders);
    var row := OutboxRow(STARTED, PENDING, 0);
    var s := TwoWorkers(StatusPending, map[], [], BeginTx, BeginTx);
    var t := TwoWorkers(StatusRunning, map[STARTED.key := row], [], Send(row, RunNodes(0), Catch(true)), BeginTx);
    assert t.processes == Goto(s, 0, Send(row, RunNodes(0), Catch(true))).processes;
    Advance(orders, s, t, Persist(0, "a", ""));
  }

  lemma BothBegin(orders: Orders)
    ensures Reachable(orders, TwoWorkers(StatusPending, map[], [], BeginTx, BeginTx))
  {
    BothLoad(orders);
    FirstMoves(orders, StatusPending, map[], Load, Load, BeginTx);
    SecondMoves(orders, StatusPending, map[], BeginTx, Load, BeginTx);
  }

  const STARTED_ROW := OutboxRow(STARTED, PENDING, 0)

  /** The second worker has read the execution again, while the first has not published its start. */
  const TAKING_OVER :=
      TwoWorkers(StatusRunning, map[STARTED.key := STARTED_ROW], [], Send(STARTED_ROW, RunNodes(0), Catch(true)),
                 Reload)

  lemma SecondReloads(orders: Orders)
    ensures Reachable(orders, TAKING_OVER)
  {
    FirstBegins(orders);
    SecondMoves(orders, StatusRunning, map[STARTED.key := STARTED_ROW], Send(STARTED_ROW, RunNodes(0), Catch(true)),
                BeginTx, Reload);
  }

  /** There are runs in which a worker takes over a running execution whose start is not out. */
  lemma EarlyTakeoverHappens(orders: Orders)
    ensures var step := Move(1, RunNodes(0));
            Reachable(orders, TAKING_OVER) && NextStep(orders, TAKING_OVER, Goto(TAKING_OVER, 1, RunNodes(0)), step)
            && TakesOverEarly(TAKING_OVER, step)
  {
    SecondReloads(orders);
  }

  /** So a node's start can be published when the execution's start has not been. */
  lemma StartCanLag(orders: Orders) returns (t: State)
    requires |orders("e")| > 0
    ensures Reachable(orders, t) && NodeEventOut(t, "e") && !StartOut(t, "e")
  {
    EarlyTakeoverHappens(orders);
    var s := Goto(TAKING_OVER, 1, RunNodes(0));
    Advance(orders, TAKING_OVER, s, Move(1, RunNodes(0)));
    t := EarlyTakeoverLags(orders, TAKING_OVER, s, 1);
    StillReachable(orders, s, t);
  }
}
