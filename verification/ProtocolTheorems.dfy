/** What the execution protocol guarantees over all runs. */
module ProtocolTheorems {
  import opened Wrappers
  import opened Digraph
  import opened SeqFacts
  import opened WorkflowDefinitions
  import opened NodeOrder
  import opened LifecycleEvents
  import opened Outbox
  import opened RetryPolicy
  import opened ExecutionProtocol
  import opened ProtocolInvariant
  import opened ProtocolSteps

  // ---- From steps to runs ----

  lemma {:induction false} RunKeepsInv(orders: Orders, run: seq<State>, i: nat)
    requires IsRun(orders, run) && i < |run|
    ensures Inv(orders, run[i])
    decreases i
  {
    if i == 0 {
      InitHasInv(orders, run[0]);
    } else {
      RunKeepsInv(orders, run, i - 1);
      RunStepExtends(orders, run, i - 1);
    }
  }

  lemma RunStepExtends(orders: Orders, run: seq<State>, i: nat)
    requires IsRun(orders, run) && i + 1 < |run| && Inv(orders, run[i])
    ensures Maintained(orders, run[i], run[i + 1])
  {
    assert NextAt(orders, run, i);
    var step :| NextStep(orders, run[i], run[i + 1], step);
    StepKeepsInv(orders, run[i], run[i + 1], step);
  }

  lemma ExtendsTransitive(s: State, t: State, u: State)
    requires Extends(s, t) && Extends(t, u)
    ensures Extends(s, u)
  {
  }

  lemma RunGrows(orders: Orders, run: seq<State>, i: nat)
    requires IsRun(orders, run) && i + 1 < |run|
    ensures Extends(run[i], run[i + 1])
  {
    RunKeepsInv(orders, run, i);
    RunStepExtends(orders, run, i);
  }

  lemma {:induction false} RunExtends(orders: Orders, run: seq<State>, i: nat, j: nat)
    requires IsRun(orders, run) && i <= j < |run|
    ensures Extends(run[i], run[j])
    decreases j
  {
    if i < j {
      RunExtends(orders, run, i, j - 1);
      RunGrows(orders, run, j - 1);
      ExtendsTransitive(run[i], run[j - 1], run[j]);
    }
  }

  lemma ReachableHasInv(orders: Orders, s: State)
    requires Reachable(orders, s)
    ensures Inv(orders, s)
  {
    var start :| Init(start) && Continues(orders, start, s);
    var run :| IsPath(orders, run) && run[0] == start && run[|run| - 1] == s;
    RunKeepsInv(orders, run, |run| - 1);
  }

  // ---- No execution is orphaned ----

  /** Waiting in a queue, or held by a process that has not sent a copy of it on. */
  predicate StillWorkedOn(s: State, c: CommandId)
    requires c in s.commands
  {
    match s.commands[c].place
    case Queued => true
    case Delayed => true
    case Unacked(p) => p in s.processes && s.processes[p].command == Some(c) && !s.processes[p].pc.AckReplaced?
  }

  /**
   * Once requested, an execution that has not ended always has a command that
   * will still be worked on; in particular a request whose execution is missing is never dropped.
   */
  lemma NoExecutionIsOrphaned(orders: Orders, s: State, e: ExecutionId)
    requires Reachable(orders, s) && e in s.requested
    requires !(e in s.status && IsTerminal(s.status[e]))
    ensures exists c :: c in s.commands && s.commands[c].execution == e && StillWorkedOn(s, c)
  {
    ReachableHasInv(orders, s);
    assert NotOrphaned(s, e);
    var c :| LiveFor(s, e, c);
    assert CommandFits(s, c);
    assert StillWorkedOn(s, c);
  }

  /**
   * A delivery that is acknowledged without a retry copy belongs to an ended
   * execution whose outcome was handed to the channel, unless the outbox had
   * given that row up.
   */
  lemma AcknowledgedAfterPublication(orders: Orders, s: State, p: ProcessId)
    requires Reachable(orders, s) && p in s.processes && s.processes[p].pc.Ack?
    ensures var e := s.processes[p].execution;
            var outcome := if StatusOf(s, e) == Some(StatusSucceeded) then WorkflowCompleted(e) else WorkflowFailed(e);
            && e in s.status && IsTerminal(s.status[e])
            && (outcome in PublishedKeys(s.log) || outcome in s.gaveUp)
  {
    ReachableHasInv(orders, s);
    CurrentlyFits(orders, s, p);
    OutcomeIsSettled(orders, s, s.processes[p].execution);
  }

  lemma OutcomeIsSettled(orders: Orders, s: State, e: ExecutionId)
    requires RowsFit(orders, s) && LogFits(orders, s) && OutcomesFit(s) && Settled(e, KnownOf(s, e))
    ensures var outcome := if StatusOf(s, e) == Some(StatusSucceeded) then WorkflowCompleted(e) else WorkflowFailed(e);
            outcome in PublishedKeys(s.log) || outcome in s.gaveUp
  {
    assert OutcomeFits(s, e);
    SettledIsStored(orders, s, WorkflowCompleted(e));
    SettledIsStored(orders, s, WorkflowFailed(e));
  }

  lemma SettledIsStored(orders: Orders, s: State, key: EventKey)
    requires RowsFit(orders, s) && LogFits(orders, s)
    ensures key in PublishedKeys(s.log) + s.gaveUp ==> key in s.outbox
  {
    assert RowFits(orders, s, key);
    if key in PublishedKeys(s.log) {
      PublishedIsStored(orders, s, key);
    }
  }

  // ---- One outcome ----

  lemma TerminalStatusIsFinal(orders: Orders, run: seq<State>, i: nat, j: nat, e: ExecutionId)
    requires IsRun(orders, run) && i <= j < |run|
    requires e in run[i].status && IsTerminal(run[i].status[e])
    ensures e in run[j].status && run[j].status[e] == run[i].status[e]
  {
    RunExtends(orders, run, i, j);
  }

  lemma OutcomeRowsMatchStatus(orders: Orders, s: State, e: ExecutionId)
    requires Reachable(orders, s)
    ensures WorkflowCompleted(e) in s.outbox <==> StatusOf(s, e) == Some(StatusSucceeded)
    ensures WorkflowFailed(e) in s.outbox <==> StatusOf(s, e) == Some(StatusFailed)
    ensures StatusOf(s, e) == Some(StatusRunning) || StatusOf(s, e) == Some(StatusSucceeded) ==>
            WorkflowStarted(e) in s.outbox
    ensures StatusOf(s, e).None? || StatusOf(s, e) == Some(StatusPending) ==> WorkflowStarted(e) !in s.outbox
  {
    ReachableHasInv(orders, s);
    assert OutcomeFits(s, e);
  }

  /** A run never publishes both outcomes, and one it publishes is the final status. */
  lemma OneOutcomeIsPublished(orders: Orders, s: State, e: ExecutionId)
    requires Reachable(orders, s)
    ensures WorkflowCompleted(e) in PublishedKeys(s.log) ==> StatusOf(s, e) == Some(StatusSucceeded)
    ensures WorkflowFailed(e) in PublishedKeys(s.log) ==> StatusOf(s, e) == Some(StatusFailed)
  {
    ReachableHasInv(orders, s);
    OutcomeRowsMatchStatus(orders, s, e);
    forall key | key in PublishedKeys(s.log) ensures key in s.outbox {
      PublishedIsStored(orders, s, key);
    }
  }

  lemma PublishedIsStored(orders: Orders, s: State, key: EventKey)
    requires LogFits(orders, s) && key in PublishedKeys(s.log)
    ensures key in s.outbox && s.outbox[key].message in s.log
  {
    var m :| m in s.log && m.key == key;
    var i :| 0 <= i < |s.log| && s.log[i] == m;
    assert EntryFits(orders, s, i);
  }

  // ---- The order of publication ----

  lemma PublishedEarlier(orders: Orders, s: State, earlier: EventKey, j: nat)
    requires Inv(orders, s) && j < |s.log|
    requires Precedes(orders(s.log[j].key.execution), earlier, s.log[j].key)
    ensures exists i :: 0 <= i < j && s.log[i].key == earlier
  {
    assert EntryFits(orders, s, j);
    var m :| m in s.log[..j] && m.key == earlier;
    var i :| 0 <= i < j && s.log[..j][i] == m;
    assert s.log[i].key == earlier;
  }

  /** Where predecessors come first, an arc's source stands before every occurrence of its target. */
  lemma ArcGoesForward(arcs: Arcs, order: seq<NodeId>, e: ExecutionId, u: NodeId, v: NodeId)
    requires PredecessorsFirst(arcs, order) && Distinct(order) && (u, v) in arcs && v in order
    ensures CompletedBefore(order, e, NodeCompleted(e, u), v)
  {
    var k :| 0 <= k < |order| && order[k] == v;
    assert u in order[..k];
    var i :| 0 <= i < k && order[..k][i] == u;
    assert order[i] == u && FirstAfter(order, i, v);
  }

  /**
   * Whatever the interleaving of workers, retries, crashes and dispatchers:
   * before a node's start is published, the completions of all its
   * predecessors have been.
   */
  lemma ArcsPublishInOrder(orders: Orders, s: State, arcs: Arcs, u: NodeId, v: NodeId, e: ExecutionId, j: nat)
    requires Reachable(orders, s) && PredecessorsFirst(arcs, orders(e)) && Distinct(orders(e))
    requires (u, v) in arcs && v in orders(e)
    requires j < |s.log| && s.log[j].key == NodeStarted(e, v)
    ensures exists i :: 0 <= i < j && s.log[i].key == NodeCompleted(e, u)
  {
    ReachableHasInv(orders, s);
    ArcGoesForward(arcs, orders(e), e, u, v);
    PublishedEarlier(orders, s, NodeCompleted(e, u), j);
  }

  /** The same for an execution that follows a schedule of its definition. */
  lemma EdgesPublishInOrder(orders: Orders, s: State, d: WorkflowDefinition, nodes: seq<WorkflowNode>,
                            edge: WorkflowEdge, e: ExecutionId, j: nat)
    requires Reachable(orders, s) && EndpointsExist(d) && IsSchedule(d, nodes) && orders(e) == IdsOf(nodes)
             && edge in d.edges
    requires j < |s.log| && s.log[j].key == NodeStarted(e, edge.target)
    ensures exists i :: 0 <= i < j && s.log[i].key == NodeCompleted(e, edge.source)
  {
    var n :| n in d.nodes && n.id == edge.target;
    var k :| 0 <= k < |nodes| && nodes[k] == n;
    assert IdsOf(nodes)[k] == edge.target;
    assert (edge.source, edge.target) in ArcsOf(d.edges);
    ArcsPublishInOrder(orders, s, ArcsOf(d.edges), edge.source, edge.target, e, j);
  }

  /** A node's outcome is published only after its start. */
  lemma StartPublishedBeforeOutcome(orders: Orders, s: State, j: nat)
    requires Reachable(orders, s) && j < |s.log| && (s.log[j].key.NodeCompleted? || s.log[j].key.NodeFailed?)
    ensures exists i :: 0 <= i < j && s.log[i].key == NodeStarted(s.log[j].key.execution, s.log[j].key.node)
  {
    ReachableHasInv(orders, s);
    PublishedEarlier(orders, s, NodeStarted(s.log[j].key.execution, s.log[j].key.node), j);
  }

  /** Before an execution's completion is published, so is the completion of every node it runs. */
  lemma CompletionIsPublishedLast(orders: Orders, s: State, e: ExecutionId, v: NodeId, j: nat)
    requires Reachable(orders, s) && v in orders(e)
    requires j < |s.log| && s.log[j].key == WorkflowCompleted(e)
    ensures exists i :: 0 <= i < j && s.log[i].key == NodeCompleted(e, v)
  {
    ReachableHasInv(orders, s);
    PublishedEarlier(orders, s, NodeCompleted(e, v), j);
  }

  /** Before any node event is published, the execution's start is at least stored; its publication may lag behind. */
  lemma StartIsStoredBeforeNodeEvents(orders: Orders, s: State, j: nat)
    requires Reachable(orders, s) && j < |s.log| && IsNodeEvent(s.log[j].key)
    ensures WorkflowStarted(s.log[j].key.execution) in s.outbox
  {
    ReachableHasInv(orders, s);
    assert EntryFits(orders, s, j);
    assert RowFits(orders, s, s.log[j].key);
  }

  // ---- The outbox under stale copies ----

  /**
   * PENDING leaves attempts, FAILED has none left, PUBLISHED was handed to the channel, and
   * the stored message never changes.
   */
  lemma OutboxRowsAreHonest(orders: Orders, run: seq<State>, i: nat, j: nat, key: EventKey)
    requires IsRun(orders, run) && i <= j < |run| && key in run[i].outbox
    ensures key in run[j].outbox && run[j].outbox[key].message == run[i].outbox[key].message
    ensures var row := run[j].outbox[key];
            && (row.status == PENDING ==> row.attempts < MAX_PUBLISH_ATTEMPTS)
            && (row.status == FAILED ==> row.attempts >= MAX_PUBLISH_ATTEMPTS)
            && (row.status == PUBLISHED ==> row.message in run[j].log)
  {
    RunExtends(orders, run, i, j);
    RunKeepsInv(orders, run, j);
    assert RowFits(orders, run[j], key);
    if run[j].outbox[key].status == PUBLISHED {
      PublishedIsStored(orders, run[j], key);
    }
  }

  // ---- Retries ----

  /**
   * However often a command is redelivered, it is retried at most three times, with at most
   * 370 seconds of scheduled delay.
   */
  lemma RetriesAreBounded(orders: Orders, s: State, command: Command)
    requires Reachable(orders, s)
    requires command in s.deadLetters || exists c :: c in s.commands && s.commands[c] == command
    ensures command.hops <= MAX_RETRY_ATTEMPTS && command.delayMs <= 370_000
    ensures command.attempt == command.origin + command.hops
  {
    ReachableHasInv(orders, s);
    if command !in s.deadLetters {
      var c :| c in s.commands && s.commands[c] == command;
      assert CommandFits(s, c);
    }
    if command.hops > 0 {
      DelayIsBounded(command.origin, command.attempt);
    }
  }

  /** A command given up belongs to an execution that has ended. */
  lemma DeadLetteredExecutionsHaveEnded(orders: Orders, s: State, command: Command)
    requires Reachable(orders, s) && command in s.deadLetters
    ensures command.execution in s.status && IsTerminal(s.status[command.execution])
  {
    ReachableHasInv(orders, s);
  }

  // ---- The timeline ----

  /** At most one entry for each event, and it is the message fixed when the outbox row was created. */
  lemma TimelineHasEachEventOnce(orders: Orders, s: State, id: EventId)
    requires Reachable(orders, s) && id in s.timeline
    ensures s.timeline[id].key in s.outbox && s.outbox[s.timeline[id].key].message == s.timeline[id]
    ensures forall other :: other in s.timeline && s.timeline[other].key == s.timeline[id].key ==> other == id
  {
    ReachableHasInv(orders, s);
    TimelineEntryIsStored(orders, s, id);
    forall other | other in s.timeline && s.timeline[other].key == s.timeline[id].key ensures other == id {
      TimelineEntryIsStored(orders, s, other);
    }
  }

  lemma TimelineEntryIsStored(orders: Orders, s: State, id: EventId)
    requires LogFits(orders, s) && TimelineFits(s) && id in s.timeline
    ensures var m := s.timeline[id]; m.eventId == id && m.key in s.outbox && s.outbox[m.key].message == m
  {
    var i :| 0 <= i < |s.log| && s.log[i] == s.timeline[id];
    assert EntryFits(orders, s, i);
  }

  /**
   * When nothing is in flight and the channel lost nothing, exactly the events
   * ever handed to the channel are in the timeline; every PUBLISHED row is among them.
   */
  lemma TimelineIsComplete(orders: Orders, s: State, key: EventKey)
    requires Reachable(orders, s) && s.inFlight == multiset{} && s.lost == {} && key in s.outbox
    ensures var m := s.outbox[key].message;
            && (m.eventId in s.timeline <==> key in PublishedKeys(s.log))
            && (m.eventId in s.timeline ==> s.timeline[m.eventId] == m)
            && (s.outbox[key].status == PUBLISHED ==> m.eventId in s.timeline)
  {
    ReachableHasInv(orders, s);
    assert RowFits(orders, s, key);
    var id := s.outbox[key].message.eventId;
    if key in PublishedKeys(s.log) {
      PublishedIsStored(orders, s, key);
    }
    if id in s.timeline {
      TimelineEntryIsStored(orders, s, id);
      assert s.timeline[id].key == key;
    }
  }

  lemma TimelineEntriesStay(orders: Orders, run: seq<State>, i: nat, j: nat, id: EventId)
    requires IsRun(orders, run) && i <= j < |run| && id in run[i].timeline
    ensures id in run[j].timeline && run[j].timeline[id] == run[i].timeline[id]
  {
    RunExtends(orders, run, i, j);
  }

  /** The consumer never has to reject an event for want of its execution. */
  lemma NoEventIsRejected(orders: Orders, s: State, t: State, m: Message)
    requires Reachable(orders, s)
    ensures !NextStep(orders, s, t, RejectEvent(m))
  {
    if m in s.inFlight {
      ReachableHasInv(orders, s);
      NothingToReject(orders, s, m);
    }
  }
}
