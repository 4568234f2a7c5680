/**
 * When an execution's start is published before its node events: always,
 * unless a worker takes over a running execution whose start is not out yet.
 */
module StartOrder {
  import opened Wrappers
  import opened WorkflowDefinitions
  import opened LifecycleEvents
  import opened Outbox
  import opened ExecutionProtocol
  import opened ProtocolInvariant
  import opened ProtocolPaths
  import opened ProtocolSteps
  import opened ProtocolTheorems
  import opened Recovery

  predicate StartOut(s: State, e: ExecutionId) {
    WorkflowStarted(e) in PublishedKeys(s.log)
  }

  /** A worker that found the execution begun by someone else goes on to its nodes before the start is out. */
  predicate TakesOverEarly(s: State, step: Step) {
    step.Move? && step.next.RunNodes? && step.p in s.processes && s.processes[step.p].pc.Reload?
    && !StartOut(s, s.processes[step.p].execution)
  }

  ghost predicate NextPatient(orders: Orders, s: State, t: State) {
    exists step :: NextStep(orders, s, t, step) && !TakesOverEarly(s, step)
  }

  ghost predicate PatientAt(orders: Orders, run: seq<State>, i: nat) {
    i + 1 < |run| ==> NextPatient(orders, run[i], run[i + 1])
  }

  ghost predicate IsPatientRun(orders: Orders, run: seq<State>) {
    && |run| > 0 && Init(run[0])
    && forall i: nat :: PatientAt(orders, run, i)
  }

  /** Control is among the nodes, or gets there without publishing the start. */
  predicate AmongNodes(e: ExecutionId, pc: Pc)
    decreases pc
  {
    match pc
    case RunNodes(_) | PersistNodeStarted(_) | ExecuteNode(_) | PersistNodeCompleted(_) | PersistNodeFailed(_, _)
        | CompleteTx => true
    case Flush(_, onThrow) => AmongNodes(e, onThrow)
    case Flushing(_, _, onThrow) => AmongNodes(e, onThrow)
    case Send(row, after, onThrow) =>
      (row.message.key != WorkflowStarted(e) && AmongNodes(e, after)) || AmongNodes(e, onThrow)
    case Mark(row, _, after, onThrow) =>
      (row.message.key != WorkflowStarted(e) && AmongNodes(e, after)) || AmongNodes(e, onThrow)
    case _ => false
  }

  ghost predicate ProcessStarted(s: State, p: ProcessId) {
    p in s.processes && AmongNodes(s.processes[p].execution, s.processes[p].pc) ==>
        StartOut(s, s.processes[p].execution)
  }

  predicate EarlierStart(log: seq<Message>, j: int)
    requires 0 <= j < |log|
  {
    exists i :: 0 <= i < j && log[i].key == WorkflowStarted(log[j].key.execution)
  }

  /** Whoever is among the nodes, every node row and every published node event has the start behind it. */
  ghost predicate StartLeads(s: State) {
    && (forall p {:trigger ProcessStarted(s, p)} :: ProcessStarted(s, p))
    && (forall key :: key in s.outbox && IsNodeEvent(key) ==> StartOut(s, key.execution))
    && (forall j :: 0 <= j < |s.log| && IsNodeEvent(s.log[j].key) ==> EarlierStart(s.log, j))
  }

  lemma StartStays(s: State, t: State, e: ExecutionId)
    requires Extends(s, t) && StartOut(s, e)
    ensures StartOut(t, e)
  {
    PublishedGrows(s.log, t.log);
  }

  // ---- Where control comes from ----

  lemma MovesAmongNodes(order: seq<NodeId>, e: ExecutionId, kn: Known, status: Option<ExecutionStatus>, attempt: nat,
                        pc: Pc, next: Pc)
    requires PcFits(order, e, kn, pc) && Moves(order, status, attempt, pc, next) && AmongNodes(e, next)
    ensures AmongNodes(e, pc) || (pc.Reload? && next.RunNodes?) || WorkflowStarted(e) in kn.published
  {
    if pc.Send? {
      SkipsAmongNodes(order, e, kn, pc, next);
    } else if pc.Flushing? {
      FlushesAmongNodes(e, pc, next);
    } else {
      LooksAmongNodes(order, e, status, attempt, pc, next);
    }
  }

  /** A copy that says it was published is passed over. */
  lemma SkipsAmongNodes(order: seq<NodeId>, e: ExecutionId, kn: Known, pc: Pc, next: Pc)
    requires PcFits(order, e, kn, pc) && pc.Send? && pc.snapshot.status == PUBLISHED && next == pc.after
             && AmongNodes(e, next)
    ensures AmongNodes(e, pc) || WorkflowStarted(e) in kn.published
  {
  }

  lemma FlushesAmongNodes(e: ExecutionId, pc: Pc, next: Pc)
    requires pc.Flushing? && EndsDelivery(pc.after) && AmongNodes(e, next)
    requires next == if pc.snapshots == [] then pc.after
                     else Send(pc.snapshots[0], Flushing(pc.snapshots[1..], pc.after, pc.onThrow), pc.onThrow)
    ensures AmongNodes(e, pc)
  {
    assert !AmongNodes(e, Ack) && !AmongNodes(e, DeadLetter);
  }

  /** Every flush is entered from outside the nodes and returns outside them. */
  lemma FlushIsOutside(e: ExecutionId, after: Pc, onThrow: Pc)
    requires onThrow.Catch? || onThrow.Nack?
    ensures !AmongNodes(e, Flush(after, onThrow))
  {
    assert !AmongNodes(e, onThrow);
  }

  lemma LooksAmongNodes(order: seq<NodeId>, e: ExecutionId, status: Option<ExecutionStatus>, attempt: nat, pc: Pc,
                        next: Pc)
    requires Moves(order, status, attempt, pc, next) && !pc.Send? && !pc.Flushing? && AmongNodes(e, next)
    ensures AmongNodes(e, pc) || (pc.Reload? && next.RunNodes?)
  {
    FlushIsOutside(e, Ack, Catch(true));
    FlushIsOutside(e, DeadLetter, Nack);
  }

  lemma ThrowsAmongNodes(e: ExecutionId, pc: Pc, retryable: bool)
    requires Handler(pc, retryable).Some? && AmongNodes(e, Handler(pc, retryable).value)
    ensures AmongNodes(e, pc)
  {
  }

  lemma DispatchesAmongNodes(order: seq<NodeId>, e: ExecutionId, pc: Pc, row: OutboxRow)
    requires PersistedKey(order, e, pc) == Some(row.message.key) && AmongNodes(e, DispatchAfter(pc, row))
    ensures AmongNodes(e, pc)
  {
    assert !AmongNodes(e, Catch(true)) && !AmongNodes(e, Nack) && !AmongNodes(e, Ack) && !AmongNodes(e, DeadLetter);
  }

  // ---- Steps ----

  /** No process but p has changed or come in. */
  ghost predicate OnlyActs(s: State, t: State, p: ProcessId) {
    forall q :: q in t.processes && q != p ==> q in s.processes && t.processes[q] == s.processes[q]
  }

  lemma OthersStarted(s: State, t: State, p: ProcessId)
    requires StartLeads(s) && Extends(s, t) && OnlyActs(s, t, p) && ProcessStarted(t, p)
    ensures forall q {:trigger ProcessStarted(t, q)} :: ProcessStarted(t, q)
  {
    forall q ensures ProcessStarted(t, q) {
      assert ProcessStarted(s, q);
      if q in t.processes && q != p && StartOut(s, s.processes[q].execution) {
        StartStays(s, t, s.processes[q].execution);
      }
    }
  }

  /** A process that moved with its execution's start accounted for. */
  ghost predicate MovedOn(s: State, t: State, p: ProcessId) {
    && p in s.processes && p in t.processes && OnlyActs(s, t, p)
    && t.processes[p].execution == s.processes[p].execution
    && (AmongNodes(t.processes[p].execution, t.processes[p].pc) ==>
          AmongNodes(s.processes[p].execution, s.processes[p].pc) || StartOut(s, s.processes[p].execution))
  }

  lemma MoverStarted(s: State, t: State, p: ProcessId)
    requires StartLeads(s) && Extends(s, t) && MovedOn(s, t, p)
    ensures ProcessStarted(t, p)
  {
    assert ProcessStarted(s, p);
    if StartOut(s, s.processes[p].execution) {
      StartStays(s, t, s.processes[p].execution);
    }
  }

  lemma RowsStarted(s: State, t: State)
    requires StartLeads(s) && Extends(s, t)
    requires forall key :: key in t.outbox && key !in s.outbox && IsNodeEvent(key) ==> StartOut(s, key.execution)
    ensures forall key :: key in t.outbox && IsNodeEvent(key) ==> StartOut(t, key.execution)
  {
    forall key | key in t.outbox && IsNodeEvent(key) ensures StartOut(t, key.execution) {
      StartStays(s, t, key.execution);
    }
  }

  lemma LogStarted(s: State, t: State)
    requires StartLeads(s) && Extends(s, t)
    requires t.log == s.log || exists m :: t.log == s.log + [m] && (IsNodeEvent(m.key) ==> StartOut(s, m.key.execution))
    ensures forall j :: 0 <= j < |t.log| && IsNodeEvent(t.log[j].key) ==> EarlierStart(t.log, j)
  {
    forall j | 0 <= j < |t.log| && IsNodeEvent(t.log[j].key) ensures EarlierStart(t.log, j) {
      if j < |s.log| {
        assert EarlierStart(s.log, j);
        var i :| 0 <= i < j && s.log[i].key == WorkflowStarted(s.log[j].key.execution);
        assert t.log[i].key == WorkflowStarted(t.log[j].key.execution);
      } else {
        var e := t.log[j].key.execution;
        var m :| m in s.log && m.key == WorkflowStarted(e);
        var i :| 0 <= i < |s.log| && s.log[i] == m;
        assert t.log[i].key == WorkflowStarted(e);
      }
    }
  }

  lemma MoveKeepsLead(orders: Orders, s: State, t: State, p: ProcessId, next: Pc)
    requires Inv(orders, s) && StartLeads(s) && NextStep(orders, s, t, Move(p, next))
             && !TakesOverEarly(s, Move(p, next)) && Extends(s, t)
    ensures StartLeads(t)
  {
    CurrentlyFits(orders, s, p);
    var e, pc := s.processes[p].execution, s.processes[p].pc;
    if AmongNodes(e, next) {
      MovesAmongNodes(orders(e), e, KnownOf(s, e), StatusOf(s, e), AttemptOf(s, p), pc, next);
    }
    MoverStarted(s, t, p);
    OthersStarted(s, t, p);
    RowsStarted(s, t);
    LogStarted(s, t);
  }

  lemma PersistMovesOn(orders: Orders, s: State, t: State, p: ProcessId, eventId: EventId, body: string)
    requires p in s.processes && PersistStep(orders, s, t, p, eventId, body) && RowsFit(orders, t)
    ensures MovedOn(s, t, p)
    ensures forall key :: key in t.outbox && key !in s.outbox && IsNodeEvent(key) ==>
                            key.execution == s.processes[p].execution && AmongNodes(key.execution, s.processes[p].pc)
  {
    var e, pc := s.processes[p].execution, s.processes[p].pc;
    var key := PersistedKey(orders(e), e, pc).value;
    RowIsSnapshot(orders, t, e, key);
    PersistedKeyBelongs(orders(e), e, pc);
    if AmongNodes(e, t.processes[p].pc) {
      DispatchesAmongNodes(orders(e), e, pc, t.outbox[key]);
    }
  }

  lemma PersistKeepsLead(orders: Orders, s: State, t: State, p: ProcessId, eventId: EventId, body: string)
    requires StartLeads(s) && NextStep(orders, s, t, Persist(p, eventId, body)) && RowsFit(orders, t) && Extends(s, t)
    ensures StartLeads(t)
  {
    PersistMovesOn(orders, s, t, p, eventId, body);
    MoverStarted(s, t, p);
    OthersStarted(s, t, p);
    assert ProcessStarted(s, p);
    RowsStarted(s, t);
    LogStarted(s, t);
  }

  lemma PublishKeepsLead(s: State, t: State, p: ProcessId, m: Message)
    requires StartLeads(s) && Extends(s, t) && MovedOn(s, t, p) && t.outbox == s.outbox && m.key in s.outbox
    requires t.log == s.log || t.log == s.log + [m]
    ensures StartLeads(t)
  {
    MoverStarted(s, t, p);
    OthersStarted(s, t, p);
    RowsStarted(s, t);
    LogStarted(s, t);
  }

  lemma PublishMovesOn(orders: Orders, s: State, t: State, p: ProcessId, result: PublishResult, handedOver: bool,
                       enqueued: bool)
    requires p in s.processes && PublishStep(s, t, p, result, handedOver, enqueued)
    ensures MovedOn(s, t, p)
  {
  }

  /** A step that neither publishes nor adds rows has only its process to answer for. */
  lemma QuietKeepsLead(s: State, t: State, p: ProcessId)
    requires StartLeads(s) && Extends(s, t) && t.log == s.log && t.outbox.Keys == s.outbox.Keys
    requires OnlyActs(s, t, p) && ProcessStarted(t, p)
    ensures StartLeads(t)
  {
    OthersStarted(s, t, p);
    RowsStarted(s, t);
    LogStarted(s, t);
  }

  lemma ThrowKeepsLead(orders: Orders, s: State, t: State, p: ProcessId, retryable: bool)
    requires StartLeads(s) && NextStep(orders, s, t, Throw(p, retryable)) && Extends(s, t)
    ensures StartLeads(t)
  {
    var e := s.processes[p].execution;
    if AmongNodes(e, t.processes[p].pc) {
      ThrowsAmongNodes(e, s.processes[p].pc, retryable);
    }
    MoverStarted(s, t, p);
    QuietKeepsLead(s, t, p);
  }

  lemma FetchKeepsLead(orders: Orders, s: State, t: State, p: ProcessId, snapshots: seq<OutboxRow>)
    requires StartLeads(s) && NextStep(orders, s, t, Fetch(p, snapshots)) && Extends(s, t)
    ensures StartLeads(t)
  {
    MoverStarted(s, t, p);
    QuietKeepsLead(s, t, p);
  }

  lemma RecordMovesOn(orders: Orders, s: State, t: State, p: ProcessId)
    requires p in s.processes && RecordStep(s, t, p)
    requires s.processes[p].pc.accepted ==> s.processes[p].pc.snapshot.message.key in PublishedKeys(s.log)
    ensures MovedOn(s, t, p)
  {
  }

  lemma RecordKeepsLead(orders: Orders, s: State, t: State, p: ProcessId)
    requires Inv(orders, s) && StartLeads(s) && NextStep(orders, s, t, RecordPublish(p)) && Extends(s, t)
    ensures StartLeads(t)
  {
    RecordFits(orders, s, p);
    RecordMovesOn(orders, s, t, p);
    MoverStarted(s, t, p);
    QuietKeepsLead(s, t, p);
  }

  /** What a step leaves of p is outside the nodes, and nothing is published or added. */
  ghost predicate Leaves(s: State, t: State, p: ProcessId) {
    && OnlyActs(s, t, p) && t.log == s.log && t.outbox == s.outbox
    && (p in t.processes ==> !AmongNodes(t.processes[p].execution, t.processes[p].pc))
  }

  lemma NewProcessLeaves(orders: Orders, s: State, t: State, step: Step)
    requires NextStep(orders, s, t, step) && (step.Deliver? || step.StartDispatcher?)
    ensures Leaves(s, t, step.p)
  {
  }

  lemma EndingLeaves(orders: Orders, s: State, t: State, step: Step)
    requires NextStep(orders, s, t, step) && (step.Finish? || step.Crash?)
    ensures Leaves(s, t, step.p)
  {
  }

  lemma CopyingLeaves(orders: Orders, s: State, t: State, step: Step)
    requires NextStep(orders, s, t, step) && (step.PublishDeadLetter? || step.PublishRetry?)
    ensures Leaves(s, t, step.p)
  {
  }

  lemma LeavingKeepsLead(s: State, t: State, p: ProcessId)
    requires StartLeads(s) && Extends(s, t) && Leaves(s, t, p)
    ensures StartLeads(t)
  {
    QuietKeepsLead(s, t, p);
  }

  lemma SurroundingsKeepLead(orders: Orders, s: State, t: State, step: Step)
    requires StartLeads(s) && NextStep(orders, s, t, step) && Extends(s, t)
    requires step.CreateExecution? || step.RequestExecution? || step.RetryExpires? || step.Ingest? || step.AckEvent?
             || step.RejectEvent?
    ensures StartLeads(t)
  {
    assert t.processes == s.processes && t.log == s.log && t.outbox == s.outbox;
    forall p ensures ProcessStarted(t, p) {
      assert ProcessStarted(s, p);
    }
    QuietKeepsLead(s, t, 0);
  }

  lemma WalkKeepsLead(orders: Orders, s: State, t: State, step: Step)
    requires Inv(orders, s) && StartLeads(s) && NextStep(orders, s, t, step) && !TakesOverEarly(s, step)
             && Extends(s, t)
    requires step.Move? || step.Throw? || step.Fetch?
    ensures StartLeads(t)
  {
    match step
    case Move(p, next) => MoveKeepsLead(orders, s, t, p, next);
    case Throw(p, retryable) => ThrowKeepsLead(orders, s, t, p, retryable);
    case Fetch(p, snapshots) => FetchKeepsLead(orders, s, t, p, snapshots);
  }

  lemma WriteKeepsLead(orders: Orders, s: State, t: State, step: Step)
    requires Inv(orders, s) && StartLeads(s) && NextStep(orders, s, t, step) && RowsFit(orders, t) && Extends(s, t)
    requires step.Persist? || step.Publish? || step.RecordPublish?
    ensures StartLeads(t)
  {
    match step
    case Persist(p, eventId, body) => PersistKeepsLead(orders, s, t, p, eventId, body);
    case Publish(p, result, handedOver, enqueued) =>
      SentIsStored(orders, s, p);
      PublishMovesOn(orders, s, t, p, result, handedOver, enqueued);
      PublishKeepsLead(s, t, p, s.processes[p].pc.snapshot.message);
    case RecordPublish(p) => RecordKeepsLead(orders, s, t, p);
  }

  lemma ControlLeaves(orders: Orders, s: State, t: State, step: Step)
    requires NextStep(orders, s, t, step) && (IsFinalStep(step) || step.Deliver? || step.StartDispatcher?)
    ensures Leaves(s, t, step.p)
  {
    if step.Finish? || step.Crash? {
      EndingLeaves(orders, s, t, step);
    } else if step.PublishRetry? || step.PublishDeadLetter? {
      CopyingLeaves(orders, s, t, step);
    } else {
      NewProcessLeaves(orders, s, t, step);
    }
  }

  lemma StepKeepsLead(orders: Orders, s: State, t: State, step: Step)
    requires Inv(orders, s) && StartLeads(s) && NextStep(orders, s, t, step) && !TakesOverEarly(s, step)
             && Maintained(orders, s, t)
    ensures StartLeads(t)
  {
    if step.Move? || step.Throw? || step.Fetch? {
      WalkKeepsLead(orders, s, t, step);
    } else if step.Persist? || step.Publish? || step.RecordPublish? {
      WriteKeepsLead(orders, s, t, step);
    } else if IsFinalStep(step) || step.Deliver? || step.StartDispatcher? {
      ControlLeaves(orders, s, t, step);
      LeavingKeepsLead(s, t, step.p);
    } else {
      SurroundingsKeepLead(orders, s, t, step);
    }
  }

  lemma PatientStepKeepsLead(orders: Orders, s: State, t: State)
    requires Inv(orders, s) && StartLeads(s) && NextPatient(orders, s, t)
    ensures Inv(orders, t) && StartLeads(t)
  {
    var step :| NextStep(orders, s, t, step) && !TakesOverEarly(s, step);
    StepKeepsInv(orders, s, t, step);
    StepKeepsLead(orders, s, t, step);
  }

  lemma {:induction false} PatientRunKeepsLead(orders: Orders, run: seq<State>, i: nat)
    requires IsPatientRun(orders, run) && i < |run|
    ensures Inv(orders, run[i]) && StartLeads(run[i])
    decreases i
  {
    if i == 0 {
      InitHasInv(orders, run[0]);
    } else {
      PatientRunKeepsLead(orders, run, i - 1);
      assert PatientAt(orders, run, i - 1);
      PatientStepKeepsLead(orders, run[i - 1], run[i]);
    }
  }

  /** As long as no worker takes over early, an execution's start is published before any of its node events. */
  lemma StartIsPublishedFirst(orders: Orders, run: seq<State>, i: nat, j: nat)
    requires IsPatientRun(orders, run) && i < |run| && j < |run[i].log| && IsNodeEvent(run[i].log[j].key)
    ensures exists h :: 0 <= h < j && run[i].log[h].key == WorkflowStarted(run[i].log[j].key.execution)
  {
    PatientRunKeepsLead(orders, run, i);
    assert EarlierStart(run[i].log, j);
  }

  // ---- An early takeover does let the start lag ----

  predicate NodeEventOut(s: State, e: ExecutionId) {
    exists j :: 0 <= j < |s.log| && IsNodeEvent(s.log[j].key) && s.log[j].key.execution == e
  }

  /** Publishing a node event does not publish the start. */
  lemma NodeEventGoesOut(s: State, t: State, e: ExecutionId, m: Message)
    requires !StartOut(s, e) && t.log == s.log + [m] && IsNodeEvent(m.key) && m.key.execution == e
    ensures !StartOut(t, e) && NodeEventOut(t, e)
  {
    assert t.log[|s.log|] == m;
  }

  lemma PublishedNodeEventIsOut(s: State, key: EventKey)
    requires key in PublishedKeys(s.log) && IsNodeEvent(key)
    ensures NodeEventOut(s, key.execution)
  {
    var m :| m in s.log && m.key == key;
    var j :| 0 <= j < |s.log| && s.log[j] == m;
  }

  /** A worker that gets to the first node while the start is not out can publish that node's start. */
  lemma FirstNodeGoesOut(orders: Orders, s: State, e: ExecutionId, p: ProcessId, status: ExecutionStatus)
    returns (t: State)
    requires Reachable(orders, s) && At(s, e, p, status, PersistNodeStarted(0)) && |orders(e)| > 0 && !StartOut(s, e)
    ensures Continues(orders, s, t) && !StartOut(t, e) && NodeEventOut(t, e)
  {
    var key := NodeStarted(e, orders(e)[0]);
    ReachableHasInv(orders, s);
    var u, row := WritesRow(orders, s, e, p, status, PersistNodeStarted(0), key);
    if row.status == PUBLISHED {
      StillReachable(orders, s, u);
      ReachableHasInv(orders, u);
      CurrentlyFits(orders, u, p);
      PublishedNodeEventIsOut(u, key);
      t := u;
    } else {
      t := Publishes(orders, u, e, p, status, row, ExecuteNode(0), Catch(true));
      ContinuesTransitive(orders, s, u, t);
      NodeEventGoesOut(u, t, e, row.message);
    }
  }

  /**
   * The condition of StartIsPublishedFirst cannot be weakened: after any early
   * takeover of an execution with nodes, a node event can be published while the
   * start is not out.
   */
  lemma EarlyTakeoverLags(orders: Orders, s: State, t: State, p: ProcessId) returns (u: State)
    requires Reachable(orders, s) && NextStep(orders, s, t, Move(p, RunNodes(0)))
             && TakesOverEarly(s, Move(p, RunNodes(0)))
    requires |orders(s.processes[p].execution)| > 0
    ensures Continues(orders, t, u) && !StartOut(u, s.processes[p].execution)
            && NodeEventOut(u, s.processes[p].execution)
  {
    var e := s.processes[p].execution;
    Advance(orders, s, t, Move(p, RunNodes(0)));
    var v := MovesOn(orders, t, e, p, StatusOf(s, e).value, RunNodes(0), PersistNodeStarted(0));
    StillReachable(orders, t, v);
    u := FirstNodeGoesOut(orders, v, e, p, StatusOf(s, e).value);
    ContinuesTransitive(orders, t, v, u);
  }
}
