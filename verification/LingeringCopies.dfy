/**
 * Exactly when a published outbox row can still leave PUBLISHED: while some process holds a
 * copy that may record a failure.
 */
module LingeringCopies {
  import opened Wrappers
  import opened WorkflowDefinitions
  import opened LifecycleEvents
  import opened Outbox
  import opened ExecutionProtocol
  import opened ProtocolPaths
  import opened ProtocolInvariant
  import opened ProtocolSteps
  import opened ProtocolTheorems

  /** A copy of key's row that is not marked published. */
  predicate IsCopy(row: OutboxRow, key: EventKey) {
    row.message.key == key && row.status != PUBLISHED
  }

  /** Control at pc may come to record a failed publish of such a copy. */
  predicate HoldsCopy(pc: Pc, key: EventKey)
    decreases pc
  {
    match pc
    case Flush(after, onThrow) => HoldsCopy(after, key) || HoldsCopy(onThrow, key)
    case Flushing(snapshots, after, onThrow) =>
      (exists row :: row in snapshots && IsCopy(row, key)) || HoldsCopy(after, key) || HoldsCopy(onThrow, key)
    case Send(row, after, onThrow) => IsCopy(row, key) || HoldsCopy(after, key) || HoldsCopy(onThrow, key)
    case Mark(row, accepted, after, onThrow) =>
      HoldsCopy(onThrow, key) || if accepted then HoldsCopy(after, key) else row.message.key == key
    case _ => false
  }

  predicate CopyFree(s: State, p: ProcessId, key: EventKey) {
    p in s.processes ==> !HoldsCopy(s.processes[p].pc, key)
  }

  predicate IsPublished(s: State, key: EventKey) {
    key in s.outbox && s.outbox[key].status == PUBLISHED
  }

  /** The row is published and nobody holds a copy of it. */
  ghost predicate SafelyPublished(s: State, key: EventKey) {
    IsPublished(s, key) && forall p {:trigger CopyFree(s, p, key)} :: CopyFree(s, p, key)
  }

  // ---- Without a copy the row stays published ----

  lemma FlushingHoldsNoCopy(pc: Pc, next: Pc, key: EventKey)
    requires pc.Flushing? && !HoldsCopy(pc, key)
    requires next == if pc.snapshots == [] then pc.after
                     else Send(pc.snapshots[0], Flushing(pc.snapshots[1..], pc.after, pc.onThrow), pc.onThrow)
    ensures !HoldsCopy(next, key)
  {
    if pc.snapshots != [] {
      assert pc.snapshots[0] in pc.snapshots;
      assert !HoldsCopy(Flushing(pc.snapshots[1..], pc.after, pc.onThrow), key);
    }
  }

  /** Places where no row is being dispatched. */
  lemma PlacesHoldNoCopy(pc: Pc, key: EventKey)
    requires !DispatchesRows(pc)
    ensures !HoldsCopy(pc, key)
  {
  }

  lemma FlushHoldsNoCopy(after: Pc, onThrow: Pc, key: EventKey)
    requires !DispatchesRows(after) && !DispatchesRows(onThrow)
    ensures !HoldsCopy(Flush(after, onThrow), key)
  {
    PlacesHoldNoCopy(after, key);
    PlacesHoldNoCopy(onThrow, key);
  }

  lemma LooksHoldNoCopy(order: seq<NodeId>, status: Option<ExecutionStatus>, attempt: nat, pc: Pc, next: Pc,
                        key: EventKey)
    requires Moves(order, status, attempt, pc, next) && !pc.Send? && !pc.Flushing?
    ensures !HoldsCopy(next, key)
  {
    if next.Flush? {
      FlushHoldsNoCopy(next.after, next.onThrow, key);
    } else {
      PlacesHoldNoCopy(next, key);
    }
  }

  lemma MovesHoldNoCopy(order: seq<NodeId>, status: Option<ExecutionStatus>, attempt: nat, pc: Pc, next: Pc,
                        key: EventKey)
    requires Moves(order, status, attempt, pc, next) && !HoldsCopy(pc, key)
    ensures !HoldsCopy(next, key)
  {
    if pc.Flushing? {
      FlushingHoldsNoCopy(pc, next, key);
    } else if pc.Send? {
      assert next == pc.after;
    } else {
      LooksHoldNoCopy(order, status, attempt, pc, next, key);
    }
  }

  lemma HandlersHoldNoCopy(pc: Pc, retryable: bool, key: EventKey)
    requires Handler(pc, retryable).Some? && !HoldsCopy(pc, key)
    ensures !HoldsCopy(Handler(pc, retryable).value, key)
  {
  }

  lemma DispatchHoldsNoCopy(pc: Pc, row: OutboxRow, key: EventKey)
    requires !IsCopy(row, key)
    ensures !HoldsCopy(DispatchAfter(pc, row), key)
  {
    assert !HoldsCopy(Catch(true), key) && !HoldsCopy(Ack, key) && !HoldsCopy(DeadLetter, key) && !HoldsCopy(Nack, key);
  }

  /** No process but p has changed or come in, and p holds no copy. */
  ghost predicate OnlyMoved(s: State, t: State, p: ProcessId, key: EventKey) {
    && (forall q :: q in t.processes && q != p ==> q in s.processes && t.processes[q] == s.processes[q])
    && CopyFree(t, p, key)
    && IsPublished(t, key)
  }

  lemma StaysSafe(s: State, t: State, p: ProcessId, key: EventKey)
    requires SafelyPublished(s, key) && OnlyMoved(s, t, p, key)
    ensures SafelyPublished(t, key)
  {
    forall q ensures CopyFree(t, q, key) {
      assert CopyFree(s, q, key);
    }
  }

  lemma WalkStaysSafe(orders: Orders, s: State, t: State, step: Step, key: EventKey)
    requires SafelyPublished(s, key) && NextStep(orders, s, t, step) && (step.Move? || step.Throw? || step.Fetch?)
    ensures OnlyMoved(s, t, step.p, key)
  {
    var pc := s.processes[step.p].pc;
    assert CopyFree(s, step.p, key);
    match step
    case Move(p, next) =>
      MovesHoldNoCopy(orders(s.processes[p].execution), StatusOf(s, s.processes[p].execution), AttemptOf(s, p), pc,
                      next, key);
    case Throw(_, retryable) => HandlersHoldNoCopy(pc, retryable, key);
    case Fetch(_, snapshots) =>
      forall row | row in snapshots ensures !IsCopy(row, key) {
        var i :| 0 <= i < |snapshots| && snapshots[i] == row;
      }
  }

  lemma PersistStaysSafe(orders: Orders, s: State, t: State, step: Step, key: EventKey)
    requires RowsFit(orders, s) && SafelyPublished(s, key) && NextStep(orders, s, t, step) && step.Persist?
    ensures OnlyMoved(s, t, step.p, key)
  {
    var e, pc := s.processes[step.p].execution, s.processes[step.p].pc;
    var written := PersistedKey(orders(e), e, pc).value;
    assert RowFits(orders, s, written);
    DispatchHoldsNoCopy(pc, t.outbox[written], key);
  }

  lemma PublishStaysSafe(orders: Orders, s: State, t: State, step: Step, key: EventKey)
    requires SafelyPublished(s, key) && NextStep(orders, s, t, step) && step.Publish?
    ensures OnlyMoved(s, t, step.p, key)
  {
    assert CopyFree(s, step.p, key);
  }

  lemma RecordStaysSafe(orders: Orders, s: State, t: State, step: Step, key: EventKey)
    requires SafelyPublished(s, key) && NextStep(orders, s, t, step) && step.RecordPublish?
    ensures OnlyMoved(s, t, step.p, key)
  {
    assert CopyFree(s, step.p, key);
  }

  lemma StartStaysSafe(orders: Orders, s: State, t: State, step: Step, key: EventKey)
    requires RowsFit(orders, s) && SafelyPublished(s, key) && NextStep(orders, s, t, step)
    requires step.StartDispatcher? || step.Deliver?
    ensures OnlyMoved(s, t, step.p, key)
  {
    if step.StartDispatcher? {
      assert RowFits(orders, s, step.key);
      assert !HoldsCopy(Halt, key);
    }
  }

  lemma EndStaysSafe(orders: Orders, s: State, t: State, step: Step, key: EventKey)
    requires SafelyPublished(s, key) && NextStep(orders, s, t, step) && IsFinalStep(step)
    ensures OnlyMoved(s, t, step.p, key)
  {
    if step.PublishRetry? || step.PublishDeadLetter? {
      PlacesHoldNoCopy(t.processes[step.p].pc, key);
    } else {
      assert step.p !in t.processes;
    }
  }

  lemma SurroundingsStaySafe(orders: Orders, s: State, t: State, step: Step, key: EventKey)
    requires SafelyPublished(s, key) && NextStep(orders, s, t, step)
    requires !IsWorkStep(step) && !IsFinalStep(step) && !step.StartDispatcher? && !step.Deliver?
    ensures SafelyPublished(t, key)
  {
    assert t.processes == s.processes && t.outbox == s.outbox;
    assert CopyFree(s, 0, key);
    StaysSafe(s, t, 0, key);
  }

  lemma StepStaysSafe(orders: Orders, s: State, t: State, step: Step, key: EventKey)
    requires RowsFit(orders, s) && SafelyPublished(s, key) && NextStep(orders, s, t, step)
    ensures SafelyPublished(t, key)
  {
    if step.Move? || step.Throw? || step.Fetch? {
      WalkStaysSafe(orders, s, t, step, key);
      StaysSafe(s, t, step.p, key);
    } else if step.Persist? {
      PersistStaysSafe(orders, s, t, step, key);
      StaysSafe(s, t, step.p, key);
    } else if step.Publish? {
      PublishStaysSafe(orders, s, t, step, key);
      StaysSafe(s, t, step.p, key);
    } else if step.RecordPublish? {
      RecordStaysSafe(orders, s, t, step, key);
      StaysSafe(s, t, step.p, key);
    } else if step.StartDispatcher? || step.Deliver? {
      StartStaysSafe(orders, s, t, step, key);
      StaysSafe(s, t, step.p, key);
    } else if IsFinalStep(step) {
      EndStaysSafe(orders, s, t, step, key);
      StaysSafe(s, t, step.p, key);
    } else {
      SurroundingsStaySafe(orders, s, t, step, key);
    }
  }

  lemma NextStaysSafe(orders: Orders, s: State, t: State, key: EventKey)
    requires Reachable(orders, s) && SafelyPublished(s, key) && Next(orders, s, t)
    ensures SafelyPublished(t, key) && Reachable(orders, t)
  {
    var step :| NextStep(orders, s, t, step);
    ReachableHasInv(orders, s);
    StepStaysSafe(orders, s, t, step, key);
    Advance(orders, s, t, step);
  }

  lemma {:induction false} PathStaysSafe(orders: Orders, path: seq<State>, key: EventKey, i: nat)
    requires IsPath(orders, path) && i < |path| && Reachable(orders, path[0]) && SafelyPublished(path[0], key)
    ensures SafelyPublished(path[i], key) && Reachable(orders, path[i])
    decreases i
  {
    if i > 0 {
      PathStaysSafe(orders, path, key, i - 1);
      assert NextAt(orders, path, i - 1);
      NextStaysSafe(orders, path[i - 1], path[i], key);
    }
  }

  lemma StaysPublished(orders: Orders, s: State, t: State, key: EventKey)
    requires Reachable(orders, s) && SafelyPublished(s, key) && Continues(orders, s, t)
    ensures IsPublished(t, key)
  {
    var path :| IsPath(orders, path) && path[0] == s && path[|path| - 1] == t;
    PathStaysSafe(orders, path, key, |path| - 1);
  }

  // ---- With a copy it can leave ----

  predicate StandsAt(s: State, p: ProcessId, pc: Pc) {
    p in s.processes && s.processes[p].pc == pc
  }

  predicate IsUnpublished(s: State, key: EventKey) {
    key in s.outbox && s.outbox[key].status != PUBLISHED
  }

  /** A single step from a reachable state. */
  lemma Steps(orders: Orders, s: State, t: State, step: Step)
    requires Reachable(orders, s) && NextStep(orders, s, t, step)
    ensures Continues(orders, s, t) && Reachable(orders, t)
  {
    Stay(orders, s);
    Continue(orders, s, s, t, step);
    Advance(orders, s, t, step);
  }

  lemma FailureUnpublishes(orders: Orders, s: State, p: ProcessId, key: EventKey) returns (t: State)
    requires Reachable(orders, s) && p in s.processes && s.processes[p].pc.Mark? && !s.processes[p].pc.accepted
    requires s.processes[p].pc.snapshot.message.key == key
    ensures Continues(orders, s, t) && IsUnpublished(t, key)
  {
    ReachableHasInv(orders, s);
    RecordFits(orders, s, p);
    SentIsStored(orders, s, p);
    var pc := s.processes[p].pc;
    var rows := MarkedFailed(s.outbox, pc.snapshot);
    t := Goto(s, p, pc.onThrow).(outbox := rows,
                                 gaveUp := if rows[key].status == FAILED then s.gaveUp + {key} else s.gaveUp);
    Steps(orders, s, t, RecordPublish(p));
  }

  lemma CopyFails(orders: Orders, s: State, p: ProcessId, row: OutboxRow, after: Pc, onThrow: Pc, key: EventKey)
    returns (t: State)
    requires Reachable(orders, s) && StandsAt(s, p, Send(row, after, onThrow)) && IsCopy(row, key)
    ensures Continues(orders, s, t) && IsUnpublished(t, key)
  {
    var u := Goto(s, p, Mark(row, false, after, onThrow));
    Steps(orders, s, u, Publish(p, Threw, false, false));
    t := FailureUnpublishes(orders, u, p, key);
    ContinuesTransitive(orders, s, u, t);
  }

  lemma Marks(orders: Orders, s: State, p: ProcessId) returns (t: State)
    requires Reachable(orders, s) && p in s.processes && s.processes[p].pc.Mark? && s.processes[p].pc.accepted
    ensures Continues(orders, s, t) && Reachable(orders, t) && StandsAt(t, p, s.processes[p].pc.after)
  {
    ReachableHasInv(orders, s);
    SentIsStored(orders, s, p);
    var pc := s.processes[p].pc;
    t := Goto(s, p, pc.after).(outbox := MarkedPublished(s.outbox, pc.snapshot.message.key));
    Steps(orders, s, t, RecordPublish(p));
  }

  lemma Passes(orders: Orders, s: State, p: ProcessId, row: OutboxRow, after: Pc, onThrow: Pc) returns (t: State)
    requires Reachable(orders, s) && StandsAt(s, p, Send(row, after, onThrow))
    ensures Continues(orders, s, t) && Reachable(orders, t) && StandsAt(t, p, after)
  {
    if row.status == PUBLISHED {
      t := Goto(s, p, after);
      Steps(orders, s, t, Move(p, after));
    } else {
      var u := HandOver(Goto(s, p, Mark(row, true, after, onThrow)), row.message, true);
      Steps(orders, s, u, Publish(p, Delivered, true, true));
      t := Marks(orders, u, p);
      ContinuesTransitive(orders, s, u, t);
    }
  }

  /** A copy waiting in the list gets its turn. */
  lemma {:induction false} ListedCopyFails(orders: Orders, s: State, p: ProcessId, rows: seq<OutboxRow>, after: Pc,
                                           onThrow: Pc, row: OutboxRow, key: EventKey)
    returns (t: State)
    requires Reachable(orders, s) && StandsAt(s, p, Flushing(rows, after, onThrow)) && row in rows && IsCopy(row, key)
    ensures Continues(orders, s, t) && IsUnpublished(t, key)
    decreases |rows|
  {
    var rest := Flushing(rows[1..], after, onThrow);
    var u := Goto(s, p, Send(rows[0], rest, onThrow));
    Steps(orders, s, u, Move(p, Send(rows[0], rest, onThrow)));
    if row == rows[0] {
      t := CopyFails(orders, u, p, row, rest, onThrow, key);
      ContinuesTransitive(orders, s, u, t);
    } else {
      var v := Passes(orders, u, p, rows[0], rest, onThrow);
      t := ListedCopyFails(orders, v, p, rows[1..], after, onThrow, row, key);
      ContinuesTransitive(orders, s, u, v);
      ContinuesTransitive(orders, s, v, t);
    }
  }

  lemma Throws(orders: Orders, s: State, p: ProcessId) returns (t: State)
    requires Reachable(orders, s) && p in s.processes && DispatchesRows(s.processes[p].pc)
    ensures Continues(orders, s, t) && Reachable(orders, t) && StandsAt(t, p, s.processes[p].pc.onThrow)
  {
    t := Goto(s, p, s.processes[p].pc.onThrow);
    Steps(orders, s, t, Throw(p, true));
  }

  /** Where a copy is held only further on, a dispatch that goes well leads there. */
  lemma AfterFlushHoldsNoCopy(orders: Orders, s: State, p: ProcessId, key: EventKey)
    requires Reachable(orders, s) && p in s.processes && (s.processes[p].pc.Flush? || s.processes[p].pc.Flushing?)
    ensures !HoldsCopy(s.processes[p].pc.after, key)
  {
    ReachableHasInv(orders, s);
    CurrentlyFits(orders, s, p);
    PlacesHoldNoCopy(s.processes[p].pc.after, key);
  }

  /** Whoever holds a copy can come to record that its publish failed. */
  lemma {:induction false} CopyCanUnpublish(orders: Orders, s: State, p: ProcessId, pc: Pc, key: EventKey)
    returns (t: State)
    requires Reachable(orders, s) && StandsAt(s, p, pc) && HoldsCopy(pc, key)
    ensures Continues(orders, s, t) && IsUnpublished(t, key)
    decreases pc
  {
    if HoldsCopy(pc.onThrow, key) {
      var u := Throws(orders, s, p);
      t := CopyCanUnpublish(orders, u, p, pc.onThrow, key);
      ContinuesTransitive(orders, s, u, t);
    } else if pc.Flush? || pc.Flushing? {
      AfterFlushHoldsNoCopy(orders, s, p, key);
      var row :| row in pc.snapshots && IsCopy(row, key);
      t := ListedCopyFails(orders, s, p, pc.snapshots, pc.after, pc.onThrow, row, key);
    } else if pc.Send? && IsCopy(pc.snapshot, key) {
      t := CopyFails(orders, s, p, pc.snapshot, pc.after, pc.onThrow, key);
    } else if pc.Mark? && !pc.accepted {
      t := FailureUnpublishes(orders, s, p, key);
    } else {
      var u: State;
      if pc.Send? {
        u := Passes(orders, s, p, pc.snapshot, pc.after, pc.onThrow);
      } else {
        u := Marks(orders, s, p);
      }
      t := CopyCanUnpublish(orders, u, p, pc.after, key);
      ContinuesTransitive(orders, s, u, t);
    }
  }

  /** Some process holds a copy of the row. */
  ghost predicate CopyLingers(s: State, key: EventKey) {
    exists p :: p in s.processes && HoldsCopy(s.processes[p].pc, key)
  }

  /** A published row can still leave PUBLISHED exactly while some process holds an earlier copy of it. */
  lemma PublishedCanBeLeftIff(orders: Orders, s: State, key: EventKey)
    requires Reachable(orders, s) && IsPublished(s, key)
    ensures (exists t :: Continues(orders, s, t) && !IsPublished(t, key)) <==> CopyLingers(s, key)
  {
    if CopyLingers(s, key) {
      var p :| p in s.processes && HoldsCopy(s.processes[p].pc, key);
      var t := CopyCanUnpublish(orders, s, p, s.processes[p].pc, key);
      assert Continues(orders, s, t) && !IsPublished(t, key);
    } else {
      forall t | Continues(orders, s, t) ensures IsPublished(t, key) {
        StaysPublished(orders, s, t, key);
      }
    }
  }
}
