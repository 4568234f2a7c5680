/** Every step of the execution protocol keeps the invariant. */
module ProtocolSteps {
  import opened Wrappers
  import opened WorkflowDefinitions
  import opened LifecycleEvents
  import opened Outbox
  import opened EventTimeline
  import opened RetryPolicy
  import opened ExecutionProtocol
  import opened ProtocolInvariant

  /** What every step owes: the invariant still holds and nothing was undone. */
  ghost predicate Maintained(orders: Orders, s: State, t: State) {
    Inv(orders, t) && Extends(s, t)
  }

  // ---- Rows, log, statuses and timeline, one effect at a time ----

  lemma RowKept(orders: Orders, s: State, t: State, key: EventKey)
    requires RowFits(orders, s, key) && Extends(s, t) && key in s.outbox && t.outbox[key] == s.outbox[key]
    ensures RowFits(orders, t, key)
  {
    PublishedGrows(s.log, t.log);
  }

  lemma RowsKept(orders: Orders, s: State, t: State)
    requires RowsFit(orders, s) && Extends(s, t) && t.outbox == s.outbox && t.gaveUp == s.gaveUp
    ensures RowsFit(orders, t)
  {
    forall key ensures RowFits(orders, t, key) {
      assert RowFits(orders, s, key);
      if key in t.outbox {
        RowKept(orders, s, t, key);
      }
    }
  }

  lemma RowAdded(orders: Orders, s: State, t: State, m: Message)
    requires RowsFit(orders, s) && Extends(s, t) && t.outbox == Upserted(s.outbox, m) && t.gaveUp == s.gaveUp
    requires m.key.execution in t.status && (IsNodeEvent(m.key) ==> WorkflowStarted(m.key.execution) in s.outbox)
    requires PredecessorsPublished(orders(m.key.execution), m.key, PublishedKeys(t.log))
    ensures RowsFit(orders, t)
  {
    forall key ensures RowFits(orders, t, key) {
      assert RowFits(orders, s, key);
      if key in s.outbox {
        RowKept(orders, s, t, key);
      }
    }
  }

  /** A row's bookkeeping may change as long as its message stays and its status is earned. */
  lemma RowRemarked(orders: Orders, s: State, t: State, key: EventKey, row: OutboxRow)
    requires RowsFit(orders, s) && Extends(s, t)
    requires key in s.outbox && t.outbox == s.outbox[key := row] && row.message == s.outbox[key].message
    requires t.gaveUp <= s.gaveUp + {key}
    requires AttemptsFit(row) && (row.status == PUBLISHED ==> key in PublishedKeys(t.log))
             && (row.status == FAILED ==> key in t.gaveUp)
    ensures RowsFit(orders, t)
  {
    PublishedGrows(s.log, t.log);
    forall other ensures RowFits(orders, t, other) {
      assert RowFits(orders, s, other);
      if other in s.outbox && other != key {
        RowKept(orders, s, t, other);
      }
    }
  }

  lemma LogKept(orders: Orders, s: State, t: State)
    requires LogFits(orders, s) && Extends(s, t) && t.log == s.log
    ensures LogFits(orders, t)
  {
    forall i | 0 <= i < |t.log| ensures EntryFits(orders, t, i) {
      assert EntryFits(orders, s, i);
    }
  }

  lemma LogExtended(orders: Orders, s: State, t: State, m: Message)
    requires LogFits(orders, s) && RowsFit(orders, s) && Extends(s, t) && t.log == s.log + [m]
    requires m.key in s.outbox && s.outbox[m.key].message == m
    ensures LogFits(orders, t)
  {
    forall i | 0 <= i < |t.log| ensures EntryFits(orders, t, i) {
      assert RowFits(orders, s, m.key);
      assert t.log[..|s.log|] == s.log;
      if i < |s.log| {
        assert EntryFits(orders, s, i);
        assert t.log[..i] == s.log[..i];
      }
    }
  }

  lemma OutcomesKept(s: State, t: State)
    requires OutcomesFit(s) && t.status == s.status && t.outbox.Keys == s.outbox.Keys
    ensures OutcomesFit(t)
  {
    forall e ensures OutcomeFits(t, e) {
      assert OutcomeFits(s, e);
    }
  }

  /** Only one execution's status or outcome rows changed. */
  lemma OutcomesKeptElsewhere(s: State, t: State, e: ExecutionId)
    requires OutcomesFit(s) && OutcomeFits(t, e)
    requires forall d :: d != e ==> (d in t.status <==> d in s.status) && (d in s.status ==> t.status[d] == s.status[d])
    requires forall key: EventKey :: key.execution != e ==> (key in t.outbox <==> key in s.outbox)
    ensures OutcomesFit(t)
  {
    forall d ensures OutcomeFits(t, d) {
      assert OutcomeFits(s, d);
    }
  }

  lemma TimelineKept(s: State, t: State)
    requires TimelineFits(s) && t.log == s.log && t.inFlight == s.inFlight && t.lost == s.lost
             && t.timeline == s.timeline
    ensures TimelineFits(t)
  {
  }

  lemma TimelineHandedOver(s: State, m: Message, enqueued: bool)
    requires TimelineFits(s)
    ensures TimelineFits(HandOver(s, m, enqueued))
  {
    var t := HandOver(s, m, enqueued);
    forall x | x in s.log ensures x in t.log {
    }
    assert t.log[|s.log|] == m;
  }

  // ---- Commands and processes ----

  /** Nothing about commands changed, and one process moved on without being replaced. */
  ghost predicate OneMoved(s: State, t: State, p: ProcessId, next: Pc) {
    && p in s.processes && t.commands == s.commands && t.requested == s.requested
    && t.processes == s.processes[p := s.processes[p].(pc := next)]
  }

  lemma ProcessKept(orders: Orders, s: State, t: State, p: ProcessId)
    requires ProcessFits(orders, s, p) && Extends(s, t) && p in s.processes && p in t.processes
             && t.processes[p] == s.processes[p]
    requires var c := s.processes[p].command;
             c.Some? && c.value in s.commands ==>
               c.value in t.commands && t.commands[c.value].place == s.commands[c.value].place
               && t.commands[c.value].execution == s.commands[c.value].execution
    ensures ProcessFits(orders, t, p)
  {
    var e := s.processes[p].execution;
    ExtendsTeaches(s, t, e);
    PcFitsMonotone(orders(e), e, KnownOf(s, e), KnownOf(t, e), s.processes[p].pc);
  }

  lemma ProcessesMoved(orders: Orders, s: State, t: State, p: ProcessId, next: Pc)
    requires ProcessesFit(orders, s) && Extends(s, t) && OneMoved(s, t, p, next)
    requires var e := s.processes[p].execution; PcFits(orders(e), e, KnownOf(t, e), next)
    ensures ProcessesFit(orders, t)
  {
    forall q ensures ProcessFits(orders, t, q) {
      assert ProcessFits(orders, s, q);
      if q in t.processes && q != p {
        ProcessKept(orders, s, t, q);
      }
    }
  }

  lemma CommandsMoved(s: State, t: State, p: ProcessId, next: Pc)
    requires CommandsFit(s) && OneMoved(s, t, p, next)
    ensures CommandsFit(t)
  {
    forall c ensures CommandFits(t, c) {
      assert CommandFits(s, c);
    }
  }

  lemma LiveStays(s: State, t: State, e: ExecutionId)
    requires NotOrphaned(s, e) && e in s.requested && (Ended(s, e) ==> Ended(t, e))
    requires forall c :: LiveFor(s, e, c) ==> LiveFor(t, e, c)
    ensures NotOrphaned(t, e)
  {
    if !Ended(t, e) {
      var c :| LiveFor(s, e, c);
      assert LiveFor(t, e, c);
    }
  }

  lemma NoneOrphanedMoved(s: State, t: State, p: ProcessId, next: Pc)
    requires NoneOrphaned(s) && Extends(s, t) && OneMoved(s, t, p, next) && !next.AckReplaced?
    ensures NoneOrphaned(t)
  {
    forall e ensures NotOrphaned(t, e) {
      assert NotOrphaned(s, e);
      if e in s.requested {
        LiveStays(s, t, e);
      }
    }
  }

  lemma DeadLettersKept(s: State, t: State)
    requires DeadLettersEnded(s) && Extends(s, t) && t.deadLetters == s.deadLetters
    ensures DeadLettersEnded(t)
  {
  }

  /** What a step that leaves commands alone has to show. */
  lemma MovedKeepsControl(orders: Orders, s: State, t: State, p: ProcessId, next: Pc)
    requires Inv(orders, s) && Extends(s, t) && OneMoved(s, t, p, next) && !next.AckReplaced?
             && t.deadLetters == s.deadLetters
    requires var e := s.processes[p].execution; PcFits(orders(e), e, KnownOf(t, e), next)
    ensures ControlFits(orders, t)
  {
    CommandsMoved(s, t, p, next);
    ProcessesMoved(orders, s, t, p, next);
    NoneOrphanedMoved(s, t, p, next);
    DeadLettersKept(s, t);
  }

  // ---- Where a process may go next ----

  lemma Relearn(kn: Known, key: EventKey)
    requires key in kn.published
    ensures Learn(kn, key) == kn
  {
    assert kn.published + {key} == kn.published;
  }

  /** What an execution's status says about its rows, for processes that look it up. */
  ghost predicate StatusKnown(e: ExecutionId, status: Option<ExecutionStatus>, kn: Known) {
    && (kn.stored <==> status.Some?)
    && (kn.begun <==> status.Some? && !status.value.StatusPending?)
    && (kn.ended <==> status.Some? && IsTerminal(status.value))
    && (status == Some(StatusRunning) ==> WorkflowStarted(e) in kn.messages)
  }

  lemma StatusIsKnown(s: State, e: ExecutionId)
    requires OutcomesFit(s)
    ensures StatusKnown(e, StatusOf(s, e), KnownOf(s, e))
  {
    assert OutcomeFits(s, e);
  }

  lemma LookupFits(order: seq<NodeId>, e: ExecutionId, kn: Known, status: Option<ExecutionStatus>, attempt: nat,
                   pc: Pc, next: Pc)
    requires StatusKnown(e, status, kn) && PcFits(order, e, kn, pc) && Moves(order, status, attempt, pc, next)
    requires pc.Load? || pc.BeginTx? || pc.Reload?
    ensures PcFits(order, e, kn, next) && !next.AckReplaced?
  {
  }

  lemma EndLookupFits(order: seq<NodeId>, e: ExecutionId, kn: Known, status: Option<ExecutionStatus>, attempt: nat,
                      pc: Pc, next: Pc)
    requires StatusKnown(e, status, kn) && PcFits(order, e, kn, pc) && Moves(order, status, attempt, pc, next)
    requires pc.CompletionReload? || pc.FailTx? || pc.FailReload?
    ensures PcFits(order, e, kn, next) && !next.AckReplaced?
  {
  }

  lemma WorkFits(order: seq<NodeId>, e: ExecutionId, kn: Known, status: Option<ExecutionStatus>, attempt: nat, pc: Pc,
                 next: Pc)
    requires PcFits(order, e, kn, pc) && Moves(order, status, attempt, pc, next)
    requires pc.RunNodes? || pc.ExecuteNode? || pc.CompleteTx? || pc.Catch?
    ensures PcFits(order, e, kn, next) && !next.AckReplaced?
  {
  }

  lemma MoveFits(order: seq<NodeId>, e: ExecutionId, kn: Known, status: Option<ExecutionStatus>, attempt: nat, pc: Pc,
                 next: Pc)
    requires StatusKnown(e, status, kn) && PcFits(order, e, kn, pc) && Moves(order, status, attempt, pc, next)
    ensures PcFits(order, e, kn, next) && !next.AckReplaced?
  {
    match pc
    case Load | BeginTx | Reload =>
      LookupFits(order, e, kn, status, attempt, pc, next);
    case CompletionReload | FailTx | FailReload =>
      EndLookupFits(order, e, kn, status, attempt, pc, next);
    case RunNodes(_) | ExecuteNode(_) | CompleteTx | Catch(_) =>
      WorkFits(order, e, kn, status, attempt, pc, next);
    case Flushing(_, _, _) => FlushingMoveFits(order, e, kn, status, attempt, pc, next);
    case Send(_, _, _) => SkipFits(order, e, kn, status, attempt, pc, next);
    case _ =>
  }

  lemma FlushingMoveFits(order: seq<NodeId>, e: ExecutionId, kn: Known, status: Option<ExecutionStatus>, attempt: nat,
                         pc: Pc, next: Pc)
    requires PcFits(order, e, kn, pc) && pc.Flushing? && Moves(order, status, attempt, pc, next)
    ensures PcFits(order, e, kn, next) && !next.AckReplaced?
  {
    if pc.snapshots == [] {
      NothingToLearn(kn);
    } else {
      FlushingFits(order, e, kn, pc.snapshots, pc.after, pc.onThrow);
    }
  }

  /** A copy that says it was published is not published again, and that is no loss. */
  lemma SkipFits(order: seq<NodeId>, e: ExecutionId, kn: Known, status: Option<ExecutionStatus>, attempt: nat, pc: Pc,
                 next: Pc)
    requires PcFits(order, e, kn, pc) && pc.Send? && Moves(order, status, attempt, pc, next)
    ensures PcFits(order, e, kn, next) && !next.AckReplaced?
  {
    Relearn(kn, pc.snapshot.message.key);
  }

  lemma FlushingFits(order: seq<NodeId>, e: ExecutionId, kn: Known, snapshots: seq<OutboxRow>, after: Pc, onThrow: Pc)
    requires PcFits(order, e, kn, Flushing(snapshots, after, onThrow)) && snapshots != []
    ensures PcFits(order, e, kn, Send(snapshots[0], Flushing(snapshots[1..], after, onThrow), onThrow))
  {
    var more := Learn(kn, snapshots[0].message.key);
    PcFitsMonotone(order, e, kn, more, Flushing(snapshots, after, onThrow));
    LearnRest(kn, snapshots);
    assert PcFits(order, e, more, Flushing(snapshots[1..], after, onThrow));
  }

  lemma LearnRest(kn: Known, rows: seq<OutboxRow>)
    requires rows != []
    ensures LearnAll(Learn(kn, rows[0].message.key), rows[1..]) == LearnAll(kn, rows)
  {
    assert rows == [rows[0]] + rows[1..];
    var rest := set row | row in rows[1..] :: row.message.key;
    assert (set row | row in rows :: row.message.key) == {rows[0].message.key} + rest;
    assert kn.published + ({rows[0].message.key} + rest) == (kn.published + {rows[0].message.key}) + rest;
  }

  lemma NothingToLearn(kn: Known)
    ensures LearnAll(kn, []) == kn
  {
    assert kn.published + (set row: OutboxRow | row in [] :: row.message.key) == kn.published;
  }

  lemma HandlerFits(order: seq<NodeId>, e: ExecutionId, kn: Known, pc: Pc, retryable: bool)
    requires PcFits(order, e, kn, pc) && Handler(pc, retryable).Some?
    ensures PcFits(order, e, kn, Handler(pc, retryable).value) && !Handler(pc, retryable).value.AckReplaced?
  {
  }

  /** The events that must precede a new row's event have been published when the row is written. */
  lemma PersistedInOrder(order: seq<NodeId>, e: ExecutionId, kn: Known, pc: Pc)
    requires PcFits(order, e, kn, pc) && PersistedKey(order, e, pc).Some?
    ensures PredecessorsPublished(order, PersistedKey(order, e, pc).value, kn.published)
    ensures IsNodeEvent(PersistedKey(order, e, pc).value) ==> WorkflowStarted(e) in kn.messages
  {
  }

  lemma SendFits(order: seq<NodeId>, e: ExecutionId, kn: Known, row: OutboxRow, after: Pc, onThrow: Pc)
    requires SnapshotFits(kn, row) && Resumable(after, onThrow)
    requires PcFits(order, e, Learn(kn, row.message.key), after) && PcFits(order, e, kn, onThrow)
    ensures PcFits(order, e, kn, Send(row, after, onThrow))
  {
  }

  lemma DispatchFits(order: seq<NodeId>, e: ExecutionId, kn: Known, pc: Pc, row: OutboxRow)
    requires PcFits(order, e, kn, pc) && SnapshotFits(kn, row) && kn.stored
    requires PersistedKey(order, e, pc) == Some(row.message.key)
    requires pc.CompleteTx? || pc.FailTx? ==> kn.ended
    ensures PcFits(order, e, kn, DispatchAfter(pc, row)) && !DispatchAfter(pc, row).AckReplaced?
  {
    var next := DispatchAfter(pc, row);
    AfterDispatchFits(order, e, kn, pc, row);
    SendFits(order, e, kn, row, next.after, next.onThrow);
  }

  lemma AfterDispatchFits(order: seq<NodeId>, e: ExecutionId, kn: Known, pc: Pc, row: OutboxRow)
    requires PcFits(order, e, kn, pc) && SnapshotFits(kn, row) && kn.stored
    requires PersistedKey(order, e, pc) == Some(row.message.key)
    requires pc.CompleteTx? || pc.FailTx? ==> kn.ended
    ensures DispatchAfter(pc, row).Send? && DispatchAfter(pc, row).snapshot == row
    ensures var next := DispatchAfter(pc, row);
            Resumable(next.after, next.onThrow)
            && PcFits(order, e, Learn(kn, row.message.key), next.after) && PcFits(order, e, kn, next.onThrow)
  {
    match pc
    case PersistNodeStarted(_) =>
    case PersistNodeCompleted(_) =>
    case _ =>
  }

  // ---- The steps ----

  lemma CurrentlyFits(orders: Orders, s: State, p: ProcessId)
    requires Inv(orders, s) && p in s.processes
    ensures var e := s.processes[p].execution;
            PcFits(orders(e), e, KnownOf(s, e), s.processes[p].pc) && StatusKnown(e, StatusOf(s, e), KnownOf(s, e))
    ensures s.processes[p].command.Some? ==>
              HoldsCommand(s, p)
              && s.commands[s.processes[p].command.value].place == Unacked(p)
              && s.commands[s.processes[p].command.value].execution == s.processes[p].execution
  {
    assert ProcessFits(orders, s, p);
    StatusIsKnown(s, s.processes[p].execution);
  }

  /** A step that moves one process and writes nothing. */
  lemma GotoKeepsInv(orders: Orders, s: State, p: ProcessId, next: Pc)
    requires Inv(orders, s) && p in s.processes && !next.AckReplaced?
    requires var e := s.processes[p].execution; PcFits(orders(e), e, KnownOf(s, e), next)
    ensures Maintained(orders, s, Goto(s, p, next))
  {
    var t := Goto(s, p, next);
    SameDataKept(orders, s, t);
    MovedKeepsControl(orders, s, t, p, next);
  }

  /** A step that leaves rows, log, statuses and timeline alone. */
  ghost predicate SameData(s: State, t: State) {
    && t.status == s.status && t.outbox == s.outbox && t.log == s.log
    && t.inFlight == s.inFlight && t.lost == s.lost && t.gaveUp == s.gaveUp && t.timeline == s.timeline
  }

  lemma SameDataKept(orders: Orders, s: State, t: State)
    requires Inv(orders, s) && SameData(s, t)
    ensures DataFits(orders, t) && Extends(s, t)
  {
    RowsKept(orders, s, t);
    LogKept(orders, s, t);
    OutcomesKept(s, t);
    TimelineKept(s, t);
  }

  lemma MoveKeepsInv(orders: Orders, s: State, t: State, p: ProcessId, next: Pc)
    requires Inv(orders, s) && NextStep(orders, s, t, Move(p, next))
    ensures Maintained(orders, s, t)
  {
    CurrentlyFits(orders, s, p);
    var e := s.processes[p].execution;
    MoveFits(orders(e), e, KnownOf(s, e), StatusOf(s, e), AttemptOf(s, p), s.processes[p].pc, next);
    GotoKeepsInv(orders, s, p, next);
  }

  lemma ThrowKeepsInv(orders: Orders, s: State, t: State, p: ProcessId, retryable: bool)
    requires Inv(orders, s) && NextStep(orders, s, t, Throw(p, retryable))
    ensures Maintained(orders, s, t)
  {
    CurrentlyFits(orders, s, p);
    var e := s.processes[p].execution;
    HandlerFits(orders(e), e, KnownOf(s, e), s.processes[p].pc, retryable);
    GotoKeepsInv(orders, s, p, Handler(s.processes[p].pc, retryable).value);
  }

  /** An up-to-date copy of a row is a fitting one. */
  lemma RowIsSnapshot(orders: Orders, s: State, e: ExecutionId, key: EventKey)
    requires RowsFit(orders, s) && key in s.outbox
    ensures SnapshotFits(KnownOf(s, e), s.outbox[key]) && s.outbox[key].message.key == key && key.execution in s.status
  {
    assert RowFits(orders, s, key);
  }

  /** An ended execution's outcome row is fetched, unless it was published or given up before. */
  lemma FetchSettles(orders: Orders, s: State, e: ExecutionId, snapshots: seq<OutboxRow>)
    requires RowsFit(orders, s) && OutcomesFit(s) && Ended(s, e) && IsFetchResult(s, e, snapshots)
    ensures Settled(e, LearnAll(KnownOf(s, e), snapshots))
  {
    assert OutcomeFits(s, e);
    var key := if s.status[e].StatusSucceeded? then WorkflowCompleted(e) else WorkflowFailed(e);
    assert RowFits(orders, s, key);
    if s.outbox[key].status == PENDING {
      assert s.outbox[key] in snapshots;
    }
  }

  lemma FetchFits(orders: Orders, s: State, p: ProcessId, snapshots: seq<OutboxRow>)
    requires Inv(orders, s) && p in s.processes && s.processes[p].pc.Flush?
             && IsFetchResult(s, s.processes[p].execution, snapshots)
    ensures var e, pc := s.processes[p].execution, s.processes[p].pc;
            PcFits(orders(e), e, KnownOf(s, e), Flushing(snapshots, pc.after, pc.onThrow))
  {
    CurrentlyFits(orders, s, p);
    var e := s.processes[p].execution;
    FetchSettles(orders, s, e, snapshots);
    forall row | row in snapshots ensures SnapshotFits(KnownOf(s, e), row) {
      var i :| 0 <= i < |snapshots| && snapshots[i] == row;
      RowIsSnapshot(orders, s, e, snapshots[i].message.key);
    }
  }

  lemma FetchKeepsInv(orders: Orders, s: State, t: State, p: ProcessId, snapshots: seq<OutboxRow>)
    requires Inv(orders, s) && NextStep(orders, s, t, Fetch(p, snapshots))
    ensures Maintained(orders, s, t)
  {
    FetchFits(orders, s, p, snapshots);
    GotoKeepsInv(orders, s, p, Flushing(snapshots, s.processes[p].pc.after, s.processes[p].pc.onThrow));
  }

  // ---- Writing a row ----

  lemma PersistExtends(orders: Orders, s: State, t: State, p: ProcessId, eventId: EventId, body: string)
    requires p in s.processes && PersistStep(orders, s, t, p, eventId, body)
    ensures Extends(s, t)
  {
  }

  lemma PersistedKeyBelongs(order: seq<NodeId>, e: ExecutionId, pc: Pc)
    requires PersistedKey(order, e, pc).Some?
    ensures PersistedKey(order, e, pc).value.execution == e
  {
  }

  lemma PersistKeepsRows(orders: Orders, s: State, t: State, p: ProcessId, eventId: EventId, body: string)
    requires Inv(orders, s) && p in s.processes && PersistStep(orders, s, t, p, eventId, body) && Extends(s, t)
    ensures RowsFit(orders, t) && EventIdsUnique(t.outbox) && LogFits(orders, t)
  {
    CurrentlyFits(orders, s, p);
    var e, pc := s.processes[p].execution, s.processes[p].pc;
    PersistedInOrder(orders(e), e, KnownOf(s, e), pc);
    PersistedKeyBelongs(orders(e), e, pc);
    PersistNeedsExecution(orders, s, p);
    RowAdded(orders, s, t, Message(eventId, PersistedKey(orders(e), e, pc).value, body));
    LogKept(orders, s, t);
  }

  lemma PersistNeedsExecution(orders: Orders, s: State, p: ProcessId)
    requires Inv(orders, s) && p in s.processes
    requires var e, pc := s.processes[p].execution, s.processes[p].pc;
             PersistedKey(orders(e), e, pc).Some? && MayPersist(StatusOf(s, e), pc)
    ensures s.processes[p].execution in s.status
  {
    CurrentlyFits(orders, s, p);
  }

  /** The outcome rows and the status change together. */
  lemma PersistKeepsOutcomes(orders: Orders, s: State, t: State, p: ProcessId, eventId: EventId, body: string)
    requires Inv(orders, s) && p in s.processes && PersistStep(orders, s, t, p, eventId, body)
    ensures OutcomesFit(t)
  {
    CurrentlyFits(orders, s, p);
    var e, pc := s.processes[p].execution, s.processes[p].pc;
    WriteKeepsOutcomes(orders(e), s, t, e, KnownOf(s, e), pc);
  }

  lemma WriteKeepsOutcomes(order: seq<NodeId>, s: State, t: State, e: ExecutionId, kn: Known, pc: Pc)
    requires OutcomesFit(s) && kn.messages == MessagesOf(s.outbox) && PcFits(order, e, kn, pc)
    requires PersistedKey(order, e, pc).Some? && MayPersist(StatusOf(s, e), pc)
             && t.status == StatusAfter(s.status, e, pc)
    requires t.outbox.Keys == s.outbox.Keys + {PersistedKey(order, e, pc).value}
    ensures OutcomesFit(t)
  {
    PersistedKeyBelongs(order, e, pc);
    assert OutcomeFits(s, e);
    OutcomeWritten(s, t, e, pc, PersistedKey(order, e, pc).value);
    OutcomesKeptElsewhere(s, t, e);
  }

  lemma OutcomeWritten(s: State, t: State, e: ExecutionId, pc: Pc, key: EventKey)
    requires OutcomeFits(s, e) && MayPersist(StatusOf(s, e), pc) && t.status == StatusAfter(s.status, e, pc)
    requires t.outbox.Keys == s.outbox.Keys + {key} && key.execution == e
    requires match pc
             case BeginTx => key.WorkflowStarted?
             case PersistStarted => key.WorkflowStarted? && key in s.outbox
             case CompleteTx => key.WorkflowCompleted?
             case FailTx => key.WorkflowFailed?
             case _ => IsNodeEvent(key)
    ensures OutcomeFits(t, e)
  {
  }

  lemma PersistFits(orders: Orders, s: State, t: State, p: ProcessId, eventId: EventId, body: string)
    requires Inv(orders, s) && p in s.processes && PersistStep(orders, s, t, p, eventId, body) && Extends(s, t)
             && RowsFit(orders, t)
    ensures var e, pc := s.processes[p].execution, s.processes[p].pc;
            var row := t.outbox[PersistedKey(orders(e), e, pc).value];
            PcFits(orders(e), e, KnownOf(t, e), DispatchAfter(pc, row)) && !DispatchAfter(pc, row).AckReplaced?
  {
    CurrentlyFits(orders, s, p);
    var e, pc := s.processes[p].execution, s.processes[p].pc;
    var key := PersistedKey(orders(e), e, pc).value;
    PersistNeedsExecution(orders, s, p);
    ExtendsTeaches(s, t, e);
    PcFitsMonotone(orders(e), e, KnownOf(s, e), KnownOf(t, e), pc);
    RowIsSnapshot(orders, t, e, key);
    DispatchFits(orders(e), e, KnownOf(t, e), pc, t.outbox[key]);
  }

  lemma PersistKeepsInv(orders: Orders, s: State, t: State, p: ProcessId, eventId: EventId, body: string)
    requires Inv(orders, s) && NextStep(orders, s, t, Persist(p, eventId, body))
    ensures Maintained(orders, s, t)
  {
    PersistExtends(orders, s, t, p, eventId, body);
    PersistKeepsRows(orders, s, t, p, eventId, body);
    PersistKeepsOutcomes(orders, s, t, p, eventId, body);
    PersistFits(orders, s, t, p, eventId, body);
    TimelineKept(s, t);
    MovedKeepsControl(orders, s, t, p, t.processes[p].pc);
  }

  // ---- Publishing a row and recording how that went ----

  lemma PublishFits(orders: Orders, s: State, t: State, p: ProcessId, accepted: bool)
    requires Inv(orders, s) && p in s.processes && s.processes[p].pc.Send?
             && s.processes[p].pc.snapshot.status != PUBLISHED
    requires Extends(s, t) && (accepted ==> s.processes[p].pc.snapshot.message.key in PublishedKeys(t.log))
    ensures var e, pc := s.processes[p].execution, s.processes[p].pc;
            PcFits(orders(e), e, KnownOf(t, e), Mark(pc.snapshot, accepted, pc.after, pc.onThrow))
  {
    CurrentlyFits(orders, s, p);
    var e, pc := s.processes[p].execution, s.processes[p].pc;
    ExtendsTeaches(s, t, e);
    PcFitsMonotone(orders(e), e, KnownOf(s, e), KnownOf(t, e), pc);
  }

  lemma HandOverKeepsData(orders: Orders, s: State, t: State, m: Message, enqueued: bool)
    requires Inv(orders, s) && m.key in s.outbox && s.outbox[m.key].message == m
    requires SameData(HandOver(s, m, enqueued), t)
    ensures Extends(s, t) && m.key in PublishedKeys(t.log)
    ensures DataFits(orders, t)
  {
    assert t.log[|s.log|] == m;
    RowsKept(orders, s, t);
    LogExtended(orders, s, t, m);
    OutcomesKept(s, t);
    TimelineHandedOver(s, m, enqueued);
    TimelineKept(HandOver(s, m, enqueued), t);
  }

  lemma SentIsStored(orders: Orders, s: State, p: ProcessId)
    requires Inv(orders, s) && p in s.processes && (s.processes[p].pc.Send? || s.processes[p].pc.Mark?)
    ensures var snapshot := s.processes[p].pc.snapshot;
            snapshot.message.key in s.outbox && s.outbox[snapshot.message.key].message == snapshot.message
    ensures AttemptsFit(s.processes[p].pc.snapshot)
  {
    CurrentlyFits(orders, s, p);
  }

  lemma PublishKeepsInv(orders: Orders, s: State, t: State, p: ProcessId, result: PublishResult, handedOver: bool,
                        enqueued: bool)
    requires Inv(orders, s) && NextStep(orders, s, t, Publish(p, result, handedOver, enqueued))
    ensures Maintained(orders, s, t)
  {
    var pc := s.processes[p].pc;
    SentIsStored(orders, s, p);
    if handedOver {
      HandOverKeepsData(orders, s, t, pc.snapshot.message, enqueued);
    } else {
      SameDataKept(orders, s, t);
    }
    PublishFits(orders, s, t, p, result == Delivered);
    MovedKeepsControl(orders, s, t, p, Mark(pc.snapshot, result == Delivered, pc.after, pc.onThrow));
  }

  lemma RecordFits(orders: Orders, s: State, p: ProcessId)
    requires Inv(orders, s) && p in s.processes && s.processes[p].pc.Mark?
    ensures var e, pc := s.processes[p].execution, s.processes[p].pc;
            var next := if pc.accepted then pc.after else pc.onThrow;
            PcFits(orders(e), e, KnownOf(s, e), next) && !next.AckReplaced?
    ensures s.processes[p].pc.accepted ==> s.processes[p].pc.snapshot.message.key in PublishedKeys(s.log)
    ensures s.processes[p].pc.snapshot.status != PUBLISHED
  {
    CurrentlyFits(orders, s, p);
    var e, pc := s.processes[p].execution, s.processes[p].pc;
    if pc.accepted {
      Relearn(KnownOf(s, e), pc.snapshot.message.key);
    }
  }

  lemma RemarkKeepsData(orders: Orders, s: State, t: State, key: EventKey, row: OutboxRow)
    requires Inv(orders, s) && key in s.outbox && SameData(s.(outbox := s.outbox[key := row], gaveUp := t.gaveUp), t)
    requires row.message == s.outbox[key].message && AttemptsFit(row)
             && (row.status == PUBLISHED ==> key in PublishedKeys(s.log))
    requires s.gaveUp <= t.gaveUp <= s.gaveUp + {key} && (row.status == FAILED ==> key in t.gaveUp)
    ensures Extends(s, t)
    ensures DataFits(orders, t)
  {
    RowRemarked(orders, s, t, key, row);
    LogKept(orders, s, t);
    OutcomesKept(s, t);
    TimelineKept(s, t);
  }

  lemma RecordKeepsData(orders: Orders, s: State, t: State, p: ProcessId)
    requires Inv(orders, s) && p in s.processes && RecordStep(s, t, p)
    ensures Extends(s, t)
    ensures DataFits(orders, t)
  {
    var key := s.processes[p].pc.snapshot.message.key;
    SentIsStored(orders, s, p);
    RecordFits(orders, s, p);
    RemarkKeepsData(orders, s, t, key, t.outbox[key]);
  }

  lemma RecordKeepsInv(orders: Orders, s: State, t: State, p: ProcessId)
    requires Inv(orders, s) && NextStep(orders, s, t, RecordPublish(p))
    ensures Maintained(orders, s, t)
  {
    var e, pc := s.processes[p].execution, s.processes[p].pc;
    RecordKeepsData(orders, s, t, p);
    RecordFits(orders, s, p);
    var next := if pc.accepted then pc.after else pc.onThrow;
    ExtendsTeaches(s, t, e);
    PcFitsMonotone(orders(e), e, KnownOf(s, e), KnownOf(t, e), next);
    MovedKeepsControl(orders, s, t, p, next);
  }

  // ---- Commands ----

  /** Every process of t was there before, with its command where it was; all but p are unchanged. */
  lemma ProcessesStay(orders: Orders, s: State, t: State, p: ProcessId)
    requires ProcessesFit(orders, s) && Extends(s, t) && ProcessFits(orders, t, p)
    requires forall q :: q in t.processes && q != p ==> q in s.processes && t.processes[q] == s.processes[q]
    requires forall q, c :: q in t.processes && q != p && c in s.commands && s.commands[c].place == Unacked(q) ==>
                              c in t.commands && t.commands[c] == s.commands[c]
    ensures ProcessesFit(orders, t)
  {
    forall q ensures ProcessFits(orders, t, q) {
      if q in t.processes && q != p {
        assert ProcessFits(orders, s, q);
        ProcessKept(orders, s, t, q);
      }
    }
  }

  lemma CreateKeepsInv(orders: Orders, s: State, t: State, e: ExecutionId)
    requires Inv(orders, s) && NextStep(orders, s, t, CreateExecution(e))
    ensures Maintained(orders, s, t)
  {
    RowsKept(orders, s, t);
    LogKept(orders, s, t);
    assert OutcomeFits(s, e);
    OutcomesKeptElsewhere(s, t, e);
    TimelineKept(s, t);
    ControlKept(orders, s, t);
  }

  /** Commands, processes and requests as they were. */
  lemma ControlKept(orders: Orders, s: State, t: State)
    requires Inv(orders, s) && Extends(s, t)
    requires t.commands == s.commands && t.processes == s.processes && t.requested == s.requested
             && t.deadLetters == s.deadLetters
    ensures ControlFits(orders, t)
  {
    forall c ensures CommandFits(t, c) {
      assert CommandFits(s, c);
    }
    forall p ensures ProcessFits(orders, t, p) {
      assert ProcessFits(orders, s, p);
      if p in t.processes {
        ProcessKept(orders, s, t, p);
      }
    }
    forall e ensures NotOrphaned(t, e) {
      assert NotOrphaned(s, e);
      if e in s.requested {
        LiveStays(s, t, e);
      }
    }
  }

  lemma TimelineIngests(s: State, t: State, m: Message)
    requires TimelineFits(s) && m in s.inFlight
    requires t.log == s.log && t.lost == s.lost
    requires
      || (t.inFlight == s.inFlight && t.timeline == Recorded(s.timeline, m))
      || (t.timeline == s.timeline && m.eventId in s.timeline && t.inFlight == s.inFlight - multiset{m})
    ensures TimelineFits(t)
  {
    forall x | x in t.log ensures x in t.inFlight || x.eventId in t.timeline || x in t.lost {
    }
  }

  ghost predicate EventMoved(s: State, t: State, m: Message) {
    || t == s.(timeline := Recorded(s.timeline, m))
    || (m.eventId in s.timeline && t == s.(inFlight := s.inFlight - multiset{m}))
  }

  lemma EventKeepsData(orders: Orders, s: State, t: State, m: Message)
    requires Inv(orders, s) && m in s.inFlight && EventMoved(s, t, m)
    ensures DataFits(orders, t) && Extends(s, t)
  {
    TimelineIngests(s, t, m);
    RowsKept(orders, s, t);
    LogKept(orders, s, t);
    OutcomesKept(s, t);
  }

  lemma IngestKeepsInv(orders: Orders, s: State, t: State, m: Message)
    requires Inv(orders, s) && (NextStep(orders, s, t, Ingest(m)) || NextStep(orders, s, t, AckEvent(m)))
    ensures Maintained(orders, s, t)
  {
    EventKeepsData(orders, s, t, m);
    ControlKept(orders, s, t);
  }

  /** Commands may be added, put back or removed, as long as no execution loses its last live one. */
  ghost predicate LivePreserved(s: State, t: State) {
    && t.requested == s.requested
    && forall e, c :: LiveFor(s, e, c) && !Ended(s, e) ==> exists d :: LiveFor(t, e, d)
  }

  lemma NoneOrphanedKept(s: State, t: State)
    requires NoneOrphaned(s) && Extends(s, t) && LivePreserved(s, t)
    ensures NoneOrphaned(t)
  {
    forall e ensures NotOrphaned(t, e) {
      assert NotOrphaned(s, e);
      if e in s.requested && !Ended(t, e) {
        assert !Ended(s, e);
        var c :| LiveFor(s, e, c);
      }
    }
  }

  lemma RequestKeepsInv(orders: Orders, s: State, t: State, e: ExecutionId, c: CommandId, header: Header)
    requires Inv(orders, s) && NextStep(orders, s, t, RequestExecution(e, c, header))
    ensures Maintained(orders, s, t)
  {
    SameDataKept(orders, s, t);
    forall d ensures CommandFits(t, d) {
      assert CommandFits(s, d);
    }
    forall p ensures ProcessFits(orders, t, p) {
      assert ProcessFits(orders, s, p);
      if p in t.processes {
        ProcessKept(orders, s, t, p);
      }
    }
    assert LiveFor(t, e, c);
    forall d ensures NotOrphaned(t, d) {
      assert NotOrphaned(s, d);
      if d in s.requested {
        forall x | LiveFor(s, d, x) ensures LiveFor(t, d, x) {
        }
        LiveStays(s, t, d);
      }
    }
  }

  /** A queued command has no holder, so its place may change. */
  lemma PlaceChanged(orders: Orders, s: State, t: State, c: CommandId, place: Place)
    requires Inv(orders, s) && SameData(s, t) && t.requested == s.requested && t.deadLetters == s.deadLetters
    requires c in s.commands && !s.commands[c].place.Unacked?
    requires t.commands == s.commands[c := s.commands[c].(place := place)]
    requires place.Unacked? ==> place.holder !in s.processes && place.holder in t.processes
                                && t.processes[place.holder] == Process(Some(c), s.commands[c].execution, Load)
    requires forall q :: q in s.processes ==> q in t.processes && t.processes[q] == s.processes[q]
    requires forall q :: q in t.processes && q !in s.processes ==> place == Unacked(q)
    ensures Maintained(orders, s, t)
  {
    SameDataKept(orders, s, t);
    forall d ensures CommandFits(t, d) {
      assert CommandFits(s, d) && CommandFits(s, c);
    }
    forall p ensures ProcessFits(orders, t, p) {
      assert ProcessFits(orders, s, p);
      if p in s.processes {
        ProcessKept(orders, s, t, p);
      }
    }
    forall e, d | LiveFor(s, e, d) ensures LiveFor(t, e, d) {
      assert CommandFits(s, d);
    }
    assert LivePreserved(s, t);
    NoneOrphanedKept(s, t);
  }

  /** A new process without a command. */
  lemma ProcessAdded(orders: Orders, s: State, t: State, p: ProcessId)
    requires Inv(orders, s) && SameData(s, t) && ProcessFits(orders, t, p)
    requires p !in s.processes && p in t.processes && t.processes == s.processes[p := t.processes[p]]
    requires t.commands == s.commands && t.requested == s.requested && t.deadLetters == s.deadLetters
    ensures Maintained(orders, s, t)
  {
    SameDataKept(orders, s, t);
    ProcessesStay(orders, s, t, p);
    forall c ensures CommandFits(t, c) {
      assert CommandFits(s, c);
    }
    forall e, c | LiveFor(s, e, c) ensures LiveFor(t, e, c) {
      assert CommandFits(s, c);
    }
    assert LivePreserved(s, t);
    NoneOrphanedKept(s, t);
  }

  lemma DispatcherFits(orders: Orders, s: State, t: State, p: ProcessId, key: EventKey)
    requires RowsFit(orders, s) && SameData(s, t) && key in s.outbox
    requires p in t.processes && t.processes[p] == Process(None, key.execution, Send(s.outbox[key], Halt, Halt))
    ensures ProcessFits(orders, t, p)
  {
    var e := key.execution;
    RowIsSnapshot(orders, s, e, key);
    assert KnownOf(t, e) == KnownOf(s, e);
    SendFits(orders(e), e, KnownOf(t, e), s.outbox[key], Halt, Halt);
  }

  lemma DispatcherKeepsInv(orders: Orders, s: State, t: State, p: ProcessId, key: EventKey)
    requires Inv(orders, s) && NextStep(orders, s, t, StartDispatcher(p, key))
    ensures Maintained(orders, s, t)
  {
    DispatcherFits(orders, s, t, p, key);
    ProcessAdded(orders, s, t, p);
  }

  /** Only events of stored executions are published, so none is ever rejected. */
  lemma NothingToReject(orders: Orders, s: State, m: Message)
    requires Inv(orders, s) && m in s.inFlight
    ensures m.key.execution in s.status
  {
    var i :| 0 <= i < |s.log| && s.log[i] == m;
    assert EntryFits(orders, s, i);
    assert RowFits(orders, s, m.key);
  }

  lemma DeliverKeepsInv(orders: Orders, s: State, t: State, p: ProcessId, c: CommandId)
    requires Inv(orders, s) && NextStep(orders, s, t, Deliver(p, c))
    ensures Maintained(orders, s, t)
  {
    PlaceChanged(orders, s, t, c, Unacked(p));
  }

  lemma RetryExpiresKeepsInv(orders: Orders, s: State, t: State, c: CommandId)
    requires Inv(orders, s) && NextStep(orders, s, t, RetryExpires(c))
    ensures Maintained(orders, s, t)
  {
    PlaceChanged(orders, s, t, c, Queued);
  }

  lemma RetriedHistory(held: Command, retryable: bool)
    requires HistoryFits(held) && Decide(retryable, held.attempt).Retry?
    ensures var attempt := Decide(retryable, held.attempt).attempt;
            QueueFor(attempt).Some?
            && HistoryFits(Command(held.execution, attempt, held.origin, held.hops + 1,
                                   held.delayMs + QueueFor(attempt).value.ttlMs, Delayed))
  {
    RetryHasQueue(retryable, held.attempt);
  }

  /** The retry copy is live before the held command counts as replaced. */
  lemma RetryKeepsLive(orders: Orders, s: State, t: State, p: ProcessId, c: CommandId)
    requires Inv(orders, s) && p in s.processes && RetryStep(s, t, p, c)
    ensures LivePreserved(s, t)
  {
    CurrentlyFits(orders, s, p);
    var e := s.processes[p].execution;
    assert CommandFits(s, c);
    assert LiveFor(t, e, c);
    forall d, x | LiveFor(s, d, x) && !Ended(s, d) ensures exists y :: LiveFor(t, d, y) {
      if d != e {
        assert CommandFits(s, x);
        assert LiveFor(t, d, x);
      }
    }
  }

  lemma RetryKeepsCommands(orders: Orders, s: State, t: State, p: ProcessId, c: CommandId)
    requires Inv(orders, s) && p in s.processes && RetryStep(s, t, p, c)
    ensures CommandsFit(t)
  {
    CurrentlyFits(orders, s, p);
    var held := s.processes[p].command.value;
    assert CommandFits(s, held);
    RetriedHistory(s.commands[held], s.processes[p].pc.retryable);
    forall d ensures CommandFits(t, d) {
      assert CommandFits(s, d);
    }
  }

  lemma RetryKeepsInv(orders: Orders, s: State, t: State, p: ProcessId, c: CommandId)
    requires Inv(orders, s) && NextStep(orders, s, t, PublishRetry(p, c))
    ensures Maintained(orders, s, t)
  {
    SameDataKept(orders, s, t);
    RetryKeepsCommands(orders, s, t, p, c);
    RetryKeepsLive(orders, s, t, p, c);
    NoneOrphanedKept(s, t);
    assert ProcessFits(orders, s, p);
    ProcessesStay(orders, s, t, p);
  }

  lemma DeadLetterAdded(orders: Orders, s: State, d: Command)
    requires Inv(orders, s) && Ended(s, d.execution) && HistoryFits(d)
    ensures Inv(orders, s.(deadLetters := s.deadLetters + [d]))
  {
    var t := s.(deadLetters := s.deadLetters + [d]);
    SameDataKept(orders, s, t);
    forall p ensures ProcessFits(orders, t, p) {
      assert ProcessFits(orders, s, p);
    }
    forall c ensures CommandFits(t, c) {
      assert CommandFits(s, c);
    }
    forall e ensures NotOrphaned(t, e) {
      assert NotOrphaned(s, e);
      if e in s.requested {
        LiveStays(s, t, e);
      }
    }
  }

  /** Only commands of ended executions are dead-lettered. */
  lemma DeadLetterKeepsInv(orders: Orders, s: State, t: State, p: ProcessId)
    requires Inv(orders, s) && NextStep(orders, s, t, PublishDeadLetter(p))
    ensures Maintained(orders, s, t)
  {
    CurrentlyFits(orders, s, p);
    var c := s.processes[p].command.value;
    assert CommandFits(s, c);
    GotoKeepsInv(orders, s, p, Ack);
    DeadLetterAdded(orders, Goto(s, p, Ack), s.commands[c]);
  }

  // ---- The end of a process ----

  lemma ReleaseKeepsCommands(orders: Orders, s: State, p: ProcessId)
    requires Inv(orders, s) && p in s.processes
    ensures CommandsFit(Released(s, p)) && LivePreserved(s, Released(s, p))
  {
    var t := Released(s, p);
    CurrentlyFits(orders, s, p);
    forall c ensures CommandFits(t, c) {
      assert CommandFits(s, c);
    }
    forall e, c | LiveFor(s, e, c) ensures LiveFor(t, e, c) {
      assert CommandFits(s, c);
    }
  }

  /** A process is gone and its command, if any, is back in the queue. */
  lemma ReleaseKeepsInv(orders: Orders, s: State, p: ProcessId)
    requires Inv(orders, s) && p in s.processes
    ensures Maintained(orders, s, Released(s, p))
  {
    var t := Released(s, p);
    CurrentlyFits(orders, s, p);
    SameDataKept(orders, s, t);
    ReleaseKeepsCommands(orders, s, p);
    EndedProcess(orders, s, t, p);
    NoneOrphanedKept(s, t);
  }

  lemma EndedProcess(orders: Orders, s: State, t: State, p: ProcessId)
    requires ProcessesFit(orders, s) && Extends(s, t) && t.processes == s.processes - {p}
    requires forall c :: c in s.commands && s.commands[c].place != Unacked(p) ==>
             c in t.commands && t.commands[c] == s.commands[c]
    ensures ProcessesFit(orders, t)
  {
    ProcessesStay(orders, s, t, p);
  }

  /** Only commands of ended executions and replaced commands are acknowledged. */
  lemma AckKeepsInv(orders: Orders, s: State, p: ProcessId)
    requires Inv(orders, s) && HoldsCommand(s, p) && (s.processes[p].pc.Ack? || s.processes[p].pc.AckReplaced?)
    ensures Maintained(orders, s, Acknowledged(s, p))
  {
    var t := Acknowledged(s, p);
    CurrentlyFits(orders, s, p);
    SameDataKept(orders, s, t);
    forall c ensures CommandFits(t, c) {
      assert CommandFits(s, c);
    }
    EndedProcess(orders, s, t, p);
    forall e, c | LiveFor(s, e, c) && !Ended(s, e) ensures LiveFor(t, e, c) {
      assert CommandFits(s, c);
    }
    assert LivePreserved(s, t);
    NoneOrphanedKept(s, t);
  }

  lemma FinishKeepsInv(orders: Orders, s: State, t: State, p: ProcessId)
    requires Inv(orders, s) && NextStep(orders, s, t, Finish(p))
    ensures Maintained(orders, s, t)
  {
    var pc := s.processes[p].pc;
    if pc.Ack? || pc.AckReplaced? {
      AckKeepsInv(orders, s, p);
    } else {
      ReleaseKeepsInv(orders, s, p);
    }
  }

  // ---- Any step ----

  predicate IsWorkStep(step: Step) {
    step.Move? || step.Throw? || step.Persist? || step.Fetch? || step.Publish? || step.RecordPublish?
  }

  predicate IsFinalStep(step: Step) {
    step.PublishRetry? || step.PublishDeadLetter? || step.Finish? || step.Crash?
  }

  lemma WorkStepKeepsInv(orders: Orders, s: State, t: State, step: Step)
    requires Inv(orders, s) && NextStep(orders, s, t, step) && IsWorkStep(step)
    ensures Maintained(orders, s, t)
  {
    match step
    case Move(p, next) => MoveKeepsInv(orders, s, t, p, next);
    case Throw(p, retryable) => ThrowKeepsInv(orders, s, t, p, retryable);
    case Persist(p, eventId, body) => PersistKeepsInv(orders, s, t, p, eventId, body);
    case Fetch(p, snapshots) => FetchKeepsInv(orders, s, t, p, snapshots);
    case Publish(p, result, handedOver, enqueued) => PublishKeepsInv(orders, s, t, p, result, handedOver, enqueued);
    case RecordPublish(p) => RecordKeepsInv(orders, s, t, p);
  }

  lemma FinalStepKeepsInv(orders: Orders, s: State, t: State, step: Step)
    requires Inv(orders, s) && NextStep(orders, s, t, step) && IsFinalStep(step)
    ensures Maintained(orders, s, t)
  {
    match step
    case PublishRetry(p, c) => RetryKeepsInv(orders, s, t, p, c);
    case PublishDeadLetter(p) => DeadLetterKeepsInv(orders, s, t, p);
    case Finish(p) => FinishKeepsInv(orders, s, t, p);
    case Crash(p) => ReleaseKeepsInv(orders, s, p);
  }

  lemma SurroundingStepKeepsInv(orders: Orders, s: State, t: State, step: Step)
    requires Inv(orders, s) && NextStep(orders, s, t, step) && !IsWorkStep(step) && !IsFinalStep(step)
    ensures Maintained(orders, s, t)
  {
    match step
    case CreateExecution(e) => CreateKeepsInv(orders, s, t, e);
    case RequestExecution(e, c, header) => RequestKeepsInv(orders, s, t, e, c, header);
    case Deliver(p, c) => DeliverKeepsInv(orders, s, t, p, c);
    case RetryExpires(c) => RetryExpiresKeepsInv(orders, s, t, c);
    case StartDispatcher(p, key) => DispatcherKeepsInv(orders, s, t, p, key);
    case Ingest(m) => IngestKeepsInv(orders, s, t, m);
    case AckEvent(m) => IngestKeepsInv(orders, s, t, m);
    case RejectEvent(m) => NothingToReject(orders, s, m);
  }

  lemma StepKeepsInv(orders: Orders, s: State, t: State, step: Step)
    requires Inv(orders, s) && NextStep(orders, s, t, step)
    ensures Maintained(orders, s, t)
  {
    if IsWorkStep(step) {
      WorkStepKeepsInv(orders, s, t, step);
    } else if IsFinalStep(step) {
      FinalStepKeepsInv(orders, s, t, step);
    } else {
      SurroundingStepKeepsInv(orders, s, t, step);
    }
  }

  lemma InitHasInv(orders: Orders, s: State)
    requires Init(s)
    ensures Inv(orders, s)
  {
  }
}
