/** What every reachable state of the execution protocol satisfies. */
module ProtocolInvariant {
  import opened Wrappers
  import opened WorkflowDefinitions
  import opened LifecycleEvents
  import opened Outbox
  import opened RetryPolicy
  import opened ExecutionProtocol

  // ---- What a process may rely on ----

  /**
   * Facts that never become false: an execution exists, it is no longer
   * pending, it has ended, a row with a given message exists, an event has been
   * handed to the channel, a row has been given up.
   */
  datatype Known = Known(stored: bool, begun: bool, ended: bool, messages: map<EventKey, Message>,
                         published: set<EventKey>, gaveUp: set<EventKey>)

  function PublishedKeys(log: seq<Message>): set<EventKey> {
    set m | m in log :: m.key
  }

  function MessagesOf(rows: OutboxRows): map<EventKey, Message> {
    map k | k in rows :: rows[k].message
  }

  predicate Ended(s: State, e: ExecutionId) {
    e in s.status && IsTerminal(s.status[e])
  }

  function KnownOf(s: State, e: ExecutionId): Known {
    Known(e in s.status, e in s.status && !s.status[e].StatusPending?, Ended(s, e), MessagesOf(s.outbox),
          PublishedKeys(s.log), s.gaveUp)
  }

  ghost predicate KnowsMore(a: Known, b: Known) {
    && (a.stored ==> b.stored)
    && (a.begun ==> b.begun)
    && (a.ended ==> b.ended)
    && (forall k :: k in a.messages ==> k in b.messages && a.messages[k] == b.messages[k])
    && a.published <= b.published && a.gaveUp <= b.gaveUp
  }

  /** A copy of a row, possibly stale. */
  ghost predicate SnapshotFits(kn: Known, row: OutboxRow) {
    && row.message.key in kn.messages && kn.messages[row.message.key] == row.message
    && AttemptsFit(row)
    && (row.status == PUBLISHED ==> row.message.key in kn.published)
  }

  /** The first k nodes' completions have been published. */
  ghost predicate NodesDone(order: seq<NodeId>, e: ExecutionId, kn: Known, k: nat) {
    && k <= |order|
    && WorkflowStarted(e) in kn.messages
    && forall i :: 0 <= i < k ==> NodeCompleted(e, order[i]) in kn.published
  }

  ghost predicate NodeUnderway(order: seq<NodeId>, e: ExecutionId, kn: Known, k: nat) {
    NodesDone(order, e, kn, k) && k < |order| && NodeStarted(e, order[k]) in kn.published
  }

  function Learn(kn: Known, key: EventKey): Known {
    kn.(published := kn.published + {key})
  }

  function LearnAll(kn: Known, rows: seq<OutboxRow>): Known {
    kn.(published := kn.published + set row | row in rows :: row.message.key)
  }

  /** The execution has ended and its outcome was published, unless the outbox gave that up. */
  predicate Settled(e: ExecutionId, kn: Known) {
    && kn.ended
    && (WorkflowCompleted(e) in kn.published + kn.gaveUp || WorkflowFailed(e) in kn.published + kn.gaveUp)
  }

  predicate EndsDelivery(after: Pc) {
    after == Ack || after == DeadLetter
  }

  /** Only a published retry copy leads to AckReplaced, so no continuation is that. */
  predicate Resumable(after: Pc, onThrow: Pc) {
    !after.AckReplaced? && !onThrow.AckReplaced?
  }

  /** What holds whenever control is at pc. */
  ghost predicate PcFits(order: seq<NodeId>, e: ExecutionId, kn: Known, pc: Pc)
    decreases pc
  {
    match pc
    case Load | Catch(_) | FailTx | FailReload | AckReplaced | Nack | Halt => true
    case BeginTx | CompletionReload => kn.stored
    case Reload => kn.begun
    case PersistStarted => kn.stored && WorkflowStarted(e) in kn.messages
    case RunNodes(k) => kn.stored && NodesDone(order, e, kn, k)
    case PersistNodeStarted(k) => kn.stored && NodesDone(order, e, kn, k) && k < |order|
    case ExecuteNode(k) => kn.stored && NodeUnderway(order, e, kn, k)
    case PersistNodeCompleted(k) => kn.stored && NodeUnderway(order, e, kn, k)
    case PersistNodeFailed(k, _) => kn.stored && NodeUnderway(order, e, kn, k)
    case CompleteTx => kn.stored && NodesDone(order, e, kn, |order|)
    case DeadLetter | Ack => Settled(e, kn)
    case Flush(after, onThrow) =>
      Resumable(after, onThrow) && EndsDelivery(after) && kn.ended && PcFits(order, e, kn, onThrow)
    case Flushing(snapshots, after, onThrow) =>
      && Resumable(after, onThrow) && EndsDelivery(after) && (forall row :: row in snapshots ==> SnapshotFits(kn, row))
      && Settled(e, LearnAll(kn, snapshots)) && PcFits(order, e, kn, onThrow)
    case Send(snapshot, after, onThrow) =>
      && Resumable(after, onThrow) && SnapshotFits(kn, snapshot)
      && PcFits(order, e, Learn(kn, snapshot.message.key), after) && PcFits(order, e, kn, onThrow)
    case Mark(snapshot, accepted, after, onThrow) =>
      && Resumable(after, onThrow) && SnapshotFits(kn, snapshot) && snapshot.status != PUBLISHED
      && (accepted ==> snapshot.message.key in kn.published)
      && PcFits(order, e, Learn(kn, snapshot.message.key), after) && PcFits(order, e, kn, onThrow)
  }

  predicate DispatchesRows(pc: Pc) {
    pc.Flush? || pc.Flushing? || pc.Send? || pc.Mark?
  }

  lemma PlacesFitMonotone(order: seq<NodeId>, e: ExecutionId, kn: Known, more: Known, pc: Pc)
    requires KnowsMore(kn, more) && PcFits(order, e, kn, pc) && !DispatchesRows(pc)
    ensures PcFits(order, e, more, pc)
  {
  }

  lemma LearnMonotone(kn: Known, more: Known, key: EventKey)
    requires KnowsMore(kn, more)
    ensures KnowsMore(Learn(kn, key), Learn(more, key))
  {
  }

  lemma SnapshotsFitMonotone(kn: Known, more: Known, rows: seq<OutboxRow>)
    requires KnowsMore(kn, more) && forall row :: row in rows ==> SnapshotFits(kn, row)
    ensures forall row :: row in rows ==> SnapshotFits(more, row)
  {
  }

  /** Both continuations of a dispatch stay justified. */
  lemma {:induction false} ContinuationsFitMonotone(order: seq<NodeId>, e: ExecutionId, kn: Known, more: Known,
                                                    key: EventKey, pc: Pc, after: Pc, onThrow: Pc)
    requires after < pc && onThrow < pc
    requires KnowsMore(kn, more) && PcFits(order, e, Learn(kn, key), after) && PcFits(order, e, kn, onThrow)
    ensures PcFits(order, e, Learn(more, key), after) && PcFits(order, e, more, onThrow)
    decreases pc, 0
  {
    LearnMonotone(kn, more, key);
    PcFitsMonotone(order, e, Learn(kn, key), Learn(more, key), after);
    PcFitsMonotone(order, e, kn, more, onThrow);
  }

  /** A process's place stays justified as more becomes known. */
  lemma {:induction false} PcFitsMonotone(order: seq<NodeId>, e: ExecutionId, kn: Known, more: Known, pc: Pc)
    requires KnowsMore(kn, more) && PcFits(order, e, kn, pc)
    ensures PcFits(order, e, more, pc)
    decreases pc, 1
  {
    if pc.Flush? || pc.Flushing? {
      if pc.Flushing? {
        SnapshotsFitMonotone(kn, more, pc.snapshots);
      }
      PcFitsMonotone(order, e, kn, more, pc.onThrow);
      FlushFitsMonotone(order, e, kn, more, pc);
    } else if pc.Send? || pc.Mark? {
      SnapshotsFitMonotone(kn, more, [pc.snapshot]);
      ContinuationsFitMonotone(order, e, kn, more, pc.snapshot.message.key, pc, pc.after, pc.onThrow);
    } else {
      PlacesFitMonotone(order, e, kn, more, pc);
    }
  }

  lemma FlushFitsMonotone(order: seq<NodeId>, e: ExecutionId, kn: Known, more: Known, pc: Pc)
    requires KnowsMore(kn, more) && PcFits(order, e, kn, pc) && (pc.Flush? || pc.Flushing?)
    requires PcFits(order, e, more, pc.onThrow)
             && (pc.Flushing? ==> forall row :: row in pc.snapshots ==> SnapshotFits(more, row))
    ensures PcFits(order, e, more, pc)
  {
  }

  // ---- The invariant ----

  /** The events that must have been published before a given one may be. */
  ghost predicate Precedes(order: seq<NodeId>, earlier: EventKey, later: EventKey) {
    match later
    case NodeStarted(e, v) => CompletedBefore(order, e, earlier, v)
    case NodeCompleted(e, v) => earlier == NodeStarted(e, v) || CompletedBefore(order, e, earlier, v)
    case NodeFailed(e, v) => earlier == NodeStarted(e, v)
    case WorkflowCompleted(e) => exists i :: 0 <= i < |order| && earlier == NodeCompleted(e, order[i])
    case _ => false
  }

  /** earlier is the completion of a node that comes before every occurrence of v. */
  ghost predicate CompletedBefore(order: seq<NodeId>, e: ExecutionId, earlier: EventKey, v: NodeId) {
    exists i :: 0 <= i < |order| && earlier == NodeCompleted(e, order[i]) && FirstAfter(order, i, v)
  }

  /** v does not occur at or before position i. */
  ghost predicate FirstAfter(order: seq<NodeId>, i: int, v: NodeId) {
    forall j :: 0 <= j < |order| && j <= i ==> order[j] != v
  }

  ghost predicate PredecessorsPublished(order: seq<NodeId>, key: EventKey, published: set<EventKey>) {
    forall earlier :: Precedes(order, earlier, key) ==> earlier in published
  }

  ghost predicate RowFits(orders: Orders, s: State, key: EventKey) {
    && (key in s.gaveUp ==> key in s.outbox)
    && (key in s.outbox ==>
      var row := s.outbox[key];
      && row.message.key == key
      && AttemptsFit(row)
      && (row.status == PUBLISHED ==> key in PublishedKeys(s.log))
      && (row.status == FAILED ==> key in s.gaveUp)
      && key.execution in s.status
      && (IsNodeEvent(key) ==> WorkflowStarted(key.execution) in s.outbox)
      && PredecessorsPublished(orders(key.execution), key, PublishedKeys(s.log)))
  }

  ghost predicate RowsFit(orders: Orders, s: State) {
    forall key {:trigger RowFits(orders, s, key)} :: RowFits(orders, s, key)
  }

  ghost predicate EventIdsUnique(rows: OutboxRows) {
    forall a, b :: a in rows && b in rows && rows[a].message.eventId == rows[b].message.eventId ==> a == b
  }

  /** Everything published is a stored message, and its predecessors were published earlier. */
  ghost predicate LogFits(orders: Orders, s: State) {
    forall i :: 0 <= i < |s.log| ==> EntryFits(orders, s, i)
  }

  ghost predicate EntryFits(orders: Orders, s: State, i: int)
    requires 0 <= i < |s.log|
  {
    && s.log[i].key in s.outbox && s.outbox[s.log[i].key].message == s.log[i]
    && PredecessorsPublished(orders(s.log[i].key.execution), s.log[i].key, PublishedKeys(s.log[..i]))
  }

  /** Which outcome rows go with which status. */
  ghost predicate OutcomeFits(s: State, e: ExecutionId) {
    var started, completed, failed :=
        WorkflowStarted(e) in s.outbox, WorkflowCompleted(e) in s.outbox, WorkflowFailed(e) in s.outbox;
    if e !in s.status then !started && !completed && !failed
    else
      match s.status[e]
      case StatusPending => !started && !completed && !failed
      case StatusRunning => started && !completed && !failed
      case StatusSucceeded => started && completed && !failed
      case StatusFailed => !completed && failed
      case StatusCancelled => false
  }

  ghost predicate OutcomesFit(s: State) {
    forall e {:trigger OutcomeFits(s, e)} :: OutcomeFits(s, e)
  }

  /** Events reach the timeline only from the log, and none vanishes unless the channel lost it. */
  ghost predicate TimelineFits(s: State) {
    && (forall m :: m in s.inFlight ==> m in s.log)
    && (forall id :: id in s.timeline ==> s.timeline[id].eventId == id && s.timeline[id] in s.log)
    && (forall m :: m in s.log ==> m in s.inFlight || m.eventId in s.timeline || m in s.lost)
  }

  /** Retried copies are further on than what they came from, within the limit, with the scheduled delay. */
  ghost predicate HistoryFits(command: Command) {
    && command.attempt == command.origin + command.hops
    && (command.hops > 0 ==> command.attempt <= MAX_RETRY_ATTEMPTS)
    && command.delayMs == DelayBetween(command.origin, command.attempt)
  }

  ghost predicate CommandFits(s: State, c: CommandId) {
    c in s.commands ==>
      && HistoryFits(s.commands[c])
      && (s.commands[c].place.Unacked? ==>
            var p := s.commands[c].place.holder;
            p in s.processes && s.processes[p].command == Some(c))
  }

  ghost predicate CommandsFit(s: State) {
    forall c {:trigger CommandFits(s, c)} :: CommandFits(s, c)
  }

  ghost predicate ProcessFits(orders: Orders, s: State, p: ProcessId) {
    p in s.processes ==>
      var process := s.processes[p];
      && PcFits(orders(process.execution), process.execution, KnownOf(s, process.execution), process.pc)
      && (process.command.Some? ==>
            var c := process.command.value;
            c in s.commands && s.commands[c].place == Unacked(p) && s.commands[c].execution == process.execution)
  }

  ghost predicate ProcessesFit(orders: Orders, s: State) {
    forall p {:trigger ProcessFits(orders, s, p)} :: ProcessFits(orders, s, p)
  }

  /** A held command whose retry copy is already out. */
  predicate Replaced(s: State, c: CommandId) {
    c in s.commands && s.commands[c].place.Unacked? && s.commands[c].place.holder in s.processes
    && s.processes[s.commands[c].place.holder].pc.AckReplaced?
  }

  /** A command that will still be worked on. */
  predicate LiveFor(s: State, e: ExecutionId, c: CommandId) {
    c in s.commands && s.commands[c].execution == e && !Replaced(s, c)
  }

  ghost predicate NotOrphaned(s: State, e: ExecutionId) {
    e in s.requested && !Ended(s, e) ==> exists c :: LiveFor(s, e, c)
  }

  ghost predicate NoneOrphaned(s: State) {
    forall e {:trigger NotOrphaned(s, e)} :: NotOrphaned(s, e)
  }

  ghost predicate DeadLettersEnded(s: State) {
    forall d :: d in s.deadLetters ==> Ended(s, d.execution) && HistoryFits(d)
  }

  /** The part of the invariant about the tables and the channel. */
  ghost predicate DataFits(orders: Orders, s: State) {
    && RowsFit(orders, s)
    && EventIdsUnique(s.outbox)
    && LogFits(orders, s)
    && OutcomesFit(s)
    && TimelineFits(s)
  }

  /** The part about commands and processes. */
  ghost predicate ControlFits(orders: Orders, s: State) {
    && CommandsFit(s)
    && ProcessesFit(orders, s)
    && NoneOrphaned(s)
    && DeadLettersEnded(s)
  }

  ghost predicate Inv(orders: Orders, s: State) {
    DataFits(orders, s) && ControlFits(orders, s)
  }

  // ---- What steps never undo ----

  /** Terminal statuses stay, and nothing becomes pending again. */
  predicate StatusFollows(a: ExecutionStatus, b: ExecutionStatus) {
    (IsTerminal(a) ==> b == a) && (b.StatusPending? ==> a.StatusPending?)
  }

  ghost predicate Extends(s: State, t: State) {
    && (forall e :: e in s.status ==> e in t.status && StatusFollows(s.status[e], t.status[e]))
    && (forall k :: k in s.outbox ==> k in t.outbox && t.outbox[k].message == s.outbox[k].message)
    && s.log <= t.log && s.gaveUp <= t.gaveUp
    && (forall id :: id in s.timeline ==> id in t.timeline && t.timeline[id] == s.timeline[id])
  }

  lemma PublishedGrows(log: seq<Message>, more: seq<Message>)
    requires log <= more
    ensures PublishedKeys(log) <= PublishedKeys(more)
  {
    forall m | m in log ensures m in more {
    }
  }

  lemma ExtendsTeaches(s: State, t: State, e: ExecutionId)
    requires Extends(s, t)
    ensures KnowsMore(KnownOf(s, e), KnownOf(t, e))
  {
    PublishedGrows(s.log, t.log);
  }
}
