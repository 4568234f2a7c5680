/**
 * The execution protocol as a state machine: any number of executions,
 * commands, workers and outbox dispatchers, interleaved at every database
 * statement, publish and acknowledgement, with crashes and errors anywhere.
 *
 * A worker is the program of handleDelivery and the functions it calls, cut at
 * every await.  Its position is a program counter; the places where a function
 * returns to, normally or by throwing, are kept inside the counter.
 */
module ExecutionProtocol {
  import opened Wrappers
  import opened WorkflowDefinitions
  import opened LifecycleEvents
  import opened Outbox
  import opened EventTimeline
  import opened RetryPolicy

  type ProcessId = nat
  type CommandId = nat

  datatype ExecutionStatus = StatusPending | StatusRunning | StatusSucceeded | StatusFailed | StatusCancelled

  predicate IsTerminal(status: ExecutionStatus) {
    status.StatusSucceeded? || status.StatusFailed? || status.StatusCancelled?
  }

  // ---- Commands ----

  datatype Place = Queued | Delayed | Unacked(holder: ProcessId)

  /**
   * A copy of an execution request.  origin, hops and delayMs record its
   * history: the attempt the first copy came with, how often it was retried
   * since, and the delay scheduled for that.
   */
  datatype Command = Command(execution: ExecutionId, attempt: nat, origin: nat, hops: nat, delayMs: nat, place: Place)

  // ---- Processes ----

  datatype Pc =
    // processWorkflowExecution
    | Load
    | BeginTx
    | Reload
    | PersistStarted
    // executeWorkflowNodes
    | RunNodes(k: nat)
    | PersistNodeStarted(k: nat)
    | ExecuteNode(k: nat)
    | PersistNodeCompleted(k: nat)
    | PersistNodeFailed(k: nat, retryable: bool)
    // processWorkflowExecution, continued
    | CompleteTx
    | CompletionReload
    // dispatchPendingWorkflowExecutionOutboxMessages
    | Flush(after: Pc, onThrow: Pc)
    | Flushing(snapshots: seq<OutboxRow>, after: Pc, onThrow: Pc)
    // dispatchOutboxEvent, before and after the publish
    | Send(snapshot: OutboxRow, after: Pc, onThrow: Pc)
    | Mark(snapshot: OutboxRow, accepted: bool, after: Pc, onThrow: Pc)
    // the rest of handleDelivery
    | Catch(retryable: bool)
    | FailTx
    | FailReload
    | DeadLetter
    | Ack
    | AckReplaced
    | Nack
    // an outbox dispatcher that is done
    | Halt

  /** A worker holds a command; a dispatcher holds none. */
  datatype Process = Process(command: Option<CommandId>, execution: ExecutionId, pc: Pc)

  // ---- The whole state ----

  /**
   * The tables, the queues and the processes, and three records of the past:
   * every message ever handed to the channel, those it lost, and the rows ever marked failed.
   */
  datatype State = State(
    status: map<ExecutionId, ExecutionStatus>,
    requested: set<ExecutionId>,
    outbox: OutboxRows,
    log: seq<Message>,
    inFlight: multiset<Message>,
    lost: set<Message>,
    gaveUp: set<EventKey>,
    timeline: Timeline,
    commands: map<CommandId, Command>,
    deadLetters: seq<Command>,
    processes: map<ProcessId, Process>)

  /** The order in which each execution's nodes run; fixed by its stored definition. */
  type Orders = ExecutionId -> seq<NodeId>

  function StatusOf(s: State, e: ExecutionId): Option<ExecutionStatus> {
    if e in s.status then Some(s.status[e]) else None
  }

  predicate MissingOrTerminal(status: Option<ExecutionStatus>) {
    status.None? || IsTerminal(status.value)
  }

  function Goto(s: State, p: ProcessId, pc: Pc): State
    requires p in s.processes
  {
    s.(processes := s.processes[p := s.processes[p].(pc := pc)])
  }

  // ---- Steps that only move a process ----

  /** Where control goes from pc when nothing is written, given the execution's status and the command's attempt. */
  ghost predicate Moves(order: seq<NodeId>, status: Option<ExecutionStatus>, attempt: nat, pc: Pc, next: Pc) {
    match pc
    case Load =>
      next == if status.None? then Catch(false)
              else if IsTerminal(status.value) then Flush(Ack, Catch(true))
              else if status.value.StatusPending? then BeginTx
              else PersistStarted
    case BeginTx => !MayPersist(status, pc) && next == Reload
    case Reload => next == if MissingOrTerminal(status) then Flush(Ack, Catch(true)) else RunNodes(0)
    case RunNodes(k) => next == if k < |order| then PersistNodeStarted(k) else CompleteTx
    case ExecuteNode(k) => next == PersistNodeCompleted(k) || exists r :: next == PersistNodeFailed(k, r)
    case CompleteTx => !MayPersist(status, pc) && next == CompletionReload
    case CompletionReload =>
      next == if status.Some? && IsTerminal(status.value) then Flush(Ack, Catch(true)) else Catch(true)
    case Flushing(snapshots, after, onThrow) =>
      next == if snapshots == [] then after else Send(snapshots[0], Flushing(snapshots[1..], after, onThrow), onThrow)
    case Send(snapshot, after, _) => snapshot.status == PUBLISHED && next == after
    case Catch(retryable) => Decide(retryable, attempt).GiveUp? && next == FailTx
    case FailTx => !MayPersist(status, pc) && next == FailReload
    case FailReload => next == if status.Some? && IsTerminal(status.value) then Flush(DeadLetter, Nack) else Nack
    case _ => false
  }

  /** Where a throw at pc is caught; a failing node supplies its own retryable flag, a database error is retryable. */
  function Handler(pc: Pc, retryable: bool): Option<Pc> {
    match pc
    case Load | BeginTx | Reload | PersistStarted | RunNodes(_) | PersistNodeStarted(_) | CompleteTx
        | CompletionReload =>
      Some(Catch(retryable))
    case ExecuteNode(k) => Some(PersistNodeFailed(k, retryable))
    case PersistNodeCompleted(k) => Some(PersistNodeFailed(k, retryable))
    case PersistNodeFailed(_, _) => Some(Catch(retryable))
    case Flush(_, onThrow) => Some(onThrow)
    case Flushing(_, _, onThrow) => Some(onThrow)
    case Send(_, _, onThrow) => Some(onThrow)
    case Mark(_, _, _, onThrow) => Some(onThrow)
    case FailTx | FailReload | DeadLetter => Some(Nack)
    case _ => None
  }

  // ---- Steps that write an outbox row, three of them with a status change ----

  /** The event persisted at pc. */
  function PersistedKey(order: seq<NodeId>, e: ExecutionId, pc: Pc): Option<EventKey> {
    match pc
    case BeginTx => Some(WorkflowStarted(e))
    case PersistStarted => Some(WorkflowStarted(e))
    case PersistNodeStarted(k) => if k < |order| then Some(NodeStarted(e, order[k])) else None
    case PersistNodeCompleted(k) => if k < |order| then Some(NodeCompleted(e, order[k])) else None
    case PersistNodeFailed(k, _) => if k < |order| then Some(NodeFailed(e, order[k])) else None
    case CompleteTx => Some(WorkflowCompleted(e))
    case FailTx => Some(WorkflowFailed(e))
    case _ => None
  }

  /** The status the conditional update asks for. */
  predicate MayPersist(status: Option<ExecutionStatus>, pc: Pc) {
    match pc
    case BeginTx => status == Some(StatusPending)
    case CompleteTx => status == Some(StatusRunning)
    case FailTx => status == Some(StatusPending) || status == Some(StatusRunning)
    case _ => true
  }

  function StatusAfter(status: map<ExecutionId, ExecutionStatus>, e: ExecutionId, pc: Pc)
    : map<ExecutionId, ExecutionStatus>
  {
    match pc
    case BeginTx => status[e := StatusRunning]
    case CompleteTx => status[e := StatusSucceeded]
    case FailTx => status[e := StatusFailed]
    case _ => status
  }

  /** The stored row is dispatched next; where to after that depends on the caller. */
  function DispatchAfter(pc: Pc, row: OutboxRow): Pc {
    match pc
    case PersistNodeStarted(k) => Send(row, ExecuteNode(k), Catch(true))
    case PersistNodeCompleted(k) => Send(row, RunNodes(k + 1), PersistNodeFailed(k, true))
    case PersistNodeFailed(k, retryable) => Send(row, Catch(retryable), Catch(true))
    case CompleteTx => Send(row, Ack, Catch(true))
    case FailTx => Send(row, DeadLetter, Nack)
    case _ => Send(row, RunNodes(0), Catch(true))
  }

  predicate IsLifecycleKey(e: ExecutionId, key: EventKey) {
    key == WorkflowStarted(e) || key == WorkflowCompleted(e) || key == WorkflowFailed(e)
  }

  predicate FreshEventId(s: State, id: EventId) {
    forall k :: k in s.outbox ==> s.outbox[k].message.eventId != id
  }

  // ---- The steps ----

  datatype Step =
    | CreateExecution(e: ExecutionId)
    | RequestExecution(e: ExecutionId, c: CommandId, header: Header)
    | Deliver(p: ProcessId, c: CommandId)
    | RetryExpires(c: CommandId)
    | StartDispatcher(p: ProcessId, key: EventKey)
    | Move(p: ProcessId, next: Pc)
    | Throw(p: ProcessId, retryable: bool)
    | Persist(p: ProcessId, eventId: EventId, body: string)
    | Fetch(p: ProcessId, snapshots: seq<OutboxRow>)
    | Publish(p: ProcessId, result: PublishResult, handedOver: bool, enqueued: bool)
    | RecordPublish(p: ProcessId)
    | PublishRetry(p: ProcessId, c: CommandId)
    | PublishDeadLetter(p: ProcessId)
    | Finish(p: ProcessId)
    | Crash(p: ProcessId)
    | Ingest(m: Message)
    | AckEvent(m: Message)
    | RejectEvent(m: Message)

  ghost predicate NextStep(orders: Orders, s: State, t: State, step: Step) {
    match step
    case CreateExecution(e) => e !in s.status && t == s.(status := s.status[e := StatusPending])
    case RequestExecution(e, c, header) =>
      c !in s.commands
      && var a := RetryAttempt(header);
         t == s.(requested := s.requested + {e}, commands := s.commands[c := Command(e, a, a, 0, 0, Queued)])
    case Deliver(p, c) =>
      p !in s.processes && c in s.commands && s.commands[c].place == Queued
      && t == s.(commands := s.commands[c := s.commands[c].(place := Unacked(p))],
                 processes := s.processes[p := Process(Some(c), s.commands[c].execution, Load)])
    case RetryExpires(c) =>
      c in s.commands && s.commands[c].place == Delayed
      && t == s.(commands := s.commands[c := s.commands[c].(place := Queued)])
    case StartDispatcher(p, key) =>
      p !in s.processes && IsPending(s.outbox, key)
      && t == s.(processes := s.processes[p := Process(None, key.execution, Send(s.outbox[key], Halt, Halt))])
    case Move(p, next) =>
      p in s.processes
      && Moves(orders(s.processes[p].execution), StatusOf(s, s.processes[p].execution), AttemptOf(s, p),
               s.processes[p].pc, next)
      && t == Goto(s, p, next)
    case Throw(p, retryable) =>
      p in s.processes
      && Handler(s.processes[p].pc, retryable).Some?
      && t == Goto(s, p, Handler(s.processes[p].pc, retryable).value)
    case Persist(p, eventId, body) => p in s.processes && PersistStep(orders, s, t, p, eventId, body)
    case Fetch(p, snapshots) =>
      p in s.processes && s.processes[p].pc.Flush?
      && IsFetchResult(s, s.processes[p].execution, snapshots)
      && t == Goto(s, p, Flushing(snapshots, s.processes[p].pc.after, s.processes[p].pc.onThrow))
    case Publish(p, result, handedOver, enqueued) =>
      p in s.processes && PublishStep(s, t, p, result, handedOver, enqueued)
    case RecordPublish(p) => p in s.processes && RecordStep(s, t, p)
    case PublishRetry(p, c) => p in s.processes && RetryStep(s, t, p, c)
    case PublishDeadLetter(p) =>
      p in s.processes && s.processes[p].pc.DeadLetter? && HoldsCommand(s, p)
      && t == Goto(s, p, Ack).(deadLetters := s.deadLetters + [s.commands[s.processes[p].command.value]])
    case Finish(p) => p in s.processes && FinishStep(s, t, p)
    case Crash(p) => p in s.processes && t == Released(s, p)
    case Ingest(m) =>
      m in s.inFlight && (m.eventId in s.timeline || m.key.execution in s.status)
      && t == s.(timeline := Recorded(s.timeline, m))
    case AckEvent(m) =>
      m in s.inFlight && m.eventId in s.timeline
      && t == s.(inFlight := s.inFlight - multiset{m})
    case RejectEvent(m) => // the foreign key to the execution is violated
      m in s.inFlight && m.eventId !in s.timeline && m.key.execution !in s.status
      && t == s.(inFlight := s.inFlight - multiset{m}, lost := s.lost + {m})
  }

  predicate HoldsCommand(s: State, p: ProcessId) {
    p in s.processes && s.processes[p].command.Some? && s.processes[p].command.value in s.commands
  }

  function AttemptOf(s: State, p: ProcessId): nat {
    if HoldsCommand(s, p) then s.commands[s.processes[p].command.value].attempt else 0
  }

  /** One transaction, or one upsert: the row is created unless it exists, and the stored row is dispatched next. */
  ghost predicate PersistStep(orders: Orders, s: State, t: State, p: ProcessId, eventId: EventId, body: string)
    requires p in s.processes
  {
    var e, pc := s.processes[p].execution, s.processes[p].pc;
    var key := PersistedKey(orders(e), e, pc);
    && key.Some? && MayPersist(StatusOf(s, e), pc) && FreshEventId(s, eventId)
    && var rows := Upserted(s.outbox, Message(eventId, key.value, body));
       t == Goto(s, p, DispatchAfter(pc, rows[key.value])).(outbox := rows, status := StatusAfter(s.status, e, pc))
  }

  /** The pending lifecycle rows of an execution, in some order. */
  ghost predicate IsFetchResult(s: State, e: ExecutionId, snapshots: seq<OutboxRow>) {
    && (forall i :: 0 <= i < |snapshots| ==>
          var key := snapshots[i].message.key;
          IsLifecycleKey(e, key) && key in s.outbox && snapshots[i] == s.outbox[key] && snapshots[i].status == PENDING)
    && forall key :: IsLifecycleKey(e, key) && key in s.outbox && s.outbox[key].status == PENDING ==>
        s.outbox[key] in snapshots
  }

  /**
   * The publish of a copy not marked published.  Backpressure may or may not have handed the
   * message over; a handed-over message may not survive.
   */
  ghost predicate PublishStep(s: State, t: State, p: ProcessId, result: PublishResult, handedOver: bool, enqueued: bool)
    requires p in s.processes
  {
    var pc := s.processes[p].pc;
    && pc.Send? && pc.snapshot.status != PUBLISHED
    && (result == Delivered ==> handedOver) && (result == Threw ==> !handedOver)
    && var u := Goto(s, p, Mark(pc.snapshot, result == Delivered, pc.after, pc.onThrow));
       t == if handedOver then HandOver(u, pc.snapshot.message, enqueued) else u
  }

  function HandOver(s: State, m: Message, enqueued: bool): State {
    s.(log := s.log + [m],
       inFlight := if enqueued then s.inFlight + multiset{m} else s.inFlight,
       lost := if enqueued then s.lost else s.lost + {m})
  }

  ghost predicate RecordStep(s: State, t: State, p: ProcessId)
    requires p in s.processes
  {
    var pc := s.processes[p].pc;
    && pc.Mark? && pc.snapshot.message.key in s.outbox
    && t == if pc.accepted
            then Goto(s, p, pc.after).(outbox := MarkedPublished(s.outbox, pc.snapshot.message.key))
            else var rows := MarkedFailed(s.outbox, pc.snapshot);
                 var key := pc.snapshot.message.key;
                 Goto(s, p, pc.onThrow).(outbox := rows,
                                         gaveUp := if rows[key].status == FAILED then s.gaveUp + {key} else s.gaveUp)
  }

  ghost predicate RetryStep(s: State, t: State, p: ProcessId, c: CommandId)
    requires p in s.processes
  {
    && s.processes[p].pc.Catch? && HoldsCommand(s, p) && c !in s.commands
    && var held := s.commands[s.processes[p].command.value];
       var decision := Decide(s.processes[p].pc.retryable, held.attempt);
       && decision.Retry? && QueueFor(decision.attempt).Some?
       && t == Goto(s, p, AckReplaced).(commands := s.commands[c :=
            Command(held.execution, decision.attempt, held.origin, held.hops + 1,
                    held.delayMs + QueueFor(decision.attempt).value.ttlMs, Delayed)])
  }

  /** Acknowledging removes the command, a negative acknowledgement puts it back; either ends the process. */
  ghost predicate FinishStep(s: State, t: State, p: ProcessId)
    requires p in s.processes
  {
    match s.processes[p].pc
    case Ack => HoldsCommand(s, p) && t == Acknowledged(s, p)
    case AckReplaced => HoldsCommand(s, p) && t == Acknowledged(s, p)
    case Nack => t == Released(s, p)
    case Halt => t == Released(s, p)
    case _ => false
  }

  function Acknowledged(s: State, p: ProcessId): State
    requires HoldsCommand(s, p)
  {
    s.(commands := s.commands - {s.processes[p].command.value}, processes := s.processes - {p})
  }

  function Released(s: State, p: ProcessId): State
    requires p in s.processes
  {
    if HoldsCommand(s, p) then
      var c := s.processes[p].command.value;
      s.(commands := s.commands[c := s.commands[c].(place := Queued)], processes := s.processes - {p})
    else s.(processes := s.processes - {p})
  }

  // ---- Runs ----

  ghost predicate Init(s: State) {
    s == State(map[], {}, map[], [], multiset{}, {}, {}, map[], map[], [], map[])
  }

  ghost predicate Next(orders: Orders, s: State, t: State) {
    exists step :: NextStep(orders, s, t, step)
  }

  /** The i-th step of a path, if the path is that long. */
  ghost predicate NextAt(orders: Orders, path: seq<State>, i: nat) {
    i + 1 < |path| ==> Next(orders, path[i], path[i + 1])
  }

  ghost predicate IsPath(orders: Orders, path: seq<State>) {
    |path| > 0 && forall i: nat :: NextAt(orders, path, i)
  }

  ghost predicate IsRun(orders: Orders, run: seq<State>) {
    IsPath(orders, run) && Init(run[0])
  }

  /** Some finite sequence of steps leads from s to t. */
  ghost predicate Continues(orders: Orders, s: State, t: State) {
    exists path :: IsPath(orders, path) && path[0] == s && path[|path| - 1] == t
  }

  ghost predicate Reachable(orders: Orders, s: State) {
    exists start :: Init(start) && Continues(orders, start, s)
  }
}
