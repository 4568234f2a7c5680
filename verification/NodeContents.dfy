/**
 * What the published events say about inputs and outputs: the execution
 * protocol with the values its workers compute, and when every worker computes
 * what the events announce.
 */
module NodeContents {
  import opened Wrappers
  import opened WorkflowDefinitions
  import opened NodeOrder
  import opened LifecycleEvents
  import opened Outbox
  import opened ExecutionProtocol
  import opened ProtocolSteps
  import opened JsonRecords
  import opened Interpreter

  // ---- Values ----

  /**
   * What each execution runs on, which outputs an action may have for an input,
   * and where a message's body shows the input or output it announces.
   */
  datatype World = World(
    definition: ExecutionId -> WorkflowDefinition,
    schedule: ExecutionId -> seq<WorkflowNode>,
    request: ExecutionId -> Record,
    possible: (WorkflowNode, Record, Record) -> bool,
    contentIn: (EventKey, string) -> Record)

  ghost predicate IsScheduled(w: World, e: ExecutionId) {
    Accepted(w.definition(e)) && IsSchedule(w.definition(e), w.schedule(e))
  }

  ghost predicate AllScheduled(w: World) {
    forall e {:trigger IsScheduled(w, e)} :: IsScheduled(w, e)
  }

  function OrdersOf(w: World): Orders {
    e => IdsOf(w.schedule(e))
  }

  /** The outputs of the first nodes as the worker keeps them. */
  function OutputsAfter(order: seq<WorkflowNode>, values: seq<Record>): map<NodeId, Record>
    requires |values| <= |order|
  {
    if values == [] then map[]
    else OutputsAfter(order, values[..|values| - 1])[order[|values| - 1].id := values[|values| - 1]]
  }

  /** The input the loop carries along after the first nodes. */
  function CarriedAfter(w: World, e: ExecutionId, values: seq<Record>): Record {
    if values == [] then w.request(e) else values[|values| - 1]
  }

  function InputAfter(w: World, e: ExecutionId, values: seq<Record>): Record
    requires |values| < |w.schedule(e)|
  {
    GetNodeInput(w.schedule(e)[|values|], w.definition(e), OutputsAfter(w.schedule(e), values),
                 CarriedAfter(w, e, values))
  }

  /** After the given outputs the next node may have this one. */
  predicate MayCompute(w: World, e: ExecutionId, values: seq<Record>, output: Record) {
    && |values| < |w.schedule(e)|
    && var node := w.schedule(e)[|values|];
       if node.nodeType.ManualTrigger? then output == InputAfter(w, e, values)
       else w.possible(node, InputAfter(w, e, values), output)
  }

  /** The first nodes may have these outputs, in one attempt. */
  predicate Possible(w: World, e: ExecutionId, values: seq<Record>) {
    && |values| <= |w.schedule(e)|
    && forall i :: 0 <= i < |values| ==> MayCompute(w, e, values[..i], values[i])
  }

  /** No node that an attempt can come to has two outputs for its input. */
  ghost predicate Functional(w: World) {
    forall e, values, a, b :: Possible(w, e, values) && MayCompute(w, e, values, a) && MayCompute(w, e, values, b) ==>
        a == b
  }

  lemma PossibleExtended(w: World, e: ExecutionId, values: seq<Record>, output: Record)
    requires Possible(w, e, values) && MayCompute(w, e, values, output)
    ensures Possible(w, e, values + [output])
  {
    var more := values + [output];
    forall i | 0 <= i < |more| ensures MayCompute(w, e, more[..i], more[i]) {
      assert more[..i] == values[..i];
    }
  }

  lemma PossiblePrefix(w: World, e: ExecutionId, values: seq<Record>, n: nat)
    requires Possible(w, e, values) && n <= |values|
    ensures Possible(w, e, values[..n])
  {
    forall i | 0 <= i < n ensures MayCompute(w, e, values[..n][..i], values[..n][i]) {
      assert values[..n][..i] == values[..i];
    }
  }

  // ---- The protocol with values ----

  /** A state together with the outputs each worker has computed in its current attempt. */
  datatype Computing = Computing(s: State, values: map<ProcessId, seq<Record>>)

  function ValuesOf(c: Computing, p: ProcessId): seq<Record> {
    if p in c.values then c.values[p] else []
  }

  /** The event says something about the node reached after n nodes, or about the last of them. */
  predicate AnnouncedAfter(w: World, key: EventKey, n: nat) {
    match key
    case NodeStarted(e, v) => n < |w.schedule(e)| && w.schedule(e)[n].id == v
    case NodeCompleted(e, v) => 0 < n <= |w.schedule(e)| && w.schedule(e)[n - 1].id == v
    case WorkflowCompleted(e) => n == |w.schedule(e)|
    case _ => false
  }

  /** What it says: the node's input, its output, or the execution's output. */
  function ContentAfter(w: World, key: EventKey, values: seq<Record>): Record
    requires AnnouncedAfter(w, key, |values|)
  {
    if key.NodeStarted? then InputAfter(w, key.execution, values) else CarriedAfter(w, key.execution, values)
  }

  predicate BodySays(w: World, key: EventKey, body: string, values: seq<Record>) {
    AnnouncedAfter(w, key, |values|) ==> w.contentIn(key, body) == ContentAfter(w, key, values)
  }

  /** An attempt starts with no outputs, adds one for each node it runs, and announces what it has computed. */
  ghost predicate ValuesFollow(w: World, c: Computing, d: Computing, step: Step) {
    if step.Move? && step.p in c.s.processes then MoveFollows(w, c, d, step.p, step.next)
    else if step.Persist? && step.p in c.s.processes then PersistFollows(w, c, d, step.p, step.body)
    else d.values == c.values
  }

  ghost predicate MoveFollows(w: World, c: Computing, d: Computing, p: ProcessId, next: Pc)
    requires p in c.s.processes
  {
    var pc := c.s.processes[p].pc;
    if pc.Reload? then d.values == c.values[p := []]
    else if pc.ExecuteNode? && next.PersistNodeCompleted? then Computes(w, c, d, p)
    else d.values == c.values
  }

  ghost predicate Computes(w: World, c: Computing, d: Computing, p: ProcessId)
    requires p in c.s.processes
  {
    exists output ::
      MayCompute(w, c.s.processes[p].execution, ValuesOf(c, p), output)
      && d.values == c.values[p := ValuesOf(c, p) + [output]]
  }

  ghost predicate PersistFollows(w: World, c: Computing, d: Computing, p: ProcessId, body: string)
    requires p in c.s.processes
  {
    var e, pc := c.s.processes[p].execution, c.s.processes[p].pc;
    var key := PersistedKey(OrdersOf(w)(e), e, pc);
    && (key.Some? ==> BodySays(w, key.value, body, ValuesOf(c, p)))
    && d.values == if pc.BeginTx? || pc.PersistStarted? then c.values[p := []] else c.values
  }

  ghost predicate ComputingStep(w: World, c: Computing, d: Computing, step: Step) {
    NextStep(OrdersOf(w), c.s, d.s, step) && ValuesFollow(w, c, d, step)
  }

  ghost predicate ComputingNext(w: World, c: Computing, d: Computing) {
    exists step :: ComputingStep(w, c, d, step)
  }

  ghost predicate ComputingAt(w: World, run: seq<Computing>, i: nat) {
    i + 1 < |run| ==> ComputingNext(w, run[i], run[i + 1])
  }

  ghost predicate IsComputation(w: World, run: seq<Computing>) {
    && |run| > 0 && Init(run[0].s) && run[0].values == map[]
    && forall i: nat :: ComputingAt(w, run, i)
  }

  ghost predicate Computed(w: World, c: Computing) {
    exists run :: IsComputation(w, run) && run[|run| - 1] == c
  }

  // ---- What the workers hold and the rows say ----

  /** No way back to the nodes. */
  predicate LeavesNodes(pc: Pc) {
    pc.Catch? || pc.PersistNodeFailed? || pc.Nack? || pc.Halt? || pc.Ack? || pc.DeadLetter?
  }

  /** A throw or a flush never leads back to the nodes. */
  predicate WellNested(pc: Pc)
    decreases pc
  {
    match pc
    case Flush(after, onThrow) => LeavesNodes(after) && LeavesNodes(onThrow)
    case Flushing(_, after, onThrow) => LeavesNodes(after) && LeavesNodes(onThrow)
    case Send(_, after, onThrow) => WellNested(after) && LeavesNodes(onThrow)
    case Mark(_, _, after, onThrow) => WellNested(after) && LeavesNodes(onThrow)
    case _ => true
  }

  /** How many nodes have been run in the current attempt when control is at pc, while that matters. */
  function NodesRun(nodes: nat, pc: Pc): Option<nat>
    decreases pc
  {
    match pc
    case RunNodes(k) => Some(k)
    case PersistNodeStarted(k) => Some(k)
    case ExecuteNode(k) => Some(k)
    case PersistNodeCompleted(k) => Some(k + 1)
    case CompleteTx => Some(nodes)
    case Send(_, after, _) => NodesRun(nodes, after)
    case Mark(_, _, after, _) => NodesRun(nodes, after)
    case _ => None
  }

  predicate HoldsValues(w: World, e: ExecutionId, pc: Pc, values: seq<Record>) {
    && WellNested(pc)
    && var n := NodesRun(|w.schedule(e)|, pc);
       n.Some? ==> |values| == n.value && Possible(w, e, values)
  }

  predicate WorkerFits(w: World, c: Computing, p: ProcessId) {
    p in c.s.processes ==> HoldsValues(w, c.s.processes[p].execution, c.s.processes[p].pc, ValuesOf(c, p))
  }

  predicate HasContent(key: EventKey) {
    key.NodeStarted? || key.NodeCompleted? || key.WorkflowCompleted?
  }

  /** The event's body comes from some possible attempt. */
  ghost predicate IsSaid(w: World, key: EventKey, body: string) {
    exists values :: Possible(w, key.execution, values) && AnnouncedAfter(w, key, |values|)
        && w.contentIn(key, body) == ContentAfter(w, key, values)
  }

  ghost predicate RowSays(w: World, c: Computing, key: EventKey) {
    key in c.s.outbox && HasContent(key) ==> IsSaid(w, key, c.s.outbox[key].message.body)
  }

  ghost predicate ContentsFit(w: World, c: Computing) {
    && (forall p {:trigger WorkerFits(w, c, p)} :: WorkerFits(w, c, p))
    && (forall key {:trigger RowSays(w, c, key)} :: RowSays(w, c, key))
  }

  // ---- Every step keeps that ----

  /** Only p has moved, or come in, and it holds what its new place needs. */
  predicate OnlyMoved(w: World, c: Computing, d: Computing, p: ProcessId) {
    && (forall q :: q in d.s.processes && q != p ==>
          q in c.s.processes && d.s.processes[q] == c.s.processes[q] && ValuesOf(d, q) == ValuesOf(c, q))
    && WorkerFits(w, d, p)
  }

  predicate SameMessages(s: State, t: State) {
    t.outbox.Keys == s.outbox.Keys && forall key :: key in s.outbox ==> t.outbox[key].message == s.outbox[key].message
  }

  lemma WorkersStayFit(w: World, c: Computing, d: Computing, p: ProcessId)
    requires ContentsFit(w, c) && OnlyMoved(w, c, d, p)
    ensures forall q {:trigger WorkerFits(w, d, q)} :: WorkerFits(w, d, q)
  {
    forall q ensures WorkerFits(w, d, q) {
      assert WorkerFits(w, c, q);
    }
  }

  lemma RowsKeepSaying(w: World, c: Computing, d: Computing)
    requires ContentsFit(w, c) && SameMessages(c.s, d.s)
    ensures forall key {:trigger RowSays(w, d, key)} :: RowSays(w, d, key)
  {
    forall key ensures RowSays(w, d, key) {
      assert RowSays(w, c, key);
    }
  }

  lemma OutsideNodes(nodes: nat, pc: Pc)
    requires LeavesNodes(pc)
    ensures WellNested(pc) && NodesRun(nodes, pc).None?
  {
  }

  lemma NestedFits(w: World, e: ExecutionId, row: OutboxRow, after: Pc, onThrow: Pc, values: seq<Record>)
    requires HoldsValues(w, e, after, values) && LeavesNodes(onThrow)
    ensures HoldsValues(w, e, Send(row, after, onThrow), values)
  {
  }

  lemma FlushingHolds(w: World, e: ExecutionId, pc: Pc, next: Pc, values: seq<Record>)
    requires pc.Flushing? && HoldsValues(w, e, pc, values)
    requires next == if pc.snapshots == [] then pc.after
                     else Send(pc.snapshots[0], Flushing(pc.snapshots[1..], pc.after, pc.onThrow), pc.onThrow)
    ensures HoldsValues(w, e, next, values)
  {
    OutsideNodes(|w.schedule(e)|, pc.after);
    if pc.snapshots != [] {
      var rest := Flushing(pc.snapshots[1..], pc.after, pc.onThrow);
      assert HoldsValues(w, e, rest, values);
      NestedFits(w, e, pc.snapshots[0], rest, pc.onThrow, values);
    }
  }

  lemma LookHolds(w: World, e: ExecutionId, status: Option<ExecutionStatus>, attempt: nat, pc: Pc, next: Pc,
                  values: seq<Record>)
    requires Moves(OrdersOf(w)(e), status, attempt, pc, next) && !pc.Send? && !pc.Flushing? && !pc.ExecuteNode?
    requires if pc.Reload? then values == [] else HoldsValues(w, e, pc, values)
    ensures HoldsValues(w, e, next, values)
  {
  }

  lemma ComputedHolds(w: World, e: ExecutionId, k: nat, next: Pc, values: seq<Record>, output: Record)
    requires HoldsValues(w, e, ExecuteNode(k), values) && MayCompute(w, e, values, output)
    ensures HoldsValues(w, e, PersistNodeCompleted(k), values + [output])
  {
    PossibleExtended(w, e, values, output);
  }

  lemma MoveHolds(w: World, c: Computing, d: Computing, step: Step)
    requires ComputingStep(w, c, d, step) && step.Move? && WorkerFits(w, c, step.p)
    ensures OnlyMoved(w, c, d, step.p)
  {
    var p := step.p;
    var process := c.s.processes[p];
    var e, pc := process.execution, process.pc;
    if pc.Flushing? {
      FlushingHolds(w, e, pc, step.next, ValuesOf(c, p));
    } else if pc.ExecuteNode? {
      if step.next.PersistNodeCompleted? {
        var output :| MayCompute(w, e, ValuesOf(c, p), output) && d.values == c.values[p := ValuesOf(c, p) + [output]];
        ComputedHolds(w, e, pc.k, step.next, ValuesOf(c, p), output);
      }
    } else if !pc.Send? {
      LookHolds(w, e, StatusOf(c.s, e), AttemptOf(c.s, p), pc, step.next, ValuesOf(d, p));
    }
  }

  lemma ThrowHolds(w: World, c: Computing, d: Computing, step: Step)
    requires ComputingStep(w, c, d, step) && step.Throw? && WorkerFits(w, c, step.p)
    ensures OnlyMoved(w, c, d, step.p)
  {
    OutsideNodes(|w.schedule(c.s.processes[step.p].execution)|, d.s.processes[step.p].pc);
  }

  lemma DispatchHolds(w: World, e: ExecutionId, pc: Pc, row: OutboxRow, values: seq<Record>)
    requires PersistedKey(OrdersOf(w)(e), e, pc).Some?
    requires if pc.BeginTx? || pc.PersistStarted? then values == [] else HoldsValues(w, e, pc, values)
    ensures HoldsValues(w, e, DispatchAfter(pc, row), values)
  {
  }

  lemma PersistHolds(w: World, c: Computing, d: Computing, step: Step)
    requires ComputingStep(w, c, d, step) && step.Persist? && WorkerFits(w, c, step.p)
    ensures OnlyMoved(w, c, d, step.p)
  {
    var e, pc := c.s.processes[step.p].execution, c.s.processes[step.p].pc;
    var key := PersistedKey(OrdersOf(w)(e), e, pc).value;
    DispatchHolds(w, e, pc, d.s.outbox[key], ValuesOf(d, step.p));
  }

  lemma PersistedIsSaid(w: World, e: ExecutionId, pc: Pc, key: EventKey, body: string, values: seq<Record>)
    requires HoldsValues(w, e, pc, values) && PersistedKey(OrdersOf(w)(e), e, pc) == Some(key)
    requires HasContent(key) && BodySays(w, key, body, values)
    ensures IsSaid(w, key, body)
  {
    assert key.execution == e && AnnouncedAfter(w, key, |values|);
  }

  lemma PersistSays(w: World, c: Computing, d: Computing, step: Step)
    requires ContentsFit(w, c) && ComputingStep(w, c, d, step) && step.Persist?
    ensures forall key {:trigger RowSays(w, d, key)} :: RowSays(w, d, key)
  {
    var p := step.p;
    var e, pc := c.s.processes[p].execution, c.s.processes[p].pc;
    var written := PersistedKey(OrdersOf(w)(e), e, pc).value;
    assert WorkerFits(w, c, p);
    forall key ensures RowSays(w, d, key) {
      assert RowSays(w, c, key);
      if key == written && key !in c.s.outbox && HasContent(key) {
        PersistedIsSaid(w, e, pc, key, step.body, ValuesOf(c, p));
      }
    }
  }

  lemma FetchHolds(w: World, c: Computing, d: Computing, step: Step)
    requires ComputingStep(w, c, d, step) && step.Fetch? && WorkerFits(w, c, step.p)
    ensures OnlyMoved(w, c, d, step.p)
  {
  }

  lemma PublishHolds(w: World, c: Computing, d: Computing, step: Step)
    requires ComputingStep(w, c, d, step) && step.Publish? && WorkerFits(w, c, step.p)
    ensures OnlyMoved(w, c, d, step.p)
  {
  }

  lemma RecordHolds(w: World, c: Computing, d: Computing, step: Step)
    requires ComputingStep(w, c, d, step) && step.RecordPublish? && WorkerFits(w, c, step.p)
    ensures OnlyMoved(w, c, d, step.p)
  {
    OutsideNodes(|w.schedule(c.s.processes[step.p].execution)|, c.s.processes[step.p].pc.onThrow);
  }

  lemma StartHolds(w: World, c: Computing, d: Computing, step: Step)
    requires ComputingStep(w, c, d, step) && (step.StartDispatcher? || step.Deliver?)
    ensures OnlyMoved(w, c, d, step.p) && SameMessages(c.s, d.s)
  {
  }

  lemma RetryHolds(w: World, c: Computing, d: Computing, step: Step)
    requires ComputingStep(w, c, d, step) && step.PublishRetry?
    ensures OnlyMoved(w, c, d, step.p)
  {
    assert d.s.processes[step.p].pc == AckReplaced;
  }

  lemma DeadLetterHolds(w: World, c: Computing, d: Computing, step: Step)
    requires ComputingStep(w, c, d, step) && step.PublishDeadLetter?
    ensures OnlyMoved(w, c, d, step.p)
  {
    assert d.s.processes[step.p].pc == Ack;
  }

  lemma EndHolds(w: World, c: Computing, d: Computing, step: Step)
    requires ComputingStep(w, c, d, step) && (step.Finish? || step.Crash?)
    ensures OnlyMoved(w, c, d, step.p)
  {
    assert step.p !in d.s.processes;
  }

  lemma FinalStepHolds(w: World, c: Computing, d: Computing, step: Step)
    requires ComputingStep(w, c, d, step) && IsFinalStep(step)
    ensures OnlyMoved(w, c, d, step.p)
  {
    if step.PublishRetry? {
      RetryHolds(w, c, d, step);
    } else if step.PublishDeadLetter? {
      DeadLetterHolds(w, c, d, step);
    } else {
      EndHolds(w, c, d, step);
    }
  }

  lemma EndKeepsMessages(w: World, c: Computing, d: Computing, step: Step)
    requires ComputingStep(w, c, d, step) && IsFinalStep(step)
    ensures SameMessages(c.s, d.s)
  {
    assert d.s.outbox == c.s.outbox;
  }

  lemma SurroundingsHold(w: World, c: Computing, d: Computing, step: Step)
    requires ContentsFit(w, c) && ComputingStep(w, c, d, step)
    requires !IsWorkStep(step) && !IsFinalStep(step) && !step.StartDispatcher? && !step.Deliver?
    ensures ContentsFit(w, d)
  {
    assert d.s.processes == c.s.processes && d.s.outbox == c.s.outbox && d.values == c.values;
    assert WorkerFits(w, c, 0);
    WorkersStayFit(w, c, d, 0);
    RowsKeepSaying(w, c, d);
  }

  lemma WorkKeepsMessages(w: World, c: Computing, d: Computing, step: Step)
    requires ComputingStep(w, c, d, step) && IsWorkStep(step) && !step.Persist?
    ensures SameMessages(c.s, d.s)
  {
    if !step.RecordPublish? {
      assert d.s.outbox == c.s.outbox;
    }
  }

  lemma WorkHolds(w: World, c: Computing, d: Computing, step: Step)
    requires ComputingStep(w, c, d, step) && IsWorkStep(step) && WorkerFits(w, c, step.p)
    ensures OnlyMoved(w, c, d, step.p)
  {
    if step.Move? {
      MoveHolds(w, c, d, step);
    } else if step.Throw? {
      ThrowHolds(w, c, d, step);
    } else if step.Persist? {
      PersistHolds(w, c, d, step);
    } else if step.Fetch? {
      FetchHolds(w, c, d, step);
    } else if step.Publish? {
      PublishHolds(w, c, d, step);
    } else {
      RecordHolds(w, c, d, step);
    }
  }

  lemma StepKeepsContents(w: World, c: Computing, d: Computing, step: Step)
    requires ContentsFit(w, c) && ComputingStep(w, c, d, step)
    ensures ContentsFit(w, d)
  {
    if IsWorkStep(step) {
      assert WorkerFits(w, c, step.p);
      WorkHolds(w, c, d, step);
      WorkersStayFit(w, c, d, step.p);
      if step.Persist? {
        PersistSays(w, c, d, step);
      } else {
        WorkKeepsMessages(w, c, d, step);
        RowsKeepSaying(w, c, d);
      }
    } else if IsFinalStep(step) {
      FinalStepHolds(w, c, d, step);
      EndKeepsMessages(w, c, d, step);
      WorkersStayFit(w, c, d, step.p);
      RowsKeepSaying(w, c, d);
    } else if step.StartDispatcher? || step.Deliver? {
      StartHolds(w, c, d, step);
      WorkersStayFit(w, c, d, step.p);
      RowsKeepSaying(w, c, d);
    } else {
      SurroundingsHold(w, c, d, step);
    }
  }

  lemma NextKeepsContents(w: World, c: Computing, d: Computing)
    requires ContentsFit(w, c) && ComputingNext(w, c, d)
    ensures ContentsFit(w, d)
  {
    var step :| ComputingStep(w, c, d, step);
    StepKeepsContents(w, c, d, step);
  }

  lemma {:induction false} RunKeepsContents(w: World, run: seq<Computing>, i: nat)
    requires IsComputation(w, run) && i < |run|
    ensures ContentsFit(w, run[i])
    decreases i
  {
    if i > 0 {
      RunKeepsContents(w, run, i - 1);
      assert ComputingAt(w, run, i - 1);
      NextKeepsContents(w, run[i - 1], run[i]);
    }
  }

  /** Workers only hold outputs an attempt may have, and rows only say what some attempt may have computed. */
  lemma ComputedFits(w: World, c: Computing)
    requires Computed(w, c)
    ensures ContentsFit(w, c)
  {
    var run :| IsComputation(w, run) && run[|run| - 1] == c;
    RunKeepsContents(w, run, |run| - 1);
  }

  function StatesOf(run: seq<Computing>): (states: seq<State>)
    ensures |states| == |run| && forall i :: 0 <= i < |run| ==> states[i] == run[i].s
  {
    seq(|run|, i requires 0 <= i < |run| => run[i].s)
  }

  lemma NextForgetsValues(w: World, c: Computing, d: Computing)
    requires ComputingNext(w, c, d)
    ensures Next(OrdersOf(w), c.s, d.s)
  {
  }

  lemma RunForgetsValues(w: World, run: seq<Computing>)
    requires IsComputation(w, run)
    ensures IsPath(OrdersOf(w), StatesOf(run))
  {
    var states := StatesOf(run);
    forall i: nat ensures NextAt(OrdersOf(w), states, i) {
      assert ComputingAt(w, run, i);
      if i + 1 < |run| {
        NextForgetsValues(w, run[i], run[i + 1]);
      }
    }
  }

  /** Values change nothing about which states are reached. */
  lemma ComputedIsReachable(w: World, c: Computing)
    requires Computed(w, c)
    ensures Reachable(OrdersOf(w), c.s)
  {
    var run: seq<Computing> :| IsComputation(w, run) && run[|run| - 1] == c;
    RunForgetsValues(w, run);
    var states := StatesOf(run);
    assert states[0] == run[0].s && states[|states| - 1] == c.s;
  }
}
