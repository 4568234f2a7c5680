/** One attempt at running a workflow: the worker's sequential loop over the scheduled nodes. */
module Interpreter {
  import opened Wrappers
  import opened Digraph
  import opened SeqFacts
  import opened WorkflowDefinitions
  import opened DefinitionSchema
  import opened NodeOrder
  import opened ReleaseOrder
  import opened OrderFreeRules
  import opened JsonRecords
  import opened WorkerErrors
  import opened DagSemantics

  // ---- Node rows ----

  datatype NodeStatus = RUNNING | SUCCEEDED | FAILED

  datatype NodeRow = NodeRow(status: NodeStatus, input: Record, output: Option<Record>, error: Option<WorkerFailure>)

  /** The node rows of one execution, unique per node. */
  class NodeExecutionTable {
    var rows: map<NodeId, NodeRow>

    constructor ()
      ensures rows == map[]
    {
      rows := map[];
    }

    method UpsertRunning(nodeId: NodeId, input: Record)
      modifies this
      ensures rows == old(rows)[nodeId := NodeRow(RUNNING, input, None, None)]
    {
      if nodeId in rows {
        rows := rows[nodeId := rows[nodeId].(status := RUNNING, input := input, output := None, error := None)];
      } else {
        rows := rows[nodeId := NodeRow(RUNNING, input, None, None)];
      }
    }

    method Complete(nodeId: NodeId, output: Record)
      requires nodeId in rows
      modifies this
      ensures rows == old(rows)[nodeId := NodeRow(SUCCEEDED, old(rows)[nodeId].input, Some(output), None)]
    {
      rows := rows[nodeId := rows[nodeId].(status := SUCCEEDED, output := Some(output), error := None)];
    }

    /** Marks the row failed; an output recorded before stays in it. */
    method Fail(nodeId: NodeId, failure: WorkerFailure)
      requires nodeId in rows
      modifies this
      ensures rows == old(rows)[nodeId :=
                                NodeRow(FAILED, old(rows)[nodeId].input, old(rows)[nodeId].output, Some(failure))]
    {
      rows := rows[nodeId := rows[nodeId].(status := FAILED, error := Some(failure))];
    }
  }

  // ---- Inputs ----

  function IncomingEdges(edges: seq<WorkflowEdge>, v: NodeId): seq<WorkflowEdge> {
    if edges == [] then []
    else (if edges[0].target == v then [edges[0]] else []) + IncomingEdges(edges[1..], v)
  }

  function SourcesOf(edges: seq<WorkflowEdge>): set<NodeId> {
    set e | e in edges :: e.source
  }

  function OutputOr(outputs: map<NodeId, Record>, v: NodeId, default: Record): Record {
    if v in outputs then outputs[v] else default
  }

  function GetNodeInput(node: WorkflowNode, d: WorkflowDefinition, nodeOutputs: map<NodeId, Record>,
                        fallbackInput: Record): Record
  {
    var incoming := IncomingEdges(d.edges, node.id);
    if |incoming| == 0 then fallbackInput
    else if |incoming| == 1 then OutputOr(nodeOutputs, incoming[0].source, fallbackInput)
    else map u | u in SourcesOf(incoming) :: JObject(OutputOr(nodeOutputs, u, map[]))
  }

  lemma {:induction false} IncomingEdgesAre(edges: seq<WorkflowEdge>, v: NodeId)
    ensures forall e :: e in IncomingEdges(edges, v) <==> e in edges && e.target == v
    ensures UniquePairs(edges) ==> UniquePairs(IncomingEdges(edges, v))
  {
    if edges != [] {
      var rest := edges[1..];
      assert edges == [edges[0]] + rest;
      IncomingEdgesAre(rest, v);
      if UniquePairs(edges) {
        assert UniquePairs(rest);
        forall e | e in rest ensures !SamePair(edges[0], e) {
          var i :| 0 <= i < |rest| && rest[i] == e;
          assert edges[i + 1] == e;
        }
      }
    }
  }

  /** In a graph without duplicate edges a node has as many incoming edges as predecessors. */
  lemma IncomingSources(d: WorkflowDefinition, v: NodeId)
    requires UniquePairs(d.edges)
    ensures SourcesOf(IncomingEdges(d.edges, v)) == Predecessors(ArcsOf(d.edges), v)
    ensures |IncomingEdges(d.edges, v)| == |Predecessors(ArcsOf(d.edges), v)|
  {
    var incoming, preds := IncomingEdges(d.edges, v), Predecessors(ArcsOf(d.edges), v);
    IncomingEdgesAre(d.edges, v);
    UniquePairsIffCount(incoming);
    forall u ensures u in preds <==> exists e :: e in incoming && e.source == u {
      PredecessorsAre(ArcsOf(d.edges), u, v);
      if u in preds {
        var e :| e in d.edges && (e.source, e.target) == (u, v);
        assert e in incoming;
      }
    }
    PairedWith(preds, v);
    assert ArcsOf(incoming) == set u | u in preds :: (u, v);
  }

  lemma {:induction false} PairedWith(us: set<NodeId>, v: NodeId)
    ensures |set u | u in us :: (u, v)| == |us|
  {
    if us == {} {
      assert (set u | u in us :: (u, v)) == {};
    } else {
      var x :| x in us;
      PairedWith(us - {x}, v);
      assert (set u | u in us :: (u, v)) == (set u | u in us - {x} :: (u, v)) + {(x, v)};
    }
  }

  /** With every predecessor's output recorded, the gathered input is the meaningful one and no default is used. */
  lemma GatheredInput(node: WorkflowNode, d: WorkflowDefinition, outputs: map<NodeId, Record>, fallback: Record,
                      request: Record)
    requires UniquePairs(d.edges)
    requires Predecessors(ArcsOf(d.edges), node.id) <= outputs.Keys
    requires Predecessors(ArcsOf(d.edges), node.id) == {} ==> fallback == request
    ensures GetNodeInput(node, d, outputs, fallback) == InputFrom(Predecessors(ArcsOf(d.edges), node.id), outputs,
                                                                  request)
  {
    var preds := Predecessors(ArcsOf(d.edges), node.id);
    var incoming := IncomingEdges(d.edges, node.id);
    IncomingSources(d, node.id);
    if |incoming| == 1 {
      assert incoming[0].source in SourcesOf(incoming);
      SingletonIs(preds, incoming[0].source);
    } else if |incoming| > 1 {
      JoinsAgree(preds, outputs);
    }
  }

  lemma SingletonIs<T>(s: set<T>, x: T)
    requires |s| == 1 && x in s
    ensures s == {x}
  {
    assert |s - {x}| == 0;
  }

  lemma JoinsAgree(preds: set<NodeId>, outputs: map<NodeId, Record>)
    requires preds <= outputs.Keys
    ensures (map u | u in preds :: JObject(OutputOr(outputs, u, map[]))) == map u | u in preds :: JObject(outputs[u])
  {
  }

  // ---- What one attempt does to each node ----

  datatype Phase = Started | Completed | Failed

  /**
   * The outcomes the code does not decide: what nodes compute, which updates of
   * the node's row go through, and which lifecycle events get published.
   */
  datatype Environment =
    Environment(run: Behaviour, stored: (NodeId, Phase) -> bool, published: (NodeId, Phase) -> bool)

  /** A phase goes well when its row update goes through and its event gets published. */
  predicate PhaseGoesWell(env: Environment, v: NodeId, phase: Phase) {
    env.stored(v, phase) && env.published(v, phase)
  }

  ghost predicate NodeSucceeds(g: Dag, env: Environment, request: Record, v: NodeId)
    requires Acyclic(g.arcs)
  {
    Eval(g, env.run, request, v).Some? && PhaseGoesWell(env, v, Started) && PhaseGoesWell(env, v, Completed)
  }

  ghost function SucceededRow(g: Dag, env: Environment, request: Record, v: NodeId): NodeRow
    requires Acyclic(g.arcs)
  {
    NodeRow(SUCCEEDED, EvalInput(g, env.run, request, v), Eval(g, env.run, request, v), None)
  }

  /**
   * The row left behind by a node that does not succeed; none when the row could
   * not even be marked running.  A failure that cannot be recorded leaves the
   * row running, or succeeded when only the event is missing.
   */
  function RowLeft(env: Environment, node: WorkflowNode, input: Record): Option<NodeRow> {
    var running := NodeRow(RUNNING, input, None, None);
    if !env.stored(node.id, Started) then None
    else if !env.published(node.id, Started) then Some(running)
    else
      match RunNode(env.run, node, input)
      case Err(failure) =>
        Some(if env.stored(node.id, Failed) then NodeRow(FAILED, input, None, Some(failure)) else running)
      case Ok(output) =>
        if !env.stored(node.id, Completed) then
          Some(if env.stored(node.id, Failed) then NodeRow(FAILED, input, None, Some(WORKFLOW_EXECUTION_WORKER_ERROR))
               else running)
        else
          Some(if env.stored(node.id, Failed)
               then NodeRow(FAILED, input, Some(output), Some(WORKFLOW_EXECUTION_WORKER_ERROR))
               else NodeRow(SUCCEEDED, input, Some(output), None))
  }

  /** The error thrown for such a node: its own, unless an update or a publish failed as well. */
  function ErrorThrown(env: Environment, node: WorkflowNode, input: Record): WorkerFailure {
    var r := RunNode(env.run, node, input);
    if PhaseGoesWell(env, node.id, Started) && PhaseGoesWell(env, node.id, Failed) && r.Err? then r.error
    else WORKFLOW_EXECUTION_WORKER_ERROR
  }

  /** The row of the node the attempt stops at. */
  ghost function StoppedRow(g: Dag, env: Environment, request: Record, node: WorkflowNode): Option<NodeRow>
    requires Acyclic(g.arcs)
  {
    RowLeft(env, node, EvalInput(g, env.run, request, node.id))
  }

  /** The error the attempt ends with. */
  ghost function StopFailure(g: Dag, env: Environment, request: Record, node: WorkflowNode): WorkerFailure
    requires Acyclic(g.arcs)
  {
    ErrorThrown(env, node, EvalInput(g, env.run, request, node.id))
  }

  /** Exactly the first k scheduled nodes have succeeded; rows outside them are as before. */
  ghost predicate PrefixSucceeded(g: Dag, env: Environment, request: Record, ids: seq<NodeId>, k: nat,
                                  before: map<NodeId, NodeRow>, rows: map<NodeId, NodeRow>)
    requires Acyclic(g.arcs) && k <= |ids|
  {
    && (forall i :: 0 <= i < k ==>
          && NodeSucceeds(g, env, request, ids[i])
          && ids[i] in rows
          && rows[ids[i]] == SucceededRow(g, env, request, ids[i]))
    && SameOutside(ids[..k], before, rows)
  }

  predicate SameOutside(ids: seq<NodeId>, before: map<NodeId, NodeRow>, rows: map<NodeId, NodeRow>) {
    && (forall v :: v in before && v !in ids ==> v in rows && rows[v] == before[v])
    && (forall v :: v in rows && v !in ids ==> v in before)
  }

  /** v's row is the given one, or what it was before when none is given. */
  predicate RowIs(before: map<NodeId, NodeRow>, rows: map<NodeId, NodeRow>, v: NodeId, row: Option<NodeRow>) {
    match row
    case Some(row) => v in rows && rows[v] == row
    case None => (v in rows <==> v in before) && (v in rows ==> rows[v] == before[v])
  }

  datatype WorkflowOutput = WorkflowOutput(nodeCount: nat, finalOutput: Record)

  /** What running a schedule leaves behind, having stopped after k nodes. */
  ghost predicate ScheduleEnds(g: Dag, env: Environment, request: Record, order: seq<WorkflowNode>, k: nat,
                               before: map<NodeId, NodeRow>, rows: map<NodeId, NodeRow>,
                           r: Result<WorkflowOutput, WorkerFailure>)
    requires Acyclic(g.arcs)
  {
    var ids := IdsOf(order);
    match r
    case Ok(output) =>
      && k == |order| > 0
      && PrefixSucceeded(g, env, request, ids, k, before, rows)
      && output.nodeCount == |order|
      && Eval(g, env.run, request, ids[k - 1]) == Some(output.finalOutput)
    case Err(failure) =>
      && k < |order|
      && !NodeSucceeds(g, env, request, ids[k])
      && RowIs(before, rows, ids[k], StoppedRow(g, env, request, order[k]))
      && failure == StopFailure(g, env, request, order[k])
      && (forall i :: 0 <= i < k ==>
            && NodeSucceeds(g, env, request, ids[i])
            && ids[i] in rows
            && rows[ids[i]] == SucceededRow(g, env, request, ids[i]))
      && SameOutside(ids[..k + 1], before, rows)
  }

  /** What an attempt on an accepted definition leaves behind. */
  ghost predicate AttemptEnds(d: WorkflowDefinition, env: Environment, request: Record, order: seq<WorkflowNode>,
                              k: nat, before: map<NodeId, NodeRow>, rows: map<NodeId, NodeRow>,
                              r: Result<WorkflowOutput, WorkerFailure>)
    requires Acyclic(ArcsOf(d.edges))
  {
    && IsSchedule(d, order) && |order| == |d.nodes|
    && ScheduleEnds(DagOf(d), env, request, order, k, before, rows, r)
  }

  // ---- Facts about schedules ----

  lemma ScheduledNodeIsAt(d: WorkflowDefinition, n: WorkflowNode)
    requires UniqueNodeIds(d) && n in d.nodes
    ensures HasNode(DagOf(d), n.id) && NodeAt(DagOf(d), n.id) == n
  {
    assert n in DagOf(d).nodes;
    SameIdSameNode(d, n, NodeAt(DagOf(d), n.id));
  }

  /** In an accepted definition only triggers lack predecessors. */
  lemma OnlyTriggersStart(d: WorkflowDefinition, n: WorkflowNode)
    requires Accepted(d) && n in d.nodes
    ensures n.nodeType.ManualTrigger? <==> Predecessors(ArcsOf(d.edges), n.id) == {}
  {
    var arcs := ArcsOf(d.edges);
    if n.nodeType.ManualTrigger? {
      assert n.id in TriggerIds(d);
      forall e | e in d.edges ensures e.target != n.id {
      }
    } else {
      assert n.id !in TriggerIds(d) by {
        forall m | m in d.nodes && m.nodeType.ManualTrigger? ensures m.id != n.id {
          if m.id == n.id {
            SameIdSameNode(d, m, n);
          }
        }
      }
      assert n.id in NodeIds(d);
      var t :| t in TriggerIds(d) && Reaches(arcs, t, n.id);
      var k: nat :| Walk(arcs, t, n.id, k);
      var u :| Walk(arcs, t, u, k - 1) && (u, n.id) in arcs;
      PredecessorsAre(arcs, u, n.id);
    }
  }

  /** Before a trigger come only triggers. */
  lemma TriggersComeFirst(d: WorkflowDefinition, order: seq<WorkflowNode>, i: nat, k: nat)
    requires Accepted(d) && IsSchedule(d, order) && i < k < |order|
    requires order[k].nodeType.ManualTrigger?
    ensures order[i].nodeType.ManualTrigger?
  {
    var triggers := TriggersOf(d.nodes);
    assert order[k] in order;
    TriggersOfAre(d.nodes, order[k].id);
    var j :| 0 <= j < |triggers| && triggers[j] == order[k].id;
    assert IdsOf(order)[j] == IdsOf(order)[k];
    assert triggers[i] == order[i].id;
    TriggersOfAre(d.nodes, order[i].id);
    var n :| n in d.nodes && n.nodeType.ManualTrigger? && n.id == order[i].id;
    assert order[i] in order;
    SameIdSameNode(d, n, order[i]);
  }

  lemma PredecessorsAreScheduled(d: WorkflowDefinition, order: seq<WorkflowNode>, k: nat)
    requires IsSchedule(d, order) && k < |order|
    ensures forall u :: u in Predecessors(ArcsOf(d.edges), order[k].id) ==> u in IdsOf(order)[..k]
  {
    forall u | u in Predecessors(ArcsOf(d.edges), order[k].id) ensures u in IdsOf(order)[..k] {
      assert (u, IdsOf(order)[k]) in ArcsOf(d.edges);
    }
  }

  /** A node that nothing follows. */
  ghost predicate IsSink(d: WorkflowDefinition, v: NodeId) {
    v in NodeIds(d) && forall w :: (v, w) !in ArcsOf(d.edges)
  }

  ghost predicate OnlySink(d: WorkflowDefinition, sink: NodeId) {
    forall v :: IsSink(d, v) <==> v == sink
  }

  lemma NoArcBackwards(arcs: Arcs, ids: seq<NodeId>, i: nat, j: nat)
    requires PredecessorsFirst(arcs, ids) && Distinct(ids) && i <= j < |ids|
    ensures (ids[j], ids[i]) !in arcs
  {
    assert ids[j] !in ids[..i];
  }

  /** The last scheduled node has nothing after it. */
  lemma LastIsSink(d: WorkflowDefinition, order: seq<WorkflowNode>)
    requires EndpointsExist(d) && IsSchedule(d, order) && |order| > 0
    ensures IsSink(d, order[|order| - 1].id)
  {
    var ids, last := IdsOf(order), |order| - 1;
    assert order[last] in order;
    forall w ensures (ids[last], w) !in ArcsOf(d.edges) {
      if w in NodeIds(d) {
        var n :| n in d.nodes && n.id == w;
        var i :| 0 <= i < |order| && order[i] == n;
        NoArcBackwards(ArcsOf(d.edges), ids, i, last);
      } else if (ids[last], w) in ArcsOf(d.edges) {
        ArcsHaveEndpoints(d, ids[last], w);
      }
    }
  }

  // ---- The loop ----

  /** What the loop knows before running node k. */
  ghost predicate LoopState(g: Dag, run: Behaviour, request: Record, ids: seq<NodeId>, k: nat,
                            outputs: map<NodeId, Record>, currentInput: Record)
    requires Acyclic(g.arcs)
  {
    && k <= |ids|
    && (forall v :: v in outputs <==> v in ids[..k])
    && RecordsEval(g, run, request, outputs)
    && (k == 0 ==> currentInput == request)
    && (k > 0 ==> ids[k - 1] in outputs && currentInput == outputs[ids[k - 1]])
  }

  lemma TriggerEvaluatesToRequest(d: WorkflowDefinition, run: Behaviour, request: Record, n: WorkflowNode)
    requires Accepted(d) && n in d.nodes && n.nodeType.ManualTrigger?
    ensures Eval(DagOf(d), run, request, n.id) == Some(request)
  {
    OnlyTriggersStart(d, n);
    ScheduledNodeIsAt(d, n);
    EvalFromRecorded(DagOf(d), run, request, map[], n.id);
  }

  /** Before a node without predecessors stand only triggers. */
  lemma PreviousEvaluatesToRequest(d: WorkflowDefinition, run: Behaviour, request: Record, order: seq<WorkflowNode>,
                                   k: nat)
    requires Accepted(d) && IsSchedule(d, order) && 0 < k < |order|
    requires Predecessors(ArcsOf(d.edges), order[k].id) == {}
    ensures Eval(DagOf(d), run, request, order[k - 1].id) == Some(request)
  {
    assert order[k] in order && order[k - 1] in order;
    OnlyTriggersStart(d, order[k]);
    TriggersComeFirst(d, order, k - 1, k);
    TriggerEvaluatesToRequest(d, run, request, order[k - 1]);
  }

  /** The input carried along the loop is still the request when a trigger picks it up. */
  lemma FallbackIsRequest(d: WorkflowDefinition, env: Environment, request: Record, order: seq<WorkflowNode>, k: nat,
                          outputs: map<NodeId, Record>, currentInput: Record)
    requires Accepted(d) && IsSchedule(d, order) && k < |order|
    requires LoopState(DagOf(d), env.run, request, IdsOf(order), k, outputs, currentInput)
    ensures Predecessors(ArcsOf(d.edges), order[k].id) == {} ==> currentInput == request
  {
    if k > 0 && Predecessors(ArcsOf(d.edges), order[k].id) == {} {
      PreviousEvaluatesToRequest(d, env.run, request, order, k);
    }
  }

  /** The input gathered for node k is the one its meaning is computed from. */
  lemma LoopInput(d: WorkflowDefinition, env: Environment, request: Record, order: seq<WorkflowNode>, k: nat,
                  outputs: map<NodeId, Record>, currentInput: Record)
    requires Accepted(d) && IsSchedule(d, order) && k < |order|
    requires LoopState(DagOf(d), env.run, request, IdsOf(order), k, outputs, currentInput)
    ensures GetNodeInput(order[k], d, outputs, currentInput) == EvalInput(DagOf(d), env.run, request, order[k].id)
    ensures var r := RunNode(env.run, order[k], EvalInput(DagOf(d), env.run, request, order[k].id));
            Eval(DagOf(d), env.run, request, order[k].id) == if r.Ok? then Some(r.value) else None
  {
    var node := order[k];
    assert node in order;
    PredecessorsAreScheduled(d, order, k);
    FallbackIsRequest(d, env, request, order, k, outputs, currentInput);
    GatheredInput(node, d, outputs, currentInput, request);
    ScheduledNodeIsAt(d, node);
    EvalFromRecorded(DagOf(d), env.run, request, outputs, node.id);
  }

  lemma LoopStateStep(g: Dag, run: Behaviour, request: Record, ids: seq<NodeId>, k: nat,
                      outputs: map<NodeId, Record>, currentInput: Record, output: Record)
    requires Acyclic(g.arcs) && k < |ids|
    requires LoopState(g, run, request, ids, k, outputs, currentInput)
    requires Eval(g, run, request, ids[k]) == Some(output)
    ensures LoopState(g, run, request, ids, k + 1, outputs[ids[k] := output], output)
  {
    assert ids[..k + 1] == ids[..k] + [ids[k]];
    assert forall v :: v in ids[..k + 1] <==> v in ids[..k] || v == ids[k];
  }

  lemma PrefixStep(g: Dag, env: Environment, request: Record, ids: seq<NodeId>, k: nat,
                   before: map<NodeId, NodeRow>, rows: map<NodeId, NodeRow>)
    requires Acyclic(g.arcs) && k < |ids| && Distinct(ids)
    requires PrefixSucceeded(g, env, request, ids, k, before, rows) && NodeSucceeds(g, env, request, ids[k])
    ensures PrefixSucceeded(g, env, request, ids, k + 1, before, rows[ids[k] := SucceededRow(g, env, request, ids[k])])
  {
    assert ids[..k + 1] == ids[..k] + [ids[k]];
  }

  method ParseWorkflowDefinition(d: WorkflowDefinition) returns (r: Result<WorkflowDefinition, WorkerFailure>)
    ensures r == if Accepted(d) then Ok(d) else Err(WorkerFailure("workflow_definition_invalid", false))
  {
    var issues := SafeParse(d);
    return if issues == [] then Ok(d) else Err(WORKFLOW_DEFINITION_INVALID);
  }

  /** The rows after a node that does not succeed. */
  function RowsLeft(rows: map<NodeId, NodeRow>, v: NodeId, row: Option<NodeRow>): map<NodeId, NodeRow> {
    if row.Some? then rows[v := row.value] else rows
  }

  /** Runs one node: records it as running, announces it, computes it, records and announces the outcome. */
  method RunScheduledNode(node: WorkflowNode, input: Record, env: Environment, table: NodeExecutionTable)
    returns (r: Result<Record, WorkerFailure>)
    modifies table
    ensures r.Ok? <==> PhaseGoesWell(env, node.id, Started) && PhaseGoesWell(env, node.id, Completed)
                       && RunNode(env.run, node, input).Ok?
    ensures r.Ok? ==> RunNode(env.run, node, input) == r
    ensures r.Ok? ==> table.rows == old(table.rows)[node.id := NodeRow(SUCCEEDED, input, Some(r.value), None)]
    ensures r.Err? ==> table.rows == RowsLeft(old(table.rows), node.id, RowLeft(env, node, input))
    ensures r.Err? ==> r.error == ErrorThrown(env, node, input)
  {
    if !env.stored(node.id, Started) {
      return Err(WORKFLOW_EXECUTION_WORKER_ERROR);
    }
    table.UpsertRunning(node.id, input);
    if !env.published(node.id, Started) {
      return Err(WORKFLOW_EXECUTION_WORKER_ERROR);
    }
    r := RunNode(env.run, node, input);
    if r.Ok? {
      if env.stored(node.id, Completed) {
        table.Complete(node.id, r.value);
        if env.published(node.id, Completed) {
          return r;
        }
      }
      r := Err(WORKFLOW_EXECUTION_WORKER_ERROR);
    }
    if !env.stored(node.id, Failed) {
      return Err(WORKFLOW_EXECUTION_WORKER_ERROR);
    }
    table.Fail(node.id, r.error);
    if !env.published(node.id, Failed) {
      r := Err(WORKFLOW_EXECUTION_WORKER_ERROR);
    }
  }

  /** Runs the scheduled nodes in turn, stopping at the first that does not succeed. */
  method RunSchedule(d: WorkflowDefinition, orderedNodes: seq<WorkflowNode>, request: Record, env: Environment,
                     table: NodeExecutionTable)
    returns (r: Result<WorkflowOutput, WorkerFailure>, ghost k: nat)
    requires Acyclic(ArcsOf(d.edges)) && Distinct(IdsOf(orderedNodes)) && |orderedNodes| > 0
    requires InputsAreMeaningful(d, env.run, request, orderedNodes)
    modifies table
    ensures ScheduleEnds(DagOf(d), env, request, orderedNodes, k, old(table.rows), table.rows, r)
  {
    ghost var g, ids := DagOf(d), IdsOf(orderedNodes);
    var nodeOutputs: map<NodeId, Record> := map[];
    var currentInput := request;
    for i := 0 to |orderedNodes|
      invariant LoopState(g, env.run, request, ids, i, nodeOutputs, currentInput)
      invariant PrefixSucceeded(g, env, request, ids, i, old(table.rows), table.rows)
    {
      var node := orderedNodes[i];
      var input := GetNodeInput(node, d, nodeOutputs, currentInput);
      assert InputIsMeaningful(d, env.run, request, node, input);
      ghost var rows := table.rows;
      var outcome := RunScheduledNode(node, input, env, table);
      if outcome.Err? {
        StoppedAttempt(g, env, request, orderedNodes, i, old(table.rows), rows, table.rows);
        return Err(outcome.error), i;
      }
      PrefixStep(g, env, request, ids, i, old(table.rows), rows);
      LoopStateStep(g, env.run, request, ids, i, nodeOutputs, currentInput, outcome.value);
      nodeOutputs := nodeOutputs[node.id := outcome.value];
      currentInput := outcome.value;
    }
    return Ok(WorkflowOutput(|orderedNodes|, currentInput)), |orderedNodes|;
  }

  /** One attempt: the stored definition is parsed again, ordered and run. */
  method ExecuteWorkflowNodes(d: WorkflowDefinition, request: Record, env: Environment, table: NodeExecutionTable)
    returns (r: Result<WorkflowOutput, WorkerFailure>, ghost order: seq<WorkflowNode>, ghost k: nat)
    modifies table
    ensures !Accepted(d) ==>
              r == Err(WorkerFailure("workflow_definition_invalid", false)) && table.rows == old(table.rows)
    ensures Accepted(d) ==> AttemptEnds(d, env, request, order, k, old(table.rows), table.rows, r)
    ensures Accepted(d) ==> InReleaseOrder(d.edges, IdsOf(order), IdsOf(order))
  {
    order, k := [], 0;
    var definition := ParseWorkflowDefinition(d);
    if definition.Err? {
      return Err(definition.error), order, k;
    }
    AcceptedIsOrderable(d);
    var ordered := OrderWorkflowNodes(d);
    if ordered.Err? {
      return Err(ordered.error), order, k;
    }
    order := ordered.value;
    ScheduleInputsAreMeaningful(d, env, request, order);
    r, k := RunSchedule(d, ordered.value, request, env, table);
  }

  lemma AcceptedIsOrderable(d: WorkflowDefinition)
    requires Accepted(d)
    ensures Orderable(d)
  {
  }

  lemma StoppedAttempt(g: Dag, env: Environment, request: Record, order: seq<WorkflowNode>, k: nat,
                       before: map<NodeId, NodeRow>, middle: map<NodeId, NodeRow>, rows: map<NodeId, NodeRow>)
    requires Acyclic(g.arcs) && Distinct(IdsOf(order)) && k < |order|
    requires PrefixSucceeded(g, env, request, IdsOf(order), k, before, middle)
    requires !NodeSucceeds(g, env, request, order[k].id)
    requires rows == RowsLeft(middle, order[k].id, StoppedRow(g, env, request, order[k]))
    ensures ScheduleEnds(g, env, request, order, k, before, rows, Err(StopFailure(g, env, request, order[k])))
  {
    var ids := IdsOf(order);
    assert ids[..k + 1] == ids[..k] + [ids[k]];
    assert forall v :: v in ids[..k + 1] <==> v in ids[..k] || v == ids[k];
  }

  /** Whenever the loop reaches a node, the input it gathers is the meaningful one. */
  ghost predicate InputsAreMeaningful(d: WorkflowDefinition, run: Behaviour, request: Record, order: seq<WorkflowNode>)
    requires Acyclic(ArcsOf(d.edges))
  {
    forall k, outputs, currentInput {:trigger LoopState(DagOf(d), run, request, IdsOf(order), k, outputs,
                                                        currentInput)} ::
      0 <= k < |order| && LoopState(DagOf(d), run, request, IdsOf(order), k, outputs, currentInput) ==>
        InputIsMeaningful(d, run, request, order[k], GetNodeInput(order[k], d, outputs, currentInput))
  }

  ghost predicate InputIsMeaningful(d: WorkflowDefinition, run: Behaviour, request: Record, node: WorkflowNode,
                                    input: Record)
    requires Acyclic(ArcsOf(d.edges))
  {
    && input == EvalInput(DagOf(d), run, request, node.id)
    && Eval(DagOf(d), run, request, node.id) ==
         match RunNode(run, node, input)
         case Ok(v) => Some(v)
         case Err(_) => None
  }

  lemma ScheduleInputsAreMeaningful(d: WorkflowDefinition, env: Environment, request: Record, order: seq<WorkflowNode>)
    requires Accepted(d) && IsSchedule(d, order)
    ensures InputsAreMeaningful(d, env.run, request, order)
  {
    forall k, outputs, currentInput {:trigger LoopState(DagOf(d), env.run, request, IdsOf(order), k, outputs,
                                                        currentInput)}
      | 0 <= k < |order| && LoopState(DagOf(d), env.run, request, IdsOf(order), k, outputs, currentInput)
      ensures InputIsMeaningful(d, env.run, request, order[k], GetNodeInput(order[k], d, outputs, currentInput))
    {
      LoopInput(d, env, request, order, k, outputs, currentInput);
    }
  }

  // ---- What follows for whole attempts ----

  /** An attempt succeeds exactly when every node does, and then every row holds its node's meaning. */
  lemma AttemptSucceedsIff(d: WorkflowDefinition, env: Environment, request: Record, order: seq<WorkflowNode>, k: nat,
                           before: map<NodeId, NodeRow>, rows: map<NodeId, NodeRow>,
                           r: Result<WorkflowOutput, WorkerFailure>)
    requires Acyclic(ArcsOf(d.edges)) && AttemptEnds(d, env, request, order, k, before, rows, r)
    ensures r.Ok? <==> forall v :: v in NodeIds(d) ==> NodeSucceeds(DagOf(d), env, request, v)
    ensures r.Ok? ==> forall v :: v in NodeIds(d) ==> v in rows && rows[v] == SucceededRow(DagOf(d), env, request, v)
  {
    var ids := IdsOf(order);
    if r.Ok? {
      forall v | v in NodeIds(d)
        ensures NodeSucceeds(DagOf(d), env, request, v) && v in rows
                && rows[v] == SucceededRow(DagOf(d), env, request, v)
      {
        var n :| n in d.nodes && n.id == v;
        var i :| 0 <= i < |order| && order[i] == n;
        assert ids[i] == v;
      }
    } else {
      assert order[k] in order;
      assert ids[k] in NodeIds(d);
    }
  }

  /** With one sink, the reported output is that sink's meaning whatever schedule was followed. */
  lemma SingleSinkOutput(d: WorkflowDefinition, env: Environment, request: Record, order: seq<WorkflowNode>, k: nat,
                         before: map<NodeId, NodeRow>, rows: map<NodeId, NodeRow>,
                         r: Result<WorkflowOutput, WorkerFailure>,
                         sink: NodeId)
    requires EndpointsExist(d) && Acyclic(ArcsOf(d.edges)) && AttemptEnds(d, env, request, order, k, before, rows, r)
             && r.Ok?
    requires OnlySink(d, sink)
    ensures Eval(DagOf(d), env.run, request, sink) == Some(r.value.finalOutput)
  {
    LastNodeIsOnlySink(d, order, sink);
  }

  lemma LastNodeIsOnlySink(d: WorkflowDefinition, order: seq<WorkflowNode>, sink: NodeId)
    requires EndpointsExist(d) && IsSchedule(d, order) && |order| == |d.nodes| > 0
    requires OnlySink(d, sink)
    ensures order[|order| - 1].id == sink
  {
    LastIsSink(d, order);
  }
}
