/**
 * What a workflow computes, said without any schedule: a node's output is its
 * behaviour applied to the outputs of its predecessors.
 */
module DagSemantics {
  import opened Wrappers
  import opened Digraph
  import opened SeqFacts
  import opened WorkflowDefinitions
  import opened OrderFreeRules
  import opened JsonRecords
  import opened WorkerErrors

  /** A definition without the order in which its nodes and edges are listed. */
  datatype Dag = Dag(nodes: set<WorkflowNode>, arcs: Arcs)

  function DagOf(d: WorkflowDefinition): Dag {
    Dag(Elements(d.nodes), ArcsOf(d.edges))
  }

  /** The behaviour of the action nodes, which the model leaves open. */
  type Behaviour = (WorkflowNode, Record) -> Result<Record, WorkerFailure>

  /** A manual trigger passes its input on; every other node does what its type prescribes. */
  function RunNode(run: Behaviour, node: WorkflowNode, input: Record): Result<Record, WorkerFailure> {
    if node.nodeType.ManualTrigger? then Ok(input) else run(node, input)
  }

  function Predecessors(arcs: Arcs, v: NodeId): set<NodeId> {
    set u | u in Sources(arcs) && (u, v) in arcs
  }

  lemma PredecessorsAre(arcs: Arcs, u: NodeId, v: NodeId)
    ensures u in Predecessors(arcs, v) <==> (u, v) in arcs
  {
    if (u, v) in arcs {
      assert (u, v).0 in Sources(arcs);
    }
  }

  /**
   * A node without predecessors gets the request, a single predecessor's output is passed as
   * it is, a join is keyed by predecessor.
   */
  ghost function InputFrom(preds: set<NodeId>, outputs: map<NodeId, Record>, request: Record): Record
    requires preds <= outputs.Keys
  {
    if preds == {} then request
    else if |preds| == 1 then
      var u :| u in preds;
      outputs[u]
    else map u | u in preds :: JObject(outputs[u])
  }

  lemma InputFromAgrees(preds: set<NodeId>, a: map<NodeId, Record>, b: map<NodeId, Record>, request: Record)
    requires preds <= a.Keys && preds <= b.Keys && forall u :: u in preds ==> a[u] == b[u]
    ensures InputFrom(preds, a, request) == InputFrom(preds, b, request)
  {
  }

  ghost predicate HasNode(g: Dag, v: NodeId) {
    exists n :: n in g.nodes && n.id == v
  }

  ghost function NodeAt(g: Dag, v: NodeId): (n: WorkflowNode)
    requires HasNode(g, v)
    ensures n in g.nodes && n.id == v
  {
    var n :| n in g.nodes && n.id == v;
    n
  }

  lemma PredecessorsRankLower(arcs: Arcs, v: NodeId)
    requires Acyclic(arcs)
    ensures forall u :: u in Predecessors(arcs, v) ==> Rank(arcs, u) < Rank(arcs, v)
  {
    forall u | u in Predecessors(arcs, v) ensures Rank(arcs, u) < Rank(arcs, v) {
      RankGrows(arcs, u, v);
    }
  }

  function Known(before: map<NodeId, Option<Record>>): map<NodeId, Record> {
    map u | u in before && before[u].Some? :: before[u].value
  }

  /** The recursive meaning of a node: nothing when it, or something before it, fails. */
  ghost function Eval(g: Dag, run: Behaviour, request: Record, v: NodeId): Option<Record>
    requires Acyclic(g.arcs)
    decreases Rank(g.arcs, v), 1
  {
    EvalNode(g, run, request, v, EvalBefore(g, run, request, v))
  }

  /** The meanings of a node's predecessors. */
  ghost function EvalBefore(g: Dag, run: Behaviour, request: Record, v: NodeId): map<NodeId, Option<Record>>
    requires Acyclic(g.arcs)
    decreases Rank(g.arcs, v), 0
  {
    PredecessorsRankLower(g.arcs, v);
    map u | u in Predecessors(g.arcs, v) :: Eval(g, run, request, u)
  }

  ghost function EvalNode(g: Dag, run: Behaviour, request: Record, v: NodeId,
                          before: map<NodeId, Option<Record>>): Option<Record>
  {
    if HasNode(g, v) && Predecessors(g.arcs, v) <= Known(before).Keys then
      var r := RunNode(run, NodeAt(g, v), InputFrom(Predecessors(g.arcs, v), Known(before), request));
      if r.Ok? then Some(r.value) else None
    else None
  }

  /** The input a node's meaning is computed from. */
  ghost function EvalInput(g: Dag, run: Behaviour, request: Record, v: NodeId): Record
    requires Acyclic(g.arcs)
  {
    var known := Known(EvalBefore(g, run, request, v));
    if Predecessors(g.arcs, v) <= known.Keys then InputFrom(Predecessors(g.arcs, v), known, request) else map[]
  }

  /** Outputs recorded so far are what the nodes mean. */
  ghost predicate RecordsEval(g: Dag, run: Behaviour, request: Record, outputs: map<NodeId, Record>)
    requires Acyclic(g.arcs)
  {
    forall u :: u in outputs ==> Eval(g, run, request, u) == Some(outputs[u])
  }

  lemma EvalFromRecorded(g: Dag, run: Behaviour, request: Record, outputs: map<NodeId, Record>, v: NodeId)
    requires Acyclic(g.arcs) && HasNode(g, v)
    requires RecordsEval(g, run, request, outputs) && Predecessors(g.arcs, v) <= outputs.Keys
    ensures EvalInput(g, run, request, v) == InputFrom(Predecessors(g.arcs, v), outputs, request)
    ensures var r := RunNode(run, NodeAt(g, v), EvalInput(g, run, request, v));
            Eval(g, run, request, v) == if r.Ok? then Some(r.value) else None
  {
    RecordedBefore(g, run, request, outputs, v);
    InputFromAgrees(Predecessors(g.arcs, v), Known(EvalBefore(g, run, request, v)), outputs, request);
  }

  lemma RecordedBefore(g: Dag, run: Behaviour, request: Record, outputs: map<NodeId, Record>, v: NodeId)
    requires Acyclic(g.arcs)
    requires RecordsEval(g, run, request, outputs) && Predecessors(g.arcs, v) <= outputs.Keys
    ensures Known(EvalBefore(g, run, request, v)).Keys == Predecessors(g.arcs, v)
    ensures forall u :: u in Predecessors(g.arcs, v) ==> Known(EvalBefore(g, run, request, v))[u] == outputs[u]
  {
    var before := EvalBefore(g, run, request, v);
    assert forall u :: u in Predecessors(g.arcs, v) ==> before[u] == Some(outputs[u]);
  }

  /** Every predecessor of v has a meaning. */
  ghost predicate PredecessorsEvaluate(g: Dag, run: Behaviour, request: Record, v: NodeId)
    requires Acyclic(g.arcs)
  {
    forall u :: (u, v) in g.arcs ==> Eval(g, run, request, u).Some?
  }

  lemma InputIsFrom(g: Dag, run: Behaviour, request: Record, v: NodeId)
    requires Acyclic(g.arcs) && PredecessorsEvaluate(g, run, request, v)
    ensures var known := Known(EvalBefore(g, run, request, v));
            && known.Keys == Predecessors(g.arcs, v)
            && (forall u :: u in known ==> Some(known[u]) == Eval(g, run, request, u))
            && EvalInput(g, run, request, v) == InputFrom(Predecessors(g.arcs, v), known, request)
  {
    forall u ensures u in Predecessors(g.arcs, v) <==> (u, v) in g.arcs {
      PredecessorsAre(g.arcs, u, v);
    }
    var before := EvalBefore(g, run, request, v);
    assert forall u :: u in Predecessors(g.arcs, v) ==> before[u] == Eval(g, run, request, u);
    assert Known(before).Keys == Predecessors(g.arcs, v);
  }

  /** A sole predecessor's output is passed on as it is. */
  lemma SoleInput(g: Dag, run: Behaviour, request: Record, u: NodeId, v: NodeId)
    requires Acyclic(g.arcs) && PredecessorsEvaluate(g, run, request, v)
    requires (u, v) in g.arcs && forall w :: (w, v) in g.arcs ==> w == u
    ensures Some(EvalInput(g, run, request, v)) == Eval(g, run, request, u)
  {
    InputIsFrom(g, run, request, v);
    forall w ensures w in Predecessors(g.arcs, v) <==> (w, v) in g.arcs {
      PredecessorsAre(g.arcs, w, v);
    }
    assert Predecessors(g.arcs, v) == {u};
  }

  /** A join gets exactly one entry for each predecessor, holding its output. */
  lemma JoinInput(g: Dag, run: Behaviour, request: Record, a: NodeId, b: NodeId, v: NodeId, u: NodeId)
    requires Acyclic(g.arcs) && PredecessorsEvaluate(g, run, request, v)
    requires a != b && (a, v) in g.arcs && (b, v) in g.arcs
    ensures u in EvalInput(g, run, request, v) <==> (u, v) in g.arcs
    ensures (u, v) in g.arcs ==> EvalInput(g, run, request, v)[u] == JObject(Eval(g, run, request, u).value)
  {
    InputIsFrom(g, run, request, v);
    PredecessorsAre(g.arcs, a, v);
    PredecessorsAre(g.arcs, b, v);
    PredecessorsAre(g.arcs, u, v);
    SubsetIsNoLarger({a, b}, Predecessors(g.arcs, v));
  }

  // ---- Listing order is irrelevant ----

  /** The same nodes and edges in another order. */
  ghost predicate Reordered(d: WorkflowDefinition, e: WorkflowDefinition) {
    multiset(d.nodes) == multiset(e.nodes) && multiset(d.edges) == multiset(e.edges)
  }

  lemma ReorderedHasSameDag(d: WorkflowDefinition, e: WorkflowDefinition)
    requires Reordered(d, e)
    ensures DagOf(d) == DagOf(e)
  {
    PermutationSharesElements(d.nodes, e.nodes);
    PermutationSharesElements(d.edges, e.edges);
    assert ArcsOf(d.edges) == set x | x in Elements(d.edges) :: (x.source, x.target);
    assert ArcsOf(e.edges) == set x | x in Elements(e.edges) :: (x.source, x.target);
    assert DagOf(d).nodes == Elements(d.nodes) == Elements(e.nodes) == DagOf(e).nodes;
  }

  /** The schema does not depend on the order of the lists. */
  lemma ReorderedIsAcceptedAlike(d: WorkflowDefinition, e: WorkflowDefinition)
    requires Reordered(d, e)
    ensures Accepted(d) <==> Accepted(e)
  {
    PermutationSharesElements(d.nodes, e.nodes);
    PermutationSharesElements(d.edges, e.edges);
    SameElementsSameShape(d, e);
    SameElementsSameSets(d, e);
    StructuralIff(d);
    StructuralIff(e);
  }

  lemma SameElementsSameShape(d: WorkflowDefinition, e: WorkflowDefinition)
    requires Elements(d.nodes) == Elements(e.nodes) && |d.nodes| == |e.nodes|
    requires Elements(d.edges) == Elements(e.edges) && |d.edges| == |e.edges|
    ensures ShapeValid(d) <==> ShapeValid(e)
  {
    assert forall n :: n in d.nodes <==> n in Elements(d.nodes);
    assert forall n :: n in e.nodes <==> n in Elements(e.nodes);
    assert forall x :: x in d.edges <==> x in Elements(d.edges);
    assert forall x :: x in e.edges <==> x in Elements(e.edges);
  }

  lemma SameElementsSameSets(d: WorkflowDefinition, e: WorkflowDefinition)
    requires Elements(d.nodes) == Elements(e.nodes) && Elements(d.edges) == Elements(e.edges)
    ensures NodeIds(d) == NodeIds(e) && TriggerIds(d) == TriggerIds(e) && ArcsOf(d.edges) == ArcsOf(e.edges)
    ensures EdgeIdSet(d.edges) == EdgeIdSet(e.edges)
  {
    assert forall n :: n in d.nodes <==> n in Elements(d.nodes);
    assert forall n :: n in e.nodes <==> n in Elements(e.nodes);
    assert forall x :: x in d.edges <==> x in Elements(d.edges);
    assert forall x :: x in e.edges <==> x in Elements(e.edges);
  }

  /** Listing the nodes and edges in another order changes neither acceptance nor any node's meaning. */
  lemma ReorderedEvaluatesAlike(d: WorkflowDefinition, e: WorkflowDefinition, run: Behaviour, request: Record,
                                v: NodeId)
    requires Reordered(d, e) && Accepted(d)
    ensures Accepted(e)
    ensures Eval(DagOf(d), run, request, v) == Eval(DagOf(e), run, request, v)
  {
    ReorderedIsAcceptedAlike(d, e);
    ReorderedHasSameDag(d, e);
  }
}
