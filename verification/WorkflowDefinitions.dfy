/** Workflow graphs as users draw them, and what it means for one to be well formed. */
module WorkflowDefinitions {
  import opened Wrappers
  import opened Digraph

  type NodeId = Vertex

  datatype NodeType = ManualTrigger | TransformAction | ConditionAction | HttpRequestAction | AiPromptAction

  datatype Position = Position(x: real, y: real)

  /** A node; its name and type-specific configuration are kept as one opaque text. */
  datatype WorkflowNode = WorkflowNode(id: NodeId, nodeType: NodeType, config: string, position: Option<Position>)

  datatype WorkflowEdge = WorkflowEdge(id: string, source: NodeId, target: NodeId)

  datatype WorkflowDefinition = WorkflowDefinition(nodes: seq<WorkflowNode>, edges: seq<WorkflowEdge>)

  const MAX_NODES := 100
  const MAX_EDGES := 200
  const MAX_ID_LENGTH := 80

  // ---- The graph a definition denotes ----

  function NodeIds(d: WorkflowDefinition): set<NodeId> {
    set n | n in d.nodes :: n.id
  }

  function IdsOf(nodes: seq<WorkflowNode>): (ids: seq<NodeId>)
    ensures |ids| == |nodes| && forall i :: 0 <= i < |ids| ==> ids[i] == nodes[i].id
  {
    seq(|nodes|, i requires 0 <= i < |nodes| => nodes[i].id)
  }

  /** The first node with the given id. */
  function FindNode(nodes: seq<WorkflowNode>, v: NodeId): (r: Option<WorkflowNode>)
    ensures r.Some? <==> exists n :: n in nodes && n.id == v
    ensures r.Some? ==> r.value in nodes && r.value.id == v
  {
    if nodes == [] then None
    else if nodes[0].id == v then
      assert nodes[0] in nodes;
      Some(nodes[0])
    else
      assert nodes == [nodes[0]] + nodes[1..];
      FindNode(nodes[1..], v)
  }

  function TriggerIds(d: WorkflowDefinition): set<NodeId> {
    set n | n in d.nodes && n.nodeType.ManualTrigger? :: n.id
  }

  function ArcsOf(edges: seq<WorkflowEdge>): Arcs {
    set e | e in edges :: (e.source, e.target)
  }

  /** The targets of u's edges among the first k, in edge order and with repetitions. */
  function TargetsUpTo(edges: seq<WorkflowEdge>, k: nat, u: NodeId): seq<NodeId>
    requires k <= |edges|
  {
    if k == 0 then []
    else TargetsUpTo(edges, k - 1, u) + if edges[k - 1].source == u then [edges[k - 1].target] else []
  }

  function Targets(edges: seq<WorkflowEdge>, u: NodeId): seq<NodeId> {
    TargetsUpTo(edges, |edges|, u)
  }

  /** The number of edges into v among the first k. */
  function InDegreeUpTo(edges: seq<WorkflowEdge>, k: nat, v: NodeId): nat
    requires k <= |edges|
  {
    if k == 0 then 0
    else InDegreeUpTo(edges, k - 1, v) + if edges[k - 1].target == v then 1 else 0
  }

  function InDegree(edges: seq<WorkflowEdge>, v: NodeId): nat {
    InDegreeUpTo(edges, |edges|, v)
  }

  lemma {:induction false} TargetsUpToAreArcs(edges: seq<WorkflowEdge>, k: nat, u: NodeId, v: NodeId)
    requires k <= |edges|
    ensures v in TargetsUpTo(edges, k, u) <==> exists i :: 0 <= i < k && edges[i].source == u && edges[i].target == v
  {
    if k > 0 {
      TargetsUpToAreArcs(edges, k - 1, u, v);
    }
  }

  lemma TargetsAreArcs(edges: seq<WorkflowEdge>, u: NodeId, v: NodeId)
    ensures v in Targets(edges, u) <==> (u, v) in ArcsOf(edges)
  {
    TargetsUpToAreArcs(edges, |edges|, u, v);
    if v in Targets(edges, u) {
      var i :| 0 <= i < |edges| && edges[i].source == u && edges[i].target == v;
      assert edges[i] in edges;
    }
  }

  lemma {:induction false} InDegreeUpToZeroIff(edges: seq<WorkflowEdge>, k: nat, v: NodeId)
    requires k <= |edges|
    ensures InDegreeUpTo(edges, k, v) == 0 <==> forall i :: 0 <= i < k ==> edges[i].target != v
  {
    if k > 0 {
      InDegreeUpToZeroIff(edges, k - 1, v);
    }
  }

  lemma InDegreeZeroIff(edges: seq<WorkflowEdge>, v: NodeId)
    ensures InDegree(edges, v) == 0 <==> forall u :: (u, v) !in ArcsOf(edges)
  {
    InDegreeUpToZeroIff(edges, |edges|, v);
    if i :| 0 <= i < |edges| && edges[i].target == v {
      assert edges[i] in edges;
      assert (edges[i].source, v) in ArcsOf(edges);
    }
  }

  // ---- Well-formedness, one clause per rule of the schema ----

  predicate IsAlphanumeric(c: char) {
    'A' <= c <= 'Z' || 'a' <= c <= 'z' || '0' <= c <= '9'
  }

  predicate IsIdChar(c: char) {
    IsAlphanumeric(c) || c in "._:-"
  }

  predicate ValidId(id: string) {
    && 1 <= |id| <= MAX_ID_LENGTH
    && IsAlphanumeric(id[0])
    && forall i :: 0 <= i < |id| ==> IsIdChar(id[i])
  }

  /** The checks made on the fields before the graph rules are looked at. */
  predicate ShapeValid(d: WorkflowDefinition) {
    && 1 <= |d.nodes| <= MAX_NODES
    && |d.edges| <= MAX_EDGES
    && (forall n :: n in d.nodes ==> ValidId(n.id))
    && forall e :: e in d.edges ==> ValidId(e.id) && ValidId(e.source) && ValidId(e.target)
  }

  predicate UniqueNodeIds(d: WorkflowDefinition) {
    forall i, j :: 0 <= i < j < |d.nodes| ==> d.nodes[i].id != d.nodes[j].id
  }

  predicate UniqueEdgeIds(edges: seq<WorkflowEdge>) {
    forall i, j :: 0 <= i < j < |edges| ==> edges[i].id != edges[j].id
  }

  predicate SamePair(a: WorkflowEdge, b: WorkflowEdge) {
    a.source == b.source && a.target == b.target
  }

  predicate UniquePairs(edges: seq<WorkflowEdge>) {
    forall i, j :: 0 <= i < j < |edges| ==> !SamePair(edges[i], edges[j])
  }

  predicate EndpointsExist(d: WorkflowDefinition) {
    forall e :: e in d.edges ==> e.source in NodeIds(d) && e.target in NodeIds(d)
  }

  predicate NoSelfLoops(edges: seq<WorkflowEdge>) {
    forall e :: e in edges ==> e.source != e.target
  }

  predicate NoEdgeIntoTrigger(d: WorkflowDefinition) {
    forall e :: e in d.edges ==> e.target !in TriggerIds(d)
  }

  ghost predicate ReachableFromTrigger(d: WorkflowDefinition, v: NodeId) {
    exists t :: t in TriggerIds(d) && Reaches(ArcsOf(d.edges), t, v)
  }

  ghost predicate AllReachable(d: WorkflowDefinition) {
    forall v :: v in NodeIds(d) ==> ReachableFromTrigger(d, v)
  }

  /** Every graph rule of the schema. */
  ghost predicate Structural(d: WorkflowDefinition) {
    && UniqueNodeIds(d)
    && TriggerIds(d) != {}
    && UniqueEdgeIds(d.edges)
    && EndpointsExist(d)
    && NoSelfLoops(d.edges)
    && UniquePairs(d.edges)
    && NoEdgeIntoTrigger(d)
    && AllReachable(d)
    && Acyclic(ArcsOf(d.edges))
  }

  /** What the schema accepts. */
  ghost predicate Accepted(d: WorkflowDefinition) {
    ShapeValid(d) && Structural(d)
  }

  // ---- Small facts used by several algorithms ----

  lemma ArcsHaveEndpoints(d: WorkflowDefinition, u: NodeId, v: NodeId)
    requires EndpointsExist(d) && (u, v) in ArcsOf(d.edges)
    ensures u in NodeIds(d) && v in NodeIds(d)
  {
    var e :| e in d.edges && (e.source, e.target) == (u, v);
  }

  /** With unique ids, a node is determined by its id. */
  lemma SameIdSameNode(d: WorkflowDefinition, a: WorkflowNode, b: WorkflowNode)
    requires UniqueNodeIds(d) && a in d.nodes && b in d.nodes && a.id == b.id
    ensures a == b
  {
    var i :| 0 <= i < |d.nodes| && d.nodes[i] == a;
    var j :| 0 <= j < |d.nodes| && d.nodes[j] == b;
    assert i == j;
  }

  // ---- The two tables every graph algorithm builds from the edge list ----

  function Adjacent(outgoing: map<NodeId, seq<NodeId>>, u: NodeId): seq<NodeId> {
    if u in outgoing then outgoing[u] else []
  }

  function CountOr(counts: map<NodeId, int>, v: NodeId, default: int): int {
    if v in counts then counts[v] else default
  }

  ghost predicate TargetsCollected(edges: seq<WorkflowEdge>, k: nat, outgoing: map<NodeId, seq<NodeId>>)
    requires k <= |edges|
  {
    forall u :: Adjacent(outgoing, u) == TargetsUpTo(edges, k, u)
  }

  ghost predicate DegreesAdded(edges: seq<WorkflowEdge>, k: nat, counts: map<NodeId, int>, added: map<NodeId, int>)
    requires k <= |edges|
  {
    && counts.Keys <= added.Keys
    && forall v :: CountOr(added, v, 0) == CountOr(counts, v, 0) + InDegreeUpTo(edges, k, v)
  }

  lemma CollectOneTarget(edges: seq<WorkflowEdge>, k: nat, outgoing: map<NodeId, seq<NodeId>>)
    requires k < |edges| && TargetsCollected(edges, k, outgoing)
    ensures TargetsCollected(edges, k + 1,
                             outgoing[edges[k].source := Adjacent(outgoing, edges[k].source) + [edges[k].target]])
  {
    var more := outgoing[edges[k].source := Adjacent(outgoing, edges[k].source) + [edges[k].target]];
    forall u ensures Adjacent(more, u) == TargetsUpTo(edges, k + 1, u) {
      assert Adjacent(outgoing, u) == TargetsUpTo(edges, k, u);
    }
  }

  lemma AddOneDegree(edges: seq<WorkflowEdge>, k: nat, counts: map<NodeId, int>, added: map<NodeId, int>)
    requires k < |edges| && DegreesAdded(edges, k, counts, added)
    ensures DegreesAdded(edges, k + 1, counts, added[edges[k].target := CountOr(added, edges[k].target, 0) + 1])
  {
    var more := added[edges[k].target := CountOr(added, edges[k].target, 0) + 1];
    forall v ensures CountOr(more, v, 0) == CountOr(counts, v, 0) + InDegreeUpTo(edges, k + 1, v) {
      assert CountOr(added, v, 0) == CountOr(counts, v, 0) + InDegreeUpTo(edges, k, v);
    }
  }

  /** Collects each node's targets and adds each node's in-degree to the given counts. */
  method CollectEdges(edges: seq<WorkflowEdge>, counts: map<NodeId, int>)
    returns (outgoing: map<NodeId, seq<NodeId>>, incomingCounts: map<NodeId, int>)
    ensures forall u :: Adjacent(outgoing, u) == Targets(edges, u)
    ensures forall v :: CountOr(incomingCounts, v, 0) == CountOr(counts, v, 0) + InDegree(edges, v)
    ensures counts.Keys <= incomingCounts.Keys
  {
    outgoing, incomingCounts := map[], counts;
    for i := 0 to |edges|
      invariant TargetsCollected(edges, i, outgoing)
      invariant DegreesAdded(edges, i, counts, incomingCounts)
    {
      var edge := edges[i];
      CollectOneTarget(edges, i, outgoing);
      AddOneDegree(edges, i, counts, incomingCounts);
      outgoing := outgoing[edge.source := Adjacent(outgoing, edge.source) + [edge.target]];
      incomingCounts := incomingCounts[edge.target := CountOr(incomingCounts, edge.target, 0) + 1];
    }
  }
}
