/**
 * The schema's graph rules: one pass over the nodes, one over the edges, a
 * breadth-first reachability search and a depth-first cycle search.
 */
module DefinitionSchema {
  import opened Digraph
  import opened WorkflowDefinitions

  datatype Issue =
    | InvalidShape
    | DuplicateNodeId(index: nat)
    | NoTrigger
    | DuplicateEdgeId(index: nat)
    | MissingSource(index: nat)
    | MissingTarget(index: nat)
    | SelfLoop(index: nat)
    | DuplicatePair(index: nat)
    | EdgeIntoTrigger(trigger: NodeId)
    | UnreachableNode
    | CyclicGraph

  /** A cycle can be reached from a listed node. */
  ghost predicate SomeNodeReachesCycle(d: WorkflowDefinition) {
    exists u :: u in NodeIds(d) && LeadsToCycle(ArcsOf(d.edges), u)
  }

  predicate SeenNodeId(nodes: seq<WorkflowNode>, k: nat) {
    k < |nodes| && exists j :: 0 <= j < k && nodes[j].id == nodes[k].id
  }

  predicate SeenEdgeId(edges: seq<WorkflowEdge>, k: nat) {
    k < |edges| && exists j :: 0 <= j < k && edges[j].id == edges[k].id
  }

  /** The text under which a source and target pair is remembered. */
  function PairKey(edge: WorkflowEdge): string {
    edge.source + "->" + edge.target
  }

  predicate SeenPair(edges: seq<WorkflowEdge>, k: nat) {
    k < |edges| && exists j :: 0 <= j < k && PairKey(edges[j]) == PairKey(edges[k])
  }

  /** The arcs the reachability search follows: it passes over empty ids. */
  function Named(arcs: Arcs): Arcs {
    set a | a in arcs && a.0 != "" && a.1 != ""
  }

  ghost predicate SearchFinds(arcs: Arcs, starts: set<NodeId>, v: NodeId) {
    exists t :: t in starts && t != "" && Reaches(Named(arcs), t, v)
  }

  ghost predicate EveryNodeIsFound(d: WorkflowDefinition) {
    forall v :: v in NodeIds(d) ==> SearchFinds(ArcsOf(d.edges), TriggerIds(d), v)
  }

  const UPPER_CASE := "ABCDEFGHIJKLMNOPQRSTUVWXYZ"
  const LOWER_CASE := "abcdefghijklmnopqrstuvwxyz"
  const DIGITS := "0123456789"

  /** At most 80 characters, the first a letter or a digit, the others also among the four marks. */
  predicate MatchesIdPattern(id: string) {
    && 1 <= |id| <= 80
    && (id[0] in UPPER_CASE || id[0] in LOWER_CASE || id[0] in DIGITS)
    && forall c :: c in id ==> c in UPPER_CASE || c in LOWER_CASE || c in DIGITS || c in "._:-"
  }

  lemma ValidIdIff(id: string)
    ensures ValidId(id) <==> MatchesIdPattern(id)
  {
    forall c ensures IsAlphanumeric(c) <==> c in UPPER_CASE || c in LOWER_CASE || c in DIGITS {
      AlphanumericIff(c);
    }
    assert forall i :: 0 <= i < |id| ==> id[i] in id;
  }

  lemma ShapeIsPattern(d: WorkflowDefinition)
    ensures ShapeValid(d) <==>
              && 1 <= |d.nodes| <= 100 && |d.edges| <= 200 && (forall n :: n in d.nodes ==> MatchesIdPattern(n.id))
              && forall e :: e in d.edges ==>
                   MatchesIdPattern(e.id) && MatchesIdPattern(e.source) && MatchesIdPattern(e.target)
  {
    forall id ensures ValidId(id) <==> MatchesIdPattern(id) {
      ValidIdIff(id);
    }
  }

  lemma AlphanumericIff(c: char)
    ensures 'A' <= c <= 'Z' <==> c in UPPER_CASE
    ensures 'a' <= c <= 'z' <==> c in LOWER_CASE
    ensures '0' <= c <= '9' <==> c in DIGITS
  {
    UpperCaseIff(c);
    LowerCaseIff(c);
    DigitIff(c);
  }

  lemma UpperCaseIff(c: char)
    ensures 'A' <= c <= 'Z' <==> c in UPPER_CASE
  {
    if 'A' <= c <= 'Z' {
      assert UPPER_CASE[(c - 'A') as int] == c;
    }
  }

  lemma LowerCaseIff(c: char)
    ensures 'a' <= c <= 'z' <==> c in LOWER_CASE
  {
    if 'a' <= c <= 'z' {
      assert LOWER_CASE[(c - 'a') as int] == c;
    }
  }

  lemma DigitIff(c: char)
    ensures '0' <= c <= '9' <==> c in DIGITS
  {
    if '0' <= c <= '9' {
      assert DIGITS[(c - '0') as int] == c;
    }
  }

  /** When each issue is warranted, said without reference to how it is found. */
  ghost predicate Warranted(d: WorkflowDefinition, issue: Issue) {
    match issue
    case InvalidShape => !ShapeValid(d)
    case DuplicateNodeId(k) => SeenNodeId(d.nodes, k)
    case NoTrigger => TriggerIds(d) == {}
    case DuplicateEdgeId(k) => SeenEdgeId(d.edges, k)
    case MissingSource(k) => k < |d.edges| && d.edges[k].source !in NodeIds(d)
    case MissingTarget(k) => k < |d.edges| && d.edges[k].target !in NodeIds(d)
    case SelfLoop(k) => k < |d.edges| && d.edges[k].source == d.edges[k].target
    case DuplicatePair(k) => SeenPair(d.edges, k)
    case EdgeIntoTrigger(t) => t in TriggerIds(d) && exists e :: e in d.edges && e.target == t
    case UnreachableNode => !EveryNodeIsFound(d)
    case CyclicGraph => SomeNodeReachesCycle(d)
  }

  /** A definition is accepted exactly when no issue at all is warranted. */
  lemma NoIssueIffAccepted(d: WorkflowDefinition)
    ensures Accepted(d) <==> forall issue :: !Warranted(d, issue)
  {
    if Accepted(d) {
      forall issue ensures !Warranted(d, issue) {
        AcceptedWarrantsNothing(d, issue);
      }
    }
    if forall issue :: !Warranted(d, issue) {
      UnwarrantedIsAccepted(d);
    }
  }

  lemma AcceptedWarrantsNothing(d: WorkflowDefinition, issue: Issue)
    requires Accepted(d)
    ensures !Warranted(d, issue)
  {
    match issue
    case MissingSource(k) => if k < |d.edges| { assert d.edges[k] in d.edges; }
    case MissingTarget(k) => if k < |d.edges| { assert d.edges[k] in d.edges; }
    case SelfLoop(k) => if k < |d.edges| { assert d.edges[k] in d.edges; }
    case DuplicatePair(k) => ShapedPairs(d, k);
    case UnreachableNode => ShapedSearch(d);
    case _ =>
  }

  /** Among valid ids a remembered text stands for one pair only. */
  lemma ShapedPairs(d: WorkflowDefinition, k: nat)
    requires ShapeValid(d)
    ensures SeenPair(d.edges, k) <==> k < |d.edges| && exists j :: 0 <= j < k && SamePair(d.edges[j], d.edges[k])
  {
    if k < |d.edges| {
      forall j | 0 <= j < k ensures PairKey(d.edges[j]) == PairKey(d.edges[k]) <==> SamePair(d.edges[j], d.edges[k]) {
        assert d.edges[j] in d.edges && d.edges[k] in d.edges;
        PairKeyIsInjective(d.edges[j], d.edges[k]);
      }
    }
  }

  /** Among valid ids the search passes over nothing. */
  lemma ShapedSearch(d: WorkflowDefinition)
    requires ShapeValid(d)
    ensures EveryNodeIsFound(d) <==> AllReachable(d)
  {
    assert Named(ArcsOf(d.edges)) == ArcsOf(d.edges);
    forall v ensures SearchFinds(ArcsOf(d.edges), TriggerIds(d), v) <==> ReachableFromTrigger(d, v) {
    }
  }

  lemma UnwarrantedIsAccepted(d: WorkflowDefinition)
    requires forall issue :: !Warranted(d, issue)
    ensures Accepted(d)
  {
    assert !Warranted(d, InvalidShape) && !Warranted(d, NoTrigger) && !Warranted(d, UnreachableNode);
    ShapedSearch(d);
    UnwarrantedNodesAreUnique(d);
    UnwarrantedEdgesAreUnique(d);
    UnwarrantedEdgesFit(d);
    CycleRuleIsExact(d);
    assert !Warranted(d, CyclicGraph);
  }

  lemma UnwarrantedNodesAreUnique(d: WorkflowDefinition)
    requires forall issue :: !Warranted(d, issue)
    ensures UniqueNodeIds(d)
  {
    forall i, j | 0 <= i < j < |d.nodes| ensures d.nodes[i].id != d.nodes[j].id {
      assert !Warranted(d, DuplicateNodeId(j));
    }
  }

  lemma UnwarrantedEdgesAreUnique(d: WorkflowDefinition)
    requires forall issue :: !Warranted(d, issue)
    ensures UniqueEdgeIds(d.edges) && UniquePairs(d.edges)
  {
    forall i, j | 0 <= i < j < |d.edges|
      ensures d.edges[i].id != d.edges[j].id && !SamePair(d.edges[i], d.edges[j])
    {
      assert !Warranted(d, DuplicateEdgeId(j)) && !Warranted(d, DuplicatePair(j));
      assert PairKey(d.edges[i]) != PairKey(d.edges[j]);
    }
  }

  lemma UnwarrantedEdgesFit(d: WorkflowDefinition)
    requires forall issue :: !Warranted(d, issue)
    ensures EndpointsExist(d) && NoSelfLoops(d.edges) && NoEdgeIntoTrigger(d)
  {
    forall e | e in d.edges
      ensures e.source in NodeIds(d) && e.target in NodeIds(d) && e.source != e.target && e.target !in TriggerIds(d)
    {
      var k :| 0 <= k < |d.edges| && d.edges[k] == e;
      assert !Warranted(d, MissingSource(k)) && !Warranted(d, MissingTarget(k)) && !Warranted(d, SelfLoop(k));
      assert !Warranted(d, EdgeIntoTrigger(e.target));
    }
  }

  lemma CycleStartsAtListedNode(d: WorkflowDefinition, v: NodeId)
    requires EndpointsExist(d) && OnCycle(ArcsOf(d.edges), v)
    ensures SomeNodeReachesCycle(d)
  {
    CycleVertexIsSource(ArcsOf(d.edges), v);
    ReachesSelf(ArcsOf(d.edges), v);
  }

  /** When every endpoint exists, the cycle rule is about every cycle of the graph. */
  lemma CycleRuleIsExact(d: WorkflowDefinition)
    requires EndpointsExist(d)
    ensures Warranted(d, CyclicGraph) <==> !Acyclic(ArcsOf(d.edges))
  {
    if !Acyclic(ArcsOf(d.edges)) {
      var v :| OnCycle(ArcsOf(d.edges), v);
      CycleStartsAtListedNode(d, v);
    }
  }

  // ---- Pass over the nodes ----

  method CheckNodes(d: WorkflowDefinition)
    returns (issues: seq<Issue>, nodeIds: set<NodeId>, triggerNodeIds: seq<NodeId>)
    ensures nodeIds == NodeIds(d)
    ensures forall t :: t in triggerNodeIds <==> t in TriggerIds(d)
    ensures forall x :: x in issues <==> (x.DuplicateNodeId? || x.NoTrigger?) && Warranted(d, x)
  {
    issues, nodeIds, triggerNodeIds := [], {}, [];
    for i := 0 to |d.nodes|
      invariant nodeIds == set j | 0 <= j < i :: d.nodes[j].id
      invariant forall t :: t in triggerNodeIds <==>
                exists j :: 0 <= j < i && d.nodes[j].nodeType.ManualTrigger? && d.nodes[j].id == t
      invariant forall x :: x in issues <==> x.DuplicateNodeId? && x.index < i && Warranted(d, x)
    {
      var node := d.nodes[i];
      if node.id in nodeIds {
        issues := issues + [DuplicateNodeId(i)];
      }
      nodeIds := nodeIds + {node.id};
      if node.nodeType.ManualTrigger? && node.id !in triggerNodeIds {
        triggerNodeIds := triggerNodeIds + [node.id];
      }
    }
    forall t ensures t in triggerNodeIds <==> t in TriggerIds(d) {
      if t in TriggerIds(d) {
        var n :| n in d.nodes && n.nodeType.ManualTrigger? && n.id == t;
        var j :| 0 <= j < |d.nodes| && d.nodes[j] == n;
      }
    }
    if |triggerNodeIds| == 0 {
      issues := issues + [NoTrigger];
    } else {
      assert triggerNodeIds[0] in triggerNodeIds;
    }
  }

  // ---- Pass over the edges ----

  /** Valid ids contain no '>', so a pair key names one pair only. */
  lemma PairKeyIsInjective(a: WorkflowEdge, b: WorkflowEdge)
    requires ValidId(a.source) && ValidId(a.target) && ValidId(b.source) && ValidId(b.target)
    ensures PairKey(a) == PairKey(b) <==> SamePair(a, b)
  {
    if |a.source| < |b.source| {
      ArrowsApart(a, b);
    } else if |b.source| < |a.source| {
      ArrowsApart(b, a);
    } else if PairKey(a) == PairKey(b) {
      assert PairKey(a)[..|a.source|] == a.source && PairKey(b)[..|b.source|] == b.source;
      assert PairKey(a)[|a.source| + 2..] == a.target && PairKey(b)[|b.source| + 2..] == b.target;
    }
  }

  lemma ArrowsApart(a: WorkflowEdge, b: WorkflowEdge)
    requires ValidId(b.source) && |a.source| < |b.source|
    ensures PairKey(a) != PairKey(b)
  {
    var k := |a.source| + 1;
    assert PairKey(a)[k] == '>';
    assert k < |b.source| ==> PairKey(b)[k] == b.source[k] && IsIdChar(b.source[k]);
    assert k == |b.source| ==> PairKey(b)[k] == '-';
  }

  predicate IsEdgeIssue(x: Issue) {
    x.DuplicateEdgeId? || x.MissingSource? || x.MissingTarget? || x.SelfLoop? || x.DuplicatePair?
  }

  method CheckEdges(d: WorkflowDefinition, nodeIds: set<NodeId>) returns (issues: seq<Issue>)
    requires nodeIds == NodeIds(d)
    ensures forall x :: x in issues <==> IsEdgeIssue(x) && Warranted(d, x)
  {
    issues := [];
    var edgeIds: set<string>, edgePairs: set<string> := {}, {};
    for i := 0 to |d.edges|
      invariant edgeIds == set j | 0 <= j < i :: d.edges[j].id
      invariant edgePairs == set j | 0 <= j < i :: PairKey(d.edges[j])
      invariant forall x :: x in issues <==> IsEdgeIssue(x) && x.index < i && Warranted(d, x)
    {
      var edge := d.edges[i];
      assert PairKey(edge) in edgePairs <==> SeenPair(d.edges, i);
      var found := CheckEdge(i, edge, nodeIds, edgeIds, edgePairs);
      forall x ensures x in found <==> IsEdgeIssue(x) && x.index == i && Warranted(d, x) {
      }
      issues := issues + found;
      edgeIds := edgeIds + {edge.id};
      edgePairs := edgePairs + {PairKey(edge)};
    }
  }

  /** The issues of one edge, given what was seen before it. */
  method CheckEdge(index: nat, edge: WorkflowEdge, nodeIds: set<NodeId>, edgeIds: set<string>, edgePairs: set<string>)
    returns (issues: seq<Issue>)
    ensures forall x :: x in issues <==> IsEdgeIssue(x) && x.index == index && match x
      case DuplicateEdgeId(_) => edge.id in edgeIds
      case MissingSource(_) => edge.source !in nodeIds
      case MissingTarget(_) => edge.target !in nodeIds
      case SelfLoop(_) => edge.source == edge.target
      case _ => PairKey(edge) in edgePairs
  {
    issues := [];
    if edge.id in edgeIds {
      issues := issues + [DuplicateEdgeId(index)];
    }
    if edge.source !in nodeIds {
      issues := issues + [MissingSource(index)];
    }
    if edge.target !in nodeIds {
      issues := issues + [MissingTarget(index)];
    }
    if edge.source == edge.target {
      issues := issues + [SelfLoop(index)];
    }
    if PairKey(edge) in edgePairs {
      issues := issues + [DuplicatePair(index)];
    }
  }

  method CheckTriggers(d: WorkflowDefinition, triggerNodeIds: seq<NodeId>, incomingCounts: map<NodeId, int>)
    returns (issues: seq<Issue>)
    requires forall t :: t in triggerNodeIds <==> t in TriggerIds(d)
    requires forall v :: CountOr(incomingCounts, v, 0) == InDegree(d.edges, v)
    ensures forall x :: x in issues <==> x.EdgeIntoTrigger? && Warranted(d, x)
  {
    issues := [];
    for i := 0 to |triggerNodeIds|
      invariant forall x :: x in issues <==>
                x.EdgeIntoTrigger? && x.trigger in triggerNodeIds[..i] && InDegree(d.edges, x.trigger) > 0
    {
      if CountOr(incomingCounts, triggerNodeIds[i], 0) > 0 {
        issues := issues + [EdgeIntoTrigger(triggerNodeIds[i])];
      }
    }
    assert triggerNodeIds[..|triggerNodeIds|] == triggerNodeIds;
    forall t ensures InDegree(d.edges, t) > 0 <==> exists e :: e in d.edges && e.target == t {
      InDegreePositiveIff(d.edges, t);
    }
  }

  lemma InDegreePositiveIff(edges: seq<WorkflowEdge>, v: NodeId)
    ensures InDegree(edges, v) > 0 <==> exists e :: e in edges && e.target == v
  {
    InDegreeUpToZeroIff(edges, |edges|, v);
    if InDegree(edges, v) > 0 {
      var i :| 0 <= i < |edges| && edges[i].target == v;
      assert edges[i] in edges;
    }
  }

  // ---- Breadth-first reachability ----

  /** The target lists describe the arcs. */
  ghost predicate Describes(outgoing: map<NodeId, seq<NodeId>>, arcs: Arcs) {
    forall u, v :: v in Adjacent(outgoing, u) <==> (u, v) in arcs
  }

  /** The vertices the search finds: the least set that holds the named starts and is closed. */
  lemma FoundSet(arcs: Arcs, starts: set<NodeId>) returns (good: set<NodeId>)
    ensures forall v :: v in good <==> SearchFinds(arcs, starts, v)
    ensures ClosedUnder(Named(arcs), good) && "" !in good && forall t :: t in starts && t != "" ==> t in good
  {
    var universe := starts + (set a | a in Named(arcs) :: a.1);
    good := set v | v in universe && SearchFinds(arcs, starts, v);
    forall t | t in starts && t != "" ensures t in good {
      ReachesSelf(Named(arcs), t);
    }
    forall u, v | u in good && (u, v) in Named(arcs) ensures v in good {
      assert (u, v).1 in universe;
      var t :| t in starts && t != "" && Reaches(Named(arcs), t, u);
      ReachesStep(Named(arcs), t, u, v);
    }
    LeastClosedSet(arcs, starts, good);
    LeastClosedSet(arcs, starts, good - {""});
  }

  lemma LeastClosedSet(arcs: Arcs, starts: set<NodeId>, s: set<NodeId>)
    requires ClosedUnder(Named(arcs), s) && forall t :: t in starts && t != "" ==> t in s
    ensures forall v :: SearchFinds(arcs, starts, v) ==> v in s
  {
    forall v | SearchFinds(arcs, starts, v) ensures v in s {
      var t :| t in starts && t != "" && Reaches(Named(arcs), t, v);
      var n: nat :| Walk(Named(arcs), t, v, n);
      WalkStaysInside(Named(arcs), s, t, v, n);
    }
  }

  /** The breadth-first loop: fills the least closed set around the named starts. */
  method Spread(starts: seq<NodeId>, outgoing: map<NodeId, seq<NodeId>>, ghost arcs: Arcs, ghost good: set<NodeId>)
    returns (reachable: set<NodeId>)
    requires Describes(outgoing, arcs)
    requires ClosedUnder(Named(arcs), good) && forall t :: t in starts && t != "" ==> t in good
    ensures ClosedUnder(Named(arcs), reachable) && reachable <= good
    ensures forall t :: t in starts && t != "" ==> t in reachable
  {
    reachable := {};
    var queue := starts;
    while |queue| > 0
      invariant reachable <= good && "" !in reachable
      invariant forall v :: v in queue && v != "" ==> v in good
      invariant forall t :: t in starts && t != "" ==> t in reachable || t in queue
      invariant forall u, v :: u in reachable && (u, v) in Named(arcs) ==> v in reachable || v in queue
      decreases good - reachable, |queue|
    {
      var nodeId, rest := queue[0], queue[1..];
      assert queue == [nodeId] + rest;
      queue := rest;
      if nodeId == "" || nodeId in reachable {
        continue;
      }
      reachable := reachable + {nodeId};
      forall v | v in Adjacent(outgoing, nodeId) && v != "" ensures v in good {
        assert (nodeId, v) in Named(arcs);
      }
      queue := queue + Adjacent(outgoing, nodeId);
    }
  }

  /** Whether every listed node is found from some start. */
  method ValidateReachability(nodeIds: seq<NodeId>, triggerNodeIds: seq<NodeId>,
                              outgoing: map<NodeId, seq<NodeId>>, ghost arcs: Arcs, ghost starts: set<NodeId>)
    returns (issues: seq<Issue>)
    requires Describes(outgoing, arcs) && forall t :: t in triggerNodeIds <==> t in starts
    ensures issues == [] || issues == [UnreachableNode]
    ensures issues == [] <==> forall v :: v in nodeIds ==> SearchFinds(arcs, starts, v)
  {
    ghost var good := FoundSet(arcs, starts);
    var reachable := Spread(triggerNodeIds, outgoing, arcs, good);
    LeastClosedSet(arcs, starts, reachable);
    for i := 0 to |nodeIds|
      invariant forall j :: 0 <= j < i ==> nodeIds[j] in reachable
    {
      if nodeIds[i] !in reachable {
        return [UnreachableNode];
      }
    }
    return [];
  }

  // ---- Depth-first cycle search ----

  /** Consecutive entries are joined by arcs. */
  ghost predicate IsPath(arcs: Arcs, p: seq<NodeId>) {
    forall i, j :: 0 <= i < j < |p| && j == i + 1 ==> (p[i], p[j]) in arcs
  }

  lemma {:induction false} PathReaches(arcs: Arcs, p: seq<NodeId>, i: nat, v: NodeId)
    requires IsPath(arcs, p) && i < |p| && (p[|p| - 1], v) in arcs
    ensures StrictlyReaches(arcs, p[i], v)
    decreases |p| - i
  {
    if i == |p| - 1 {
      ArcIsWalk(arcs, p[i], v);
    } else {
      PathReaches(arcs, p, i + 1, v);
      var n: nat :| n > 0 && Walk(arcs, p[i + 1], v, n);
      ArcIsWalk(arcs, p[i], p[i + 1]);
      WalkConcat(arcs, p[i], p[i + 1], v, 1, n);
    }
  }

  /** Meeting a node of the current path again closes a cycle. */
  lemma BackArcClosesCycle(arcs: Arcs, path: seq<NodeId>, v: NodeId)
    requires IsPath(arcs, path) && v in path && (path[|path| - 1], v) in arcs
    ensures LeadsToCycle(arcs, v)
  {
    var i :| 0 <= i < |path| && path[i] == v;
    PathReaches(arcs, path, i, v);
    ReachesSelf(arcs, v);
    assert OnCycle(arcs, v);
  }

  /** The visited nodes are closed under successors and free of cycles: every arc out of one climbs in rank. */
  ghost predicate Settled(arcs: Arcs, rank: map<NodeId, int>) {
    && ClosedUnder(arcs, rank.Keys)
    && forall u, v :: u in rank && (u, v) in arcs ==> rank[u] < rank[v]
  }

  /** A rank below all those given so far. */
  ghost function Below(m: map<NodeId, int>): (r: int)
    ensures forall v :: v in m ==> r < m[v]
    decreases |m|
  {
    if m == map[] then 0
    else
      var v :| v in m;
      var rest := map w | w in m && w != v :: m[w];
      assert m.Keys == rest.Keys + {v};
      assert |m.Keys| == |rest.Keys| + 1;
      var r := Below(rest);
      if r < m[v] then r else m[v] - 1
  }

  lemma SettleOneMore(arcs: Arcs, outgoing: map<NodeId, seq<NodeId>>, rank: map<NodeId, int>, u: NodeId)
    requires Describes(outgoing, arcs)
    requires Settled(arcs, rank) && u !in rank && forall v :: v in Adjacent(outgoing, u) ==> v in rank
    ensures Settled(arcs, rank[u := Below(rank)])
  {
  }

  lemma SettledLeadsToNoCycle(arcs: Arcs, rank: map<NodeId, int>, u: NodeId)
    requires Settled(arcs, rank) && u in rank
    ensures !LeadsToCycle(arcs, u)
  {
    forall v | Reaches(arcs, u, v) ensures !OnCycle(arcs, v) {
      var n: nat :| Walk(arcs, u, v, n);
      WalkStaysInside(arcs, rank.Keys, u, v, n);
      RankedIsOffCycle(arcs, rank, v);
    }
  }

  ghost predicate Within(outgoing: map<NodeId, seq<NodeId>>, arcs: Arcs, universe: set<NodeId>) {
    forall u, v :: v in Adjacent(outgoing, u) ==> (u, v) in arcs && v in universe
  }

  /** The nodes being visited form a path. */
  ghost predicate OnPath(arcs: Arcs, universe: set<NodeId>, path: seq<NodeId>, visiting: set<NodeId>) {
    && IsPath(arcs, path)
    && (forall v :: v in visiting <==> v in path)
    && visiting <= universe
  }

  lemma ExtendPath(arcs: Arcs, universe: set<NodeId>, path: seq<NodeId>, visiting: set<NodeId>, v: NodeId)
    requires OnPath(arcs, universe, path, visiting) && v in universe
    requires path != [] ==> (path[|path| - 1], v) in arcs
    ensures OnPath(arcs, universe, path + [v], visiting + {v})
  {
  }

  lemma ShortenPath(arcs: Arcs, universe: set<NodeId>, path: seq<NodeId>, visiting: set<NodeId>, v: NodeId)
    requires OnPath(arcs, universe, path + [v], visiting) && v !in path
    ensures OnPath(arcs, universe, path, visiting - {v}) && v in visiting
  {
    assert forall i :: 0 <= i < |path| ==> (path + [v])[i] == path[i];
    assert (path + [v])[|path|] == v;
  }

  /** The search's two node sets, with what they mean. */
  class CycleSearch {
    const outgoing: map<NodeId, seq<NodeId>>
    ghost const arcs: Arcs
    ghost const universe: set<NodeId>
    var visiting: set<NodeId>
    var visited: set<NodeId>
    /** The nodes being visited, outermost call first. */
    ghost var path: seq<NodeId>
    /** Every arc out of a visited node climbs in rank. */
    ghost var rank: map<NodeId, int>

    constructor (outgoing: map<NodeId, seq<NodeId>>, ghost arcs: Arcs, ghost universe: set<NodeId>)
      requires Describes(outgoing, arcs) && forall u, v :: (u, v) in arcs ==> v in universe
      ensures this.outgoing == outgoing && this.arcs == arcs && this.universe == universe
      ensures Valid() && path == [] && visited == {}
    {
      this.outgoing, this.arcs, this.universe := outgoing, arcs, universe;
      visiting, visited, path, rank := {}, {}, [], map[];
    }

    ghost predicate Valid()
      reads this
    {
      && Within(outgoing, arcs, universe)
      && OnPath(arcs, universe, path, visiting)
      && visiting !! visited
      && rank.Keys == visited
      && Settled(arcs, rank)
    }

    /** Starts visiting a node: it goes to the end of the path. */
    method Enter(nodeId: NodeId)
      requires Valid() && nodeId in universe && nodeId !in visiting && nodeId !in visited
      requires path != [] ==> (path[|path| - 1], nodeId) in arcs
      modifies this
      ensures Valid() && path == old(path) + [nodeId] && visiting == old(visiting) + {nodeId} && visited == old(visited)
    {
      ExtendPath(arcs, universe, path, visiting, nodeId);
      visiting := visiting + {nodeId};
      path := path + [nodeId];
    }

    /** Ends visiting the node at the end of the path, all of whose targets have been visited. */
    method Leave(nodeId: NodeId, ghost before: seq<NodeId>)
      requires Valid() && Describes(outgoing, arcs) && path == before + [nodeId] && nodeId !in before
      requires forall v :: v in Adjacent(outgoing, nodeId) ==> v in visited
      modifies this
      ensures Valid() && path == before && visiting == old(visiting) - {nodeId} && visited == old(visited) + {nodeId}
    {
      ShortenPath(arcs, universe, before, visiting, nodeId);
      SettleOneMore(arcs, outgoing, rank, nodeId);
      visiting := visiting - {nodeId};
      path := before;
      visited := visited + {nodeId};
      rank := rank[nodeId := Below(rank)];
    }

    method Visit(nodeId: NodeId) returns (ok: bool)
      requires Valid() && nodeId in universe && Describes(outgoing, arcs)
      requires path != [] ==> (path[|path| - 1], nodeId) in arcs
      modifies this
      ensures ok ==> Valid() && path == old(path) && visiting == old(visiting)
      ensures ok ==> old(visited) <= visited && nodeId in visited
      ensures !ok ==> LeadsToCycle(arcs, nodeId)
      decreases universe - visiting
    {
      if nodeId in visiting {
        BackArcClosesCycle(arcs, path, nodeId);
        return false;
      }
      if nodeId in visited {
        return true;
      }
      Enter(nodeId);
      var next := Adjacent(outgoing, nodeId);
      for i := 0 to |next|
        invariant Valid() && path == old(path) + [nodeId] && visiting == old(visiting) + {nodeId}
        invariant old(visited) <= visited
        invariant forall j :: 0 <= j < i ==> next[j] in visited
      {
        assert next[i] in next;
        var found := Visit(next[i]);
        if !found {
          LeadsToCycleBack(arcs, nodeId, next[i]);
          return false;
        }
      }
      Leave(nodeId, old(path));
      return true;
    }
  }

  /** Whether a cycle can be reached from a listed node. */
  method ValidateAcyclicGraph(nodeIds: seq<NodeId>, outgoing: map<NodeId, seq<NodeId>>, ghost arcs: Arcs)
    returns (issues: seq<Issue>)
    requires Describes(outgoing, arcs)
    ensures issues == [] || issues == [CyclicGraph]
    ensures issues == [] <==> forall u :: u in nodeIds ==> !LeadsToCycle(arcs, u)
  {
    ghost var universe := (set u | u in nodeIds) + (set a | a in arcs :: a.1);
    forall u, v | (u, v) in arcs ensures v in universe {
      assert (u, v).1 in universe;
    }
    var search := new CycleSearch(outgoing, arcs, universe);
    for i := 0 to |nodeIds|
      invariant fresh(search) && search.Valid() && search.path == []
      invariant forall j :: 0 <= j < i ==> nodeIds[j] in search.visited
    {
      var ok := search.Visit(nodeIds[i]);
      if !ok {
        return [CyclicGraph];
      }
    }
    forall u | u in nodeIds ensures !LeadsToCycle(arcs, u) {
      SettledLeadsToNoCycle(arcs, search.rank, u);
    }
    return [];
  }

  // ---- The whole schema ----

  /** The two searches over the collected target lists. */
  method CheckGraph(d: WorkflowDefinition, triggerNodeIds: seq<NodeId>, outgoing: map<NodeId, seq<NodeId>>)
    returns (issues: seq<Issue>)
    requires forall t :: t in triggerNodeIds <==> t in TriggerIds(d)
    requires Describes(outgoing, ArcsOf(d.edges))
    ensures forall x :: x in issues <==> (x.UnreachableNode? || x.CyclicGraph?) && Warranted(d, x)
  {
    ListedIds(d);
    var reachIssues := ValidateReachability(IdsOf(d.nodes), triggerNodeIds, outgoing, ArcsOf(d.edges), TriggerIds(d));
    assert reachIssues == [] <==> !Warranted(d, UnreachableNode);
    var cycleIssues := ValidateAcyclicGraph(IdsOf(d.nodes), outgoing, ArcsOf(d.edges));
    assert cycleIssues == [] <==> !Warranted(d, CyclicGraph);
    issues := reachIssues + cycleIssues;
  }

  lemma ListedIds(d: WorkflowDefinition)
    ensures forall v :: v in IdsOf(d.nodes) <==> v in NodeIds(d)
  {
    forall n | n in d.nodes ensures n.id in IdsOf(d.nodes) {
      var i :| 0 <= i < |d.nodes| && d.nodes[i] == n;
      assert IdsOf(d.nodes)[i] == n.id;
    }
  }

  /**
   * Reports exactly the warranted issues.  Sizes and id formats are only noted:
   * the graph rules are checked whether or not they are right.
   */
  method SafeParse(d: WorkflowDefinition) returns (issues: seq<Issue>)
    ensures forall x :: x in issues <==> Warranted(d, x)
    ensures issues == [] <==> Accepted(d)
    ensures InvalidShape !in issues <==>
              && 1 <= |d.nodes| <= 100 && |d.edges| <= 200 && (forall n :: n in d.nodes ==> MatchesIdPattern(n.id))
              && forall e :: e in d.edges ==>
                   MatchesIdPattern(e.id) && MatchesIdPattern(e.source) && MatchesIdPattern(e.target)
  {
    NoIssueIffAccepted(d);
    ShapeIsPattern(d);
    var shapeIssues := if ShapeValid(d) then [] else [InvalidShape];
    var nodeIssues, nodeIds, triggerNodeIds := CheckNodes(d);
    var edgeIssues := CheckEdges(d, nodeIds);
    var outgoing, incomingCounts := CollectEdges(d.edges, map[]);
    var triggerIssues := CheckTriggers(d, triggerNodeIds, incomingCounts);
    forall u, v ensures v in Adjacent(outgoing, u) <==> (u, v) in ArcsOf(d.edges) {
      TargetsAreArcs(d.edges, u, v);
    }
    var graphIssues := CheckGraph(d, triggerNodeIds, outgoing);
    issues := shapeIssues + nodeIssues + edgeIssues + triggerIssues + graphIssues;
    assert forall x :: x in issues <==>
             x in shapeIssues || x in nodeIssues || x in edgeIssues || x in triggerIssues || x in graphIssues;
    EveryIssueHasItsPass();
    assert issues != [] ==> Warranted(d, issues[0]);
  }

  lemma EveryIssueHasItsPass()
    ensures forall x: Issue ::
              x.InvalidShape? || x.DuplicateNodeId? || x.NoTrigger? || IsEdgeIssue(x) || x.EdgeIntoTrigger?
              || x.UnreachableNode? || x.CyclicGraph?
  {
  }
}
