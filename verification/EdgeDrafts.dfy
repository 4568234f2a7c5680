/** Editing edges: the check made on a drafted edge, and the replacement of the selected edge. */
module EdgeDrafts {
  import opened Wrappers
  import opened Digraph
  import opened WorkflowDefinitions
  import opened DefinitionSchema
  import opened OrderFreeRules
  import opened FreshIds

  const VALIDATION_EDGE_ID := "validation-edge"

  datatype DraftError =
    | EndpointNotChosen
    | SameEndpoints
    | UnknownEndpoint
    | TriggerAsTarget
    | EdgeExists
    | Invalid(issue: Issue)

  /** The edges other than those carrying the ignored id. */
  function KeptEdges(edges: seq<WorkflowEdge>, ignored: Option<string>): seq<WorkflowEdge> {
    if edges == [] then []
    else (if ignored == Some(edges[0].id) then [] else [edges[0]]) + KeptEdges(edges[1..], ignored)
  }

  /** The definition the check looks at: the draft stands last, under a placeholder id. */
  function Drafted(d: WorkflowDefinition, source: NodeId, target: NodeId, ignored: Option<string>): WorkflowDefinition {
    d.(edges := KeptEdges(d.edges, ignored) + [WorkflowEdge(VALIDATION_EDGE_ID, source, target)])
  }

  lemma {:induction false} KeptEdgesAre(edges: seq<WorkflowEdge>, ignored: Option<string>)
    ensures forall e :: e in KeptEdges(edges, ignored) <==> e in edges && ignored != Some(e.id)
    ensures |KeptEdges(edges, ignored)| <= |edges|
  {
    if edges != [] {
      assert edges == [edges[0]] + edges[1..];
      KeptEdgesAre(edges[1..], ignored);
    }
  }

  lemma {:induction false} KeptOfConcat(a: seq<WorkflowEdge>, b: seq<WorkflowEdge>, ignored: Option<string>)
    ensures KeptEdges(a + b, ignored) == KeptEdges(a, ignored) + KeptEdges(b, ignored)
  {
    if a == [] {
      assert a + b == b;
    } else {
      assert (a + b)[1..] == a[1..] + b;
      KeptOfConcat(a[1..], b, ignored);
    }
  }

  lemma {:induction false} KeptWithoutMatch(edges: seq<WorkflowEdge>, ignored: Option<string>)
    requires forall e :: e in edges ==> ignored != Some(e.id)
    ensures KeptEdges(edges, ignored) == edges
  {
    if edges != [] {
      assert edges == [edges[0]] + edges[1..];
      KeptWithoutMatch(edges[1..], ignored);
    }
  }

  /** Both endpoints are chosen, different and known. */
  predicate IsPlausible(d: WorkflowDefinition, source: NodeId, target: NodeId) {
    source != "" && target != "" && source != target && source in NodeIds(d) && target in NodeIds(d)
  }

  /** The first node of that id is a trigger. */
  predicate IsFoundAsTrigger(d: WorkflowDefinition, v: NodeId) {
    exists i :: 0 <= i < |d.nodes| && d.nodes[i].id == v && d.nodes[i].nodeType.ManualTrigger?
                && forall j :: 0 <= j < i ==> d.nodes[j].id != v
  }

  lemma {:induction false} FirstIsFound(nodes: seq<WorkflowNode>, i: nat)
    requires i < |nodes| && forall j :: 0 <= j < i ==> nodes[j].id != nodes[i].id
    ensures FindNode(nodes, nodes[i].id) == Some(nodes[i])
  {
    if i > 0 {
      FirstIsFound(nodes[1..], i - 1);
    }
  }

  lemma {:induction false} FindsSomeFirst(nodes: seq<WorkflowNode>, v: NodeId) returns (i: nat)
    requires exists n :: n in nodes && n.id == v
    ensures i < |nodes| && nodes[i].id == v && forall j :: 0 <= j < i ==> nodes[j].id != v
  {
    if nodes[0].id == v {
      i := 0;
    } else {
      assert nodes == [nodes[0]] + nodes[1..];
      var k := FindsSomeFirst(nodes[1..], v);
      i := k + 1;
    }
  }

  lemma FoundTrigger(d: WorkflowDefinition, v: NodeId)
    requires v in NodeIds(d)
    ensures FindNode(d.nodes, v).Some?
    ensures FindNode(d.nodes, v).value.nodeType.ManualTrigger? <==> IsFoundAsTrigger(d, v)
  {
    var i := FindsSomeFirst(d.nodes, v);
    FirstIsFound(d.nodes, i);
  }

  /**
   * Checks a drafted edge.  The quick checks made first reject nothing the
   * schema would have accepted; the first that fails decides the error.
   */
  method ValidateEdgeDraft(d: WorkflowDefinition, source: NodeId, target: NodeId, ignored: Option<string>)
    returns (error: Option<DraftError>)
    ensures error.None? <==> Accepted(Drafted(d, source, target, ignored))
    ensures error == Some(EndpointNotChosen) <==> source == "" || target == ""
    ensures error == Some(SameEndpoints) <==> source != "" && source == target
    ensures error == Some(UnknownEndpoint) <==>
              source != "" && target != "" && source != target && !(source in NodeIds(d) && target in NodeIds(d))
    ensures error == Some(TriggerAsTarget) <==> IsPlausible(d, source, target) && IsFoundAsTrigger(d, target)
    ensures error == Some(EdgeExists) <==>
              && IsPlausible(d, source, target) && !IsFoundAsTrigger(d, target)
              && exists e :: e in d.edges && ignored != Some(e.id) && e.source == source && e.target == target
    ensures error.Some? && error.value.Invalid? ==> Warranted(Drafted(d, source, target, ignored), error.value.issue)
  {
    ghost var next := Drafted(d, source, target, ignored);
    ghost var draft := WorkflowEdge(VALIDATION_EDGE_ID, source, target);
    assert draft in next.edges;
    if source == "" || target == "" {
      return Some(EndpointNotChosen);
    }
    if source == target {
      return Some(SameEndpoints);
    }
    var sourceNode, targetNode := FindNode(d.nodes, source), FindNode(d.nodes, target);
    if sourceNode.None? || targetNode.None? {
      return Some(UnknownEndpoint);
    }
    FoundTrigger(d, target);
    if targetNode.value.nodeType.ManualTrigger? {
      assert target in TriggerIds(d);
      return Some(TriggerAsTarget);
    }
    if exists e :: e in d.edges && ignored != Some(e.id) && e.source == source && e.target == target {
      DuplicateDraftIsRejected(d, source, target, ignored);
      return Some(EdgeExists);
    }
    var issues := SafeParse(Drafted(d, source, target, ignored));
    return if issues == [] then None else Some(Invalid(issues[0]));
  }

  lemma DuplicateDraftIsRejected(d: WorkflowDefinition, source: NodeId, target: NodeId, ignored: Option<string>)
    requires exists e :: e in d.edges && ignored != Some(e.id) && e.source == source && e.target == target
    ensures !UniquePairs(Drafted(d, source, target, ignored).edges)
  {
    var kept := KeptEdges(d.edges, ignored);
    KeptEdgesAre(d.edges, ignored);
    var e :| e in d.edges && ignored != Some(e.id) && e.source == source && e.target == target;
    var i :| 0 <= i < |kept| && kept[i] == e;
    var next := Drafted(d, source, target, ignored).edges;
    assert SamePair(next[i], next[|kept|]);
  }

  // ---- When a draft is accepted ----

  lemma {:induction false} KeptIsUnique(edges: seq<WorkflowEdge>, ignored: Option<string>)
    requires UniqueEdgeIds(edges) && UniquePairs(edges)
    ensures UniqueEdgeIds(KeptEdges(edges, ignored)) && UniquePairs(KeptEdges(edges, ignored))
    decreases edges
  {
    if edges != [] {
      var rest := edges[1..];
      FirstDiffersFromRest(edges);
      KeptIsUnique(rest, ignored);
      KeptEdgesAre(rest, ignored);
      if ignored == Some(edges[0].id) {
        assert KeptEdges(edges, ignored) == KeptEdges(rest, ignored);
      } else {
        PrependUnique(edges[0], KeptEdges(rest, ignored));
      }
    }
  }

  lemma PrependUnique(first: WorkflowEdge, rest: seq<WorkflowEdge>)
    requires UniqueEdgeIds(rest) && UniquePairs(rest)
    requires forall e :: e in rest ==> e.id != first.id && !SamePair(first, e)
    ensures UniqueEdgeIds([first] + rest) && UniquePairs([first] + rest)
  {
  }

  lemma FirstDiffersFromRest(edges: seq<WorkflowEdge>)
    requires edges != [] && UniqueEdgeIds(edges) && UniquePairs(edges)
    ensures forall e :: e in edges[1..] ==> e.id != edges[0].id && !SamePair(edges[0], e)
  {
    forall e | e in edges[1..] ensures e.id != edges[0].id && !SamePair(edges[0], e) {
      var i :| 0 <= i < |edges[1..]| && edges[1..][i] == e;
      assert edges[i + 1] == e;
    }
  }

  /** Joining source to target on top of the kept edges. */
  ghost predicate DraftFits(d: WorkflowDefinition, kept: seq<WorkflowEdge>, source: NodeId, target: NodeId) {
    && source in NodeIds(d) && target in NodeIds(d) && source != target && target !in TriggerIds(d)
    && (source, target) !in ArcsOf(kept)
    && |kept| < MAX_EDGES
    && VALIDATION_EDGE_ID !in EdgeIdSet(kept)
  }

  lemma DraftedSets(d: WorkflowDefinition, source: NodeId, target: NodeId, ignored: Option<string>)
    ensures var next, kept := Drafted(d, source, target, ignored), KeptEdges(d.edges, ignored);
            && NodeIds(next) == NodeIds(d) && TriggerIds(next) == TriggerIds(d)
            && ArcsOf(next.edges) == ArcsOf(kept) + {(source, target)}
            && EdgeIdSet(next.edges) == EdgeIdSet(kept) + {VALIDATION_EDGE_ID}
  {
  }

  lemma DraftedShape(d: WorkflowDefinition, source: NodeId, target: NodeId, ignored: Option<string>)
    requires ShapeValid(d) && source in NodeIds(d) && target in NodeIds(d)
    ensures ShapeValid(Drafted(d, source, target, ignored)) <==> |KeptEdges(d.edges, ignored)| < MAX_EDGES
  {
    KeptEdgesAre(d.edges, ignored);
    assert ValidId(VALIDATION_EDGE_ID);
  }

  /**
   * On an accepted definition, a draft is accepted exactly when it fits, every
   * node stays reachable, and its target does not already reach its source.
   */
  lemma DraftAcceptedIff(d: WorkflowDefinition, source: NodeId, target: NodeId, ignored: Option<string>)
    requires Accepted(d)
    ensures var kept := KeptEdges(d.edges, ignored);
            Accepted(Drafted(d, source, target, ignored)) <==>
              && DraftFits(d, kept, source, target)
              && AllReached(NodeIds(d), TriggerIds(d), ArcsOf(kept) + {(source, target)})
              && !Reaches(ArcsOf(kept), target, source)
  {
    AcceptedIff(d);
    AcceptedIff(Drafted(d, source, target, ignored));
    KeptRules(d, ignored);
    DraftPassesIff(d, source, target, ignored);
  }

  lemma DraftPassesIff(d: WorkflowDefinition, source: NodeId, target: NodeId, ignored: Option<string>)
    requires ShapeValid(d) && OrderFree(d) && KeptIsWellFormed(d, KeptEdges(d.edges, ignored))
    ensures var next, kept := Drafted(d, source, target, ignored), KeptEdges(d.edges, ignored);
            ShapeValid(next) && OrderFree(next) <==>
              && DraftFits(d, kept, source, target)
              && AllReached(NodeIds(d), TriggerIds(d), ArcsOf(kept) + {(source, target)})
              && !Reaches(ArcsOf(kept), target, source)
  {
    DraftOrderFreeIff(d, source, target, ignored);
    if source in NodeIds(d) && target in NodeIds(d) {
      DraftedShape(d, source, target, ignored);
    }
  }

  lemma DraftOrderFreeIff(d: WorkflowDefinition, source: NodeId, target: NodeId, ignored: Option<string>)
    requires OrderFree(d) && KeptIsWellFormed(d, KeptEdges(d.edges, ignored))
    ensures var kept := KeptEdges(d.edges, ignored);
            OrderFree(Drafted(d, source, target, ignored)) <==>
              && source in NodeIds(d) && target in NodeIds(d) && source != target && target !in TriggerIds(d)
              && (source, target) !in ArcsOf(kept) && VALIDATION_EDGE_ID !in EdgeIdSet(kept)
              && AllReached(NodeIds(d), TriggerIds(d), ArcsOf(kept) + {(source, target)})
              && !Reaches(ArcsOf(kept), target, source)
  {
    var kept := KeptEdges(d.edges, ignored);
    DraftedSets(d, source, target, ignored);
    AddArcAcyclicIff(ArcsOf(kept), source, target);
    AddOneCount(ArcsOf(kept), (source, target));
    AddOneCount(EdgeIdSet(kept), VALIDATION_EDGE_ID);
    ArcsFitWithDraft(NodeIds(d), TriggerIds(d), ArcsOf(kept), source, target);
  }

  ghost predicate KeptIsWellFormed(d: WorkflowDefinition, kept: seq<WorkflowEdge>) {
    && |ArcsOf(kept)| == |kept| && |EdgeIdSet(kept)| == |kept|
    && ArcsFit(NodeIds(d), TriggerIds(d), ArcsOf(kept))
    && Acyclic(ArcsOf(kept))
  }

  lemma AddOneCount<T>(s: set<T>, x: T)
    ensures |s + {x}| == |s| + if x in s then 0 else 1
  {
    if x in s {
      assert s + {x} == s;
    }
  }

  lemma KeptRules(d: WorkflowDefinition, ignored: Option<string>)
    requires Accepted(d)
    ensures KeptIsWellFormed(d, KeptEdges(d.edges, ignored))
  {
    var kept := KeptEdges(d.edges, ignored);
    KeptIsUnique(d.edges, ignored);
    UniquePairsIffCount(kept);
    UniqueEdgeIdsIffCount(kept);
    KeptArcs(d.edges, ignored);
    EdgeRulesAreArcRules(d);
    KeptAcyclic(d, ignored);
  }

  lemma KeptArcs(edges: seq<WorkflowEdge>, ignored: Option<string>)
    ensures ArcsOf(KeptEdges(edges, ignored)) <= ArcsOf(edges)
  {
    KeptEdgesAre(edges, ignored);
  }

  lemma KeptAcyclic(d: WorkflowDefinition, ignored: Option<string>)
    requires Acyclic(ArcsOf(d.edges))
    ensures Acyclic(ArcsOf(KeptEdges(d.edges, ignored)))
  {
    var kept := ArcsOf(KeptEdges(d.edges, ignored));
    KeptArcs(d.edges, ignored);
    SubgraphIsAcyclic(kept, ArcsOf(d.edges));
  }

  lemma SubgraphIsAcyclic(arcs: Arcs, more: Arcs)
    requires arcs <= more && Acyclic(more)
    ensures Acyclic(arcs)
  {
    forall v | OnCycle(arcs, v) ensures OnCycle(more, v) {
      var n: nat :| n > 0 && Walk(arcs, v, v, n);
      WalkMonotone(arcs, more, v, v, n);
    }
    assert forall v :: !OnCycle(more, v);
  }

  lemma ArcsFitWithDraft(ids: set<NodeId>, triggers: set<NodeId>, arcs: Arcs, source: NodeId, target: NodeId)
    requires ArcsFit(ids, triggers, arcs)
    ensures ArcsFit(ids, triggers, arcs + {(source, target)}) <==>
              source in ids && target in ids && source != target && target !in triggers
  {
    assert (source, target) in arcs + {(source, target)};
  }

  /** A new edge, replacing none: reachability cannot suffer, so the one graph question left is the cycle. */
  lemma NewEdgeAcceptedIff(d: WorkflowDefinition, source: NodeId, target: NodeId)
    requires Accepted(d)
    ensures Accepted(Drafted(d, source, target, None)) <==>
              DraftFits(d, d.edges, source, target) && !Reaches(ArcsOf(d.edges), target, source)
  {
    KeptWithoutMatch(d.edges, None);
    DraftAcceptedIff(d, source, target, None);
    ReachRuleIsOrderFree(d);
    MoreArcsReachMore(NodeIds(d), TriggerIds(d), ArcsOf(d.edges), ArcsOf(d.edges) + {(source, target)});
  }

  lemma MoreArcsReachMore(ids: set<NodeId>, triggers: set<NodeId>, arcs: Arcs, more: Arcs)
    requires arcs <= more && AllReached(ids, triggers, arcs)
    ensures AllReached(ids, triggers, more)
  {
    forall v | v in ids ensures exists t :: t in triggers && Reaches(more, t, v) {
      var t :| t in triggers && Reaches(arcs, t, v);
      var n: nat :| Walk(arcs, t, v, n);
      WalkMonotone(arcs, more, t, v, n);
    }
  }

  // ---- Replacing the selected edge in place ----

  function Replaced(edges: seq<WorkflowEdge>, selectedId: string, edge: WorkflowEdge): (r: seq<WorkflowEdge>)
    ensures |r| == |edges|
    ensures forall i :: 0 <= i < |r| ==> r[i] == if edges[i].id == selectedId then edge else edges[i]
  {
    seq(|edges|, i requires 0 <= i < |edges| => if edges[i].id == selectedId then edge else edges[i])
  }

  function BaseEdgeId(source: NodeId, target: NodeId): string {
    source + "-to-" + target
  }

  /** The edited edge keeps its id when that already fits its new endpoints, and gets a free one otherwise. */
  ghost predicate IsEditedId(d: WorkflowDefinition, selectedId: string, source: NodeId, target: NodeId, id: string) {
    if selectedId == BaseEdgeId(source, target) then id == selectedId
    else IsFirstFree(BaseEdgeId(source, target), EdgeIdSet(KeptEdges(d.edges, Some(selectedId))), id)
  }

  /** The generated id has at most 80 characters, said of what the user chose. */
  ghost predicate EditedIdFits(d: WorkflowDefinition, selectedId: string, source: NodeId, target: NodeId) {
    var base, taken := BaseEdgeId(source, target), EdgeIdSet(KeptEdges(d.edges, Some(selectedId)));
    if selectedId == base || base !in taken then |source| + |target| + 4 <= MAX_ID_LENGTH
    else exists k :: IsLeastFreeSuffix(base, taken, k) && |source| + |target| + 5 + |Decimal(k)| <= MAX_ID_LENGTH
  }

  lemma EditedIdFitsIff(d: WorkflowDefinition, selectedId: string, source: NodeId, target: NodeId, id: string)
    requires IsEditedId(d, selectedId, source, target, id)
    ensures |id| <= MAX_ID_LENGTH <==> EditedIdFits(d, selectedId, source, target)
  {
    var base, taken := BaseEdgeId(source, target), EdgeIdSet(KeptEdges(d.edges, Some(selectedId)));
    assert |base| == |source| + |target| + 4;
    if selectedId != base && base in taken {
      var k :| IsLeastFreeSuffix(base, taken, k) && id == Suffixed(base, k);
      assert |id| == |base| + 1 + |Decimal(k)|;
      forall other | IsLeastFreeSuffix(base, taken, other) ensures other == k {
        LeastIsUnique(base, taken, k, other);
      }
    }
  }

  lemma LeastIsUnique(base: string, taken: set<string>, j: nat, k: nat)
    requires IsLeastFreeSuffix(base, taken, j) && IsLeastFreeSuffix(base, taken, k)
    ensures j == k
  {
  }

  ghost predicate SelectedAt(edges: seq<WorkflowEdge>, selectedId: string, k: int) {
    0 <= k < |edges| && forall i :: 0 <= i < |edges| ==> (edges[i].id == selectedId <==> i == k)
  }

  lemma SelectedIsDropped(selected: WorkflowEdge)
    ensures KeptEdges([selected], Some(selected.id)) == []
  {
    assert [selected][1..] == [];
  }

  lemma KeptBefore(before: seq<WorkflowEdge>, selected: WorkflowEdge)
    requires forall e :: e in before ==> e.id != selected.id
    ensures KeptEdges(before + [selected], Some(selected.id)) == before
  {
    KeptOfConcat(before, [selected], Some(selected.id));
    KeptWithoutMatch(before, Some(selected.id));
    SelectedIsDropped(selected);
    assert before + [] == before;
  }

  lemma KeptAround(before: seq<WorkflowEdge>, selected: WorkflowEdge, after: seq<WorkflowEdge>)
    requires forall e :: e in before ==> e.id != selected.id
    requires forall e :: e in after ==> e.id != selected.id
    ensures KeptEdges(before + [selected] + after, Some(selected.id)) == before + after
  {
    KeptOfConcat(before + [selected], after, Some(selected.id));
    KeptBefore(before, selected);
    KeptWithoutMatch(after, Some(selected.id));
  }

  lemma SelectedSplits(edges: seq<WorkflowEdge>, selectedId: string, k: int)
    requires SelectedAt(edges, selectedId, k)
    ensures forall e :: e in edges[..k] ==> e.id != selectedId
    ensures forall e :: e in edges[k + 1..] ==> e.id != selectedId
    ensures edges == edges[..k] + [edges[k]] + edges[k + 1..]
  {
  }

  lemma ReplacedAround(edges: seq<WorkflowEdge>, selectedId: string, k: int, edge: WorkflowEdge)
    requires SelectedAt(edges, selectedId, k)
    ensures Replaced(edges, selectedId, edge) == edges[..k] + [edge] + edges[k + 1..]
  {
  }

  lemma KeptAroundSelected(edges: seq<WorkflowEdge>, selectedId: string, k: int, edge: WorkflowEdge)
    requires SelectedAt(edges, selectedId, k)
    ensures KeptEdges(edges, Some(selectedId)) == edges[..k] + edges[k + 1..]
    ensures Replaced(edges, selectedId, edge) == edges[..k] + [edge] + edges[k + 1..]
  {
    SelectedSplits(edges, selectedId, k);
    ReplacedAround(edges, selectedId, k, edge);
    KeptAround(edges[..k], edges[k], edges[k + 1..]);
  }

  lemma InsertedSets(before: seq<WorkflowEdge>, after: seq<WorkflowEdge>, edge: WorkflowEdge)
    ensures ArcsOf(before + [edge] + after) == ArcsOf(before + after) + {(edge.source, edge.target)}
    ensures EdgeIdSet(before + [edge] + after) == EdgeIdSet(before + after) + {edge.id}
  {
    var all, rest := before + [edge] + after, before + after;
    forall e ensures e in all <==> e in rest || e == edge {
    }
  }

  /** The edited definition follows the graph rules exactly when the reordered one that was checked does. */
  lemma ReplacedFollowsRulesIff(d: WorkflowDefinition, selectedId: string, k: int, edge: WorkflowEdge)
    requires SelectedAt(d.edges, selectedId, k)
    requires VALIDATION_EDGE_ID !in EdgeIdSet(KeptEdges(d.edges, Some(selectedId)))
    requires edge.id !in EdgeIdSet(KeptEdges(d.edges, Some(selectedId)))
    ensures OrderFree(d.(edges := Replaced(d.edges, selectedId, edge)))
       <==> OrderFree(Drafted(d, edge.source, edge.target, Some(selectedId)))
  {
    var kept := KeptEdges(d.edges, Some(selectedId));
    KeptAroundSelected(d.edges, selectedId, k, edge);
    InsertedSets(d.edges[..k], d.edges[k + 1..], edge);
    DraftedSets(d, edge.source, edge.target, Some(selectedId));
    AddOneCount(EdgeIdSet(kept), VALIDATION_EDGE_ID);
    AddOneCount(EdgeIdSet(kept), edge.id);
  }

  /** The generated id has valid characters; only its length may be too great. */
  lemma EditedIdIsValidIff(d: WorkflowDefinition, selectedId: string, source: NodeId, target: NodeId, id: string)
    requires ValidId(source) && ValidId(target) && IsEditedId(d, selectedId, source, target, id)
    ensures ValidId(id) <==> |id| <= MAX_ID_LENGTH
  {
    var base := BaseEdgeId(source, target);
    assert base[0] == source[0];
    assert forall i :: 0 <= i < |base| ==> IsIdChar(base[i]);
    if id != base {
      var taken := EdgeIdSet(KeptEdges(d.edges, Some(selectedId)));
      var k :| IsLeastFreeSuffix(base, taken, k) && id == Suffixed(base, k);
    }
  }

  lemma ReplacedShapeIff(d: WorkflowDefinition, selectedId: string, k: int, edge: WorkflowEdge)
    requires SelectedAt(d.edges, selectedId, k)
    requires ShapeValid(Drafted(d, edge.source, edge.target, Some(selectedId)))
    ensures ShapeValid(d.(edges := Replaced(d.edges, selectedId, edge))) <==> ValidId(edge.id)
  {
    var next, updated :=
        Drafted(d, edge.source, edge.target, Some(selectedId)).edges, Replaced(d.edges, selectedId, edge);
    KeptAroundSelected(d.edges, selectedId, k, edge);
    assert next[|next| - 1] in next;
    assert updated[k] == edge;
    forall e ensures e in updated <==> e == edge || e in KeptEdges(d.edges, Some(selectedId)) {
    }
    forall e | e in KeptEdges(d.edges, Some(selectedId)) ensures e in next {
    }
  }

  /**
   * An accepted edit keeps every graph rule, although the check ran on a
   * reordered list with a placeholder id.  The whole schema accepts the result
   * exactly when the endpoints' ids, and a suffix if one is needed, are short enough.
   */
  lemma AcceptedEditIsValidIff(d: WorkflowDefinition, selectedId: string, k: int, edge: WorkflowEdge)
    requires SelectedAt(d.edges, selectedId, k)
    requires IsEditedId(d, selectedId, edge.source, edge.target, edge.id)
    requires Accepted(Drafted(d, edge.source, edge.target, Some(selectedId)))
    ensures Structural(d.(edges := Replaced(d.edges, selectedId, edge)))
    ensures Accepted(d.(edges := Replaced(d.edges, selectedId, edge))) <==>
            EditedIdFits(d, selectedId, edge.source, edge.target)
  {
    EditedIdFitsIff(d, selectedId, edge.source, edge.target, edge.id);
    var updated := d.(edges := Replaced(d.edges, selectedId, edge));
    AcceptedIff(Drafted(d, edge.source, edge.target, Some(selectedId)));
    AcceptedIff(updated);
    StructuralIff(updated);
    EditPassesIff(d, selectedId, k, edge);
  }

  lemma EditPassesIff(d: WorkflowDefinition, selectedId: string, k: int, edge: WorkflowEdge)
    requires SelectedAt(d.edges, selectedId, k)
    requires IsEditedId(d, selectedId, edge.source, edge.target, edge.id)
    requires var next := Drafted(d, edge.source, edge.target, Some(selectedId)); ShapeValid(next) && OrderFree(next)
    ensures var updated := d.(edges := Replaced(d.edges, selectedId, edge));
            OrderFree(updated) && (ShapeValid(updated) <==> |edge.id| <= MAX_ID_LENGTH)
  {
    EditedIdIsFree(d, selectedId, edge.source, edge.target, edge.id);
    PlaceholderIsFree(d, edge.source, edge.target, selectedId);
    ReplacedFollowsRulesIff(d, selectedId, k, edge);
    ReplacedShapeIff(d, selectedId, k, edge);
    DraftedEndpointsAreValid(d, edge.source, edge.target, Some(selectedId));
    EditedIdIsValidIff(d, selectedId, edge.source, edge.target, edge.id);
  }

  lemma EditedIdIsFree(d: WorkflowDefinition, selectedId: string, source: NodeId, target: NodeId, id: string)
    requires IsEditedId(d, selectedId, source, target, id)
    ensures id !in EdgeIdSet(KeptEdges(d.edges, Some(selectedId)))
  {
    KeptEdgesAre(d.edges, Some(selectedId));
  }

  lemma DraftedEndpointsAreValid(d: WorkflowDefinition, source: NodeId, target: NodeId, ignored: Option<string>)
    requires ShapeValid(Drafted(d, source, target, ignored))
    ensures ValidId(source) && ValidId(target)
  {
    var next := Drafted(d, source, target, ignored).edges;
    assert next[|next| - 1] in next;
  }

  lemma PlaceholderIsFree(d: WorkflowDefinition, source: NodeId, target: NodeId, selectedId: string)
    requires OrderFree(Drafted(d, source, target, Some(selectedId)))
    ensures VALIDATION_EDGE_ID !in EdgeIdSet(KeptEdges(d.edges, Some(selectedId)))
  {
    var kept := KeptEdges(d.edges, Some(selectedId));
    DraftedSets(d, source, target, Some(selectedId));
    AddOneCount(EdgeIdSet(kept), VALIDATION_EDGE_ID);
    UniqueEdgeIdsIffCount(kept);
  }

  predicate Unselected(edges: seq<WorkflowEdge>, selectedId: string) {
    forall e :: e in edges ==> e.id != selectedId
  }

  ghost predicate SelectedOnce(edges: seq<WorkflowEdge>, selectedId: string) {
    exists k :: SelectedAt(edges, selectedId, k)
  }

  /** The edit replaces exactly one edge, or none and the definition did not need the drafted one. */
  ghost predicate EditKeepsRules(d: WorkflowDefinition, selectedId: string) {
    SelectedOnce(d.edges, selectedId) || (Unselected(d.edges, selectedId) && AllReachable(d))
  }

  /** When no edge is selected the definition stays as it is. */
  lemma UnselectedEditIff(d: WorkflowDefinition, selectedId: string, edge: WorkflowEdge)
    requires Unselected(d.edges, selectedId)
    requires Accepted(Drafted(d, edge.source, edge.target, Some(selectedId)))
    ensures Replaced(d.edges, selectedId, edge) == d.edges
    ensures (Structural(d) <==> AllReachable(d)) && (Accepted(d) <==> AllReachable(d))
  {
    var next := Drafted(d, edge.source, edge.target, Some(selectedId));
    KeptWithoutMatch(d.edges, Some(selectedId));
    FewerEdgesKeepRules(d, next);
  }

  /** Dropping the last edge breaks no rule but reachability. */
  lemma FewerEdgesKeepRules(d: WorkflowDefinition, next: WorkflowDefinition)
    requires Accepted(next) && next.nodes == d.nodes && |next.edges| == |d.edges| + 1
             && d.edges == next.edges[..|d.edges|]
    ensures (Structural(d) <==> AllReachable(d)) && (Accepted(d) <==> AllReachable(d))
  {
    assert forall e :: e in d.edges ==> e in next.edges;
    assert forall i :: 0 <= i < |d.edges| ==> d.edges[i] == next.edges[i];
    SubgraphIsAcyclic(ArcsOf(d.edges), ArcsOf(next.edges));
  }

  /** When several edges share the selected id, the edit repeats an edge. */
  lemma SharedEditBreaksRules(d: WorkflowDefinition, selectedId: string, edge: WorkflowEdge)
    requires !Unselected(d.edges, selectedId) && !SelectedOnce(d.edges, selectedId)
    ensures !UniqueEdgeIds(Replaced(d.edges, selectedId, edge))
  {
    var e :| e in d.edges && e.id == selectedId;
    var k :| 0 <= k < |d.edges| && d.edges[k] == e;
    assert !SelectedAt(d.edges, selectedId, k);
    var j :| 0 <= j < |d.edges| && j != k && d.edges[j].id == selectedId;
    var updated := Replaced(d.edges, selectedId, edge);
    assert updated[j] == edge && updated[k] == edge;
  }

  /** Exactly when an accepted edit keeps the graph rules, and exactly when its result is accepted. */
  lemma EditKeepsRulesIff(d: WorkflowDefinition, selectedId: string, edge: WorkflowEdge)
    requires IsEditedId(d, selectedId, edge.source, edge.target, edge.id)
    requires Accepted(Drafted(d, edge.source, edge.target, Some(selectedId)))
    ensures var updated := d.(edges := Replaced(d.edges, selectedId, edge));
            && (Structural(updated) <==> EditKeepsRules(d, selectedId))
            && (Accepted(updated) <==>
                  EditKeepsRules(d, selectedId)
                  && (Unselected(d.edges, selectedId) || EditedIdFits(d, selectedId, edge.source, edge.target)))
  {
    if k :| SelectedAt(d.edges, selectedId, k) {
      AcceptedEditIsValidIff(d, selectedId, k, edge);
      assert d.edges[k] in d.edges;
    } else if Unselected(d.edges, selectedId) {
      UnselectedEditIff(d, selectedId, edge);
    } else {
      SharedEditBreaksRules(d, selectedId, edge);
    }
  }

  method UpdateSelectedEdge(d: WorkflowDefinition, selectedId: string, source: NodeId, target: NodeId)
    returns (updated: WorkflowDefinition, edgeId: string, error: Option<DraftError>)
    ensures error.None? <==> Accepted(Drafted(d, source, target, Some(selectedId)))
    ensures error.Some? ==> updated == d && edgeId == selectedId
    ensures error.None? ==>
              && IsEditedId(d, selectedId, source, target, edgeId)
              && updated == d.(edges := Replaced(d.edges, selectedId, WorkflowEdge(edgeId, source, target)))
    ensures error.None? ==>
              && (selectedId == source + "-to-" + target ==> edgeId == selectedId)
              && (edgeId == source + "-to-" + target
                  || exists k: nat :: 2 <= k && edgeId == source + "-to-" + target + "-" + Decimal(k))
    ensures error.None? ==> (Structural(updated) <==> EditKeepsRules(d, selectedId))
    ensures error.None? ==>
              (Accepted(updated) <==>
                 EditKeepsRules(d, selectedId)
                 && (Unselected(d.edges, selectedId) || EditedIdFits(d, selectedId, source, target)))
  {
    error := ValidateEdgeDraft(d, source, target, Some(selectedId));
    if error.Some? {
      return d, selectedId, error;
    }
    var baseId := BaseEdgeId(source, target);
    if selectedId == baseId {
      edgeId := selectedId;
    } else {
      edgeId := FirstFreeId(baseId, EdgeIdSet(KeptEdges(d.edges, Some(selectedId))));
    }
    updated := d.(edges := Replaced(d.edges, selectedId, WorkflowEdge(edgeId, source, target)));
    EditKeepsRulesIff(d, selectedId, WorkflowEdge(edgeId, source, target));
  }

  // ---- An accepted edit whose result the schema refuses ----

  function Repeat(c: char, n: nat): (s: string)
    ensures |s| == n && forall i :: 0 <= i < n ==> s[i] == c
  {
    seq(n, _ => c)
  }

  function PlainNode(id: NodeId, nodeType: NodeType): WorkflowNode {
    WorkflowNode(id, nodeType, "", None)
  }

  /** A trigger and two actions joined by two edges, the first from the trigger to the first action. */
  function Trio(a: NodeId, b: NodeId, second: WorkflowEdge): WorkflowDefinition {
    WorkflowDefinition([PlainNode("t", ManualTrigger), PlainNode(a, TransformAction), PlainNode(b, TransformAction)],
                       [WorkflowEdge("e1", "t", a), second])
  }

  predicate TrioIds(a: NodeId, b: NodeId, second: WorkflowEdge) {
    && ValidId(a) && ValidId(b) && ValidId(second.id) && second.id != "e1"
    && a != "t" && b != "t" && a != b
    && second.target == b && (second.source == "t" || second.source == a)
  }

  lemma TrioSets(a: NodeId, b: NodeId, second: WorkflowEdge)
    requires TrioIds(a, b, second)
    ensures var d := Trio(a, b, second);
            && NodeIds(d) == {"t", a, b} && TriggerIds(d) == {"t"}
            && ArcsOf(d.edges) == {("t", a), (second.source, b)} && EdgeIdSet(d.edges) == {"e1", second.id}
  {
    var d := Trio(a, b, second);
    assert forall n :: n in d.nodes <==> n == d.nodes[0] || n == d.nodes[1] || n == d.nodes[2];
    assert forall e :: e in d.edges <==> e == d.edges[0] || e == d.edges[1];
  }

  lemma TrioGraph(ids: set<NodeId>, triggers: set<NodeId>, arcs: Arcs, a: NodeId, b: NodeId, source: NodeId)
    requires a != "t" && b != "t" && a != b && (source == "t" || source == a)
    requires ids == {"t", a, b} && triggers == {"t"} && arcs == {("t", a), (source, b)}
    ensures GraphRules(ids, triggers, arcs)
  {
    RankedIsAcyclic(arcs, map["t" := 0, a := 1, b := 2]);
    ReachesSelf(arcs, "t");
    ReachesStep(arcs, "t", "t", a);
    ReachesStep(arcs, "t", source, b);
    assert forall v :: v in ids ==> "t" in triggers && Reaches(arcs, "t", v);
  }

  lemma TrioShape(a: NodeId, b: NodeId, second: WorkflowEdge)
    requires TrioIds(a, b, second)
    ensures ShapeValid(Trio(a, b, second))
  {
    var d := Trio(a, b, second);
    assert ValidId("t") && ValidId("e1");
    assert forall n :: n in d.nodes <==> n == d.nodes[0] || n == d.nodes[1] || n == d.nodes[2];
    assert forall e :: e in d.edges <==> e == d.edges[0] || e == d.edges[1];
  }

  lemma TrioIsAccepted(a: NodeId, b: NodeId, second: WorkflowEdge)
    requires TrioIds(a, b, second)
    ensures Accepted(Trio(a, b, second))
  {
    TrioSets(a, b, second);
    TrioFollowsRules(Trio(a, b, second), a, b, second.source, second.id);
    TrioShape(a, b, second);
    AcceptedIff(Trio(a, b, second));
  }

  lemma TrioFollowsRules(d: WorkflowDefinition, a: NodeId, b: NodeId, source: NodeId, id: string)
    requires a != "t" && b != "t" && a != b && (source == "t" || source == a) && id != "e1"
    requires |d.nodes| == 3 && NodeIds(d) == {"t", a, b} && TriggerIds(d) == {"t"}
    requires |d.edges| == 2 && ArcsOf(d.edges) == {("t", a), (source, b)} && EdgeIdSet(d.edges) == {"e1", id}
    ensures OrderFree(d)
  {
    ThreeElements("t", a, b);
    TwoElements(("t", a), (source, b));
    TwoElements("e1", id);
    TrioGraph(NodeIds(d), TriggerIds(d), ArcsOf(d.edges), a, b, source);
  }

  lemma ThreeElements<T>(x: T, y: T, z: T)
    requires x != y && x != z && y != z
    ensures |{x, y, z}| == 3
  {
    assert {x, y, z} == {x} + {y} + {z};
  }

  lemma TwoElements<T>(x: T, y: T)
    requires x != y
    ensures |{x, y}| == 2
  {
    assert {x, y} == {x} + {y};
  }

  /** With two 40-character ids the generated edge id has 84 characters, four too many. */
  lemma AcceptedEditCanBeRefusedLater()
    ensures var a, b := Repeat('a', 40), Repeat('b', 40);
            var d := Trio(a, b, WorkflowEdge("e2", "t", b));
            var edge := WorkflowEdge(BaseEdgeId(a, b), a, b);
            && Accepted(d)
            && Accepted(Drafted(d, a, b, Some("e2")))
            && IsEditedId(d, "e2", a, b, edge.id)
            && !Accepted(d.(edges := Replaced(d.edges, "e2", edge)))
  {
    var a, b := Repeat('a', 40), Repeat('b', 40);
    assert a[0] != b[0];
    assert TrioIds(a, b, WorkflowEdge("e2", "t", b)) && TrioIds(a, b, WorkflowEdge(VALIDATION_EDGE_ID, a, b));
    TrioIsAccepted(a, b, WorkflowEdge("e2", "t", b));
    TrioIsAccepted(a, b, WorkflowEdge(VALIDATION_EDGE_ID, a, b));
    TrioDraft(a, b);
    var d, edge := Trio(a, b, WorkflowEdge("e2", "t", b)), WorkflowEdge(BaseEdgeId(a, b), a, b);
    assert |edge.id| == 84;
    AcceptedEditIsValidIff(d, "e2", 1, edge);
  }

  /** An edge that already has the placeholder's id blocks every new edge. */
  lemma PlaceholderBlocksNewEdges(d: WorkflowDefinition, source: NodeId, target: NodeId)
    requires Accepted(d) && "validation-edge" in EdgeIdSet(d.edges)
    ensures !Accepted(Drafted(d, source, target, None))
  {
    NewEdgeAcceptedIff(d, source, target);
  }

  /** A definition in which that happens, and the same one under another edge id. */
  lemma PlaceholderIsTakenSomewhere()
    ensures var d, other :=
            Trio("a", "b", WorkflowEdge("validation-edge", "t", "b")), Trio("a", "b", WorkflowEdge("e2", "t", "b"));
            && Accepted(d) && !Accepted(Drafted(d, "a", "b", None))
            && Accepted(other) && Accepted(Drafted(other, "a", "b", None))
  {
    TrioTakesEdge("e2");
    TrioTakesEdge(VALIDATION_EDGE_ID);
  }

  /**
   * A trio with both edges out of the trigger takes an edge between its actions unless the
   * placeholder's id is in use.
   */
  lemma TrioTakesEdge(id: string)
    requires ValidId(id) && id != "e1"
    ensures var d := Trio("a", "b", WorkflowEdge(id, "t", "b"));
            Accepted(d) && (Accepted(Drafted(d, "a", "b", None)) <==> id != VALIDATION_EDGE_ID)
  {
    var d := Trio("a", "b", WorkflowEdge(id, "t", "b"));
    assert ValidId("a") && ValidId("b");
    TrioIsAccepted("a", "b", WorkflowEdge(id, "t", "b"));
    NewEdgeAcceptedIff(d, "a", "b");
    TrioFits(id);
  }

  lemma TrioFits(id: string)
    requires ValidId(id) && id != "e1"
    ensures var d := Trio("a", "b", WorkflowEdge(id, "t", "b"));
            !Reaches(ArcsOf(d.edges), "b", "a") && (DraftFits(d, d.edges, "a", "b") <==> id != VALIDATION_EDGE_ID)
  {
    assert ValidId("a") && ValidId("b");
    TrioSets("a", "b", WorkflowEdge(id, "t", "b"));
    NoArcNoWalk(ArcsOf(Trio("a", "b", WorkflowEdge(id, "t", "b")).edges), "b", "a");
  }

  lemma NoArcNoWalk(arcs: Arcs, u: NodeId, v: NodeId)
    requires u != v && forall w :: (u, w) !in arcs
    ensures !Reaches(arcs, u, v)
  {
    forall n: nat ensures !Walk(arcs, u, v, n) {
      if n > 0 && Walk(arcs, u, v, n) {
        var x := WalkFirstArc(arcs, u, v, n);
      }
    }
  }

  /** Redirecting the trio's second edge to run from a to b. */
  lemma TrioDraft(a: NodeId, b: NodeId)
    requires |a| > 0 && |b| > 0
    ensures var d, id := Trio(a, b, WorkflowEdge("e2", "t", b)), BaseEdgeId(a, b);
            && SelectedAt(d.edges, "e2", 1)
            && Drafted(d, a, b, Some("e2")) == Trio(a, b, WorkflowEdge(VALIDATION_EDGE_ID, a, b))
            && IsEditedId(d, "e2", a, b, id)
  {
    var edges := Trio(a, b, WorkflowEdge("e2", "t", b)).edges;
    assert edges[0].id == "e1" && edges[1].id == "e2";
    assert SelectedAt(edges, "e2", 1);
    KeptAroundSelected(edges, "e2", 1, edges[1]);
    assert KeptEdges(edges, Some("e2")) == [edges[0]];
    assert EdgeIdSet([edges[0]]) == {"e1"};
    assert |BaseEdgeId(a, b)| > 2;
  }
}
