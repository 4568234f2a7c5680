/** The schema's graph rules restated over sets and counts, free of any listing order. */
module OrderFreeRules {
  import opened Digraph
  import opened SeqFacts
  import opened WorkflowDefinitions

  function EdgeIdSet(edges: seq<WorkflowEdge>): set<string> {
    set e | e in edges :: e.id
  }

  /** The rules about which nodes the arcs join. */
  ghost predicate GraphRules(ids: set<NodeId>, triggers: set<NodeId>, arcs: Arcs) {
    && triggers != {}
    && ArcsFit(ids, triggers, arcs)
    && AllReached(ids, triggers, arcs)
    && Acyclic(arcs)
  }

  predicate ArcsFit(ids: set<NodeId>, triggers: set<NodeId>, arcs: Arcs) {
    forall a :: a in arcs ==> a.0 in ids && a.1 in ids && a.0 != a.1 && a.1 !in triggers
  }

  ghost predicate AllReached(ids: set<NodeId>, triggers: set<NodeId>, arcs: Arcs) {
    forall v :: v in ids ==> exists t :: t in triggers && Reaches(arcs, t, v)
  }

  /** The sets do their part, and no list repeats. */
  ghost predicate OrderFree(d: WorkflowDefinition) {
    && GraphRules(NodeIds(d), TriggerIds(d), ArcsOf(d.edges))
    && |NodeIds(d)| == |d.nodes|
    && |EdgeIdSet(d.edges)| == |d.edges|
    && |ArcsOf(d.edges)| == |d.edges|
  }

  lemma StructuralIff(d: WorkflowDefinition)
    ensures Structural(d) <==> OrderFree(d)
  {
    UniqueNodeIdsIffCount(d);
    UniqueEdgeIdsIffCount(d.edges);
    UniquePairsIffCount(d.edges);
    EdgeRulesAreArcRules(d);
    ReachRuleIsOrderFree(d);
  }

  lemma ReachRuleIsOrderFree(d: WorkflowDefinition)
    ensures AllReachable(d) <==> AllReached(NodeIds(d), TriggerIds(d), ArcsOf(d.edges))
  {
    forall v ensures ReachableFromTrigger(d, v) <==> exists t :: t in TriggerIds(d) && Reaches(ArcsOf(d.edges), t, v) {
    }
  }

  lemma AcceptedIff(d: WorkflowDefinition)
    ensures Accepted(d) <==> ShapeValid(d) && OrderFree(d)
  {
    StructuralIff(d);
  }

  lemma EdgeRulesAreArcRules(d: WorkflowDefinition)
    ensures EndpointsExist(d) && NoSelfLoops(d.edges) && NoEdgeIntoTrigger(d) <==>
            ArcsFit(NodeIds(d), TriggerIds(d), ArcsOf(d.edges))
  {
    if ArcsFit(NodeIds(d), TriggerIds(d), ArcsOf(d.edges)) {
      forall e | e in d.edges
        ensures e.source in NodeIds(d) && e.target in NodeIds(d) && e.source != e.target && e.target !in TriggerIds(d)
      {
        assert (e.source, e.target) in ArcsOf(d.edges);
      }
    }
  }

  function EdgeIds(edges: seq<WorkflowEdge>): (ids: seq<string>)
    ensures |ids| == |edges| && forall i :: 0 <= i < |ids| ==> ids[i] == edges[i].id
  {
    seq(|edges|, i requires 0 <= i < |edges| => edges[i].id)
  }

  function PairsOf(edges: seq<WorkflowEdge>): (pairs: seq<(NodeId, NodeId)>)
    ensures |pairs| == |edges| && forall i :: 0 <= i < |pairs| ==> pairs[i] == (edges[i].source, edges[i].target)
  {
    seq(|edges|, i requires 0 <= i < |edges| => (edges[i].source, edges[i].target))
  }

  /** No pair is listed twice exactly when there are as many arcs as edges. */
  lemma UniquePairsIffCount(edges: seq<WorkflowEdge>)
    ensures UniquePairs(edges) <==> |ArcsOf(edges)| == |edges|
  {
    var pairs := PairsOf(edges);
    DistinctIffCount(pairs);
    assert Distinct(pairs) <==> UniquePairs(edges) by {
      forall i, j | 0 <= i < j < |edges| ensures pairs[i] == pairs[j] <==> SamePair(edges[i], edges[j]) {
      }
    }
    assert Elements(pairs) == ArcsOf(edges) by {
      forall a | a in ArcsOf(edges) ensures a in pairs {
        var e :| e in edges && (e.source, e.target) == a;
        var i :| 0 <= i < |edges| && edges[i] == e;
        assert pairs[i] == a;
      }
    }
  }

  lemma UniqueEdgeIdsIffCount(edges: seq<WorkflowEdge>)
    ensures |EdgeIdSet(edges)| <= |edges|
    ensures UniqueEdgeIds(edges) <==> |EdgeIdSet(edges)| == |edges|
  {
    var ids := EdgeIds(edges);
    DistinctIffCount(ids);
    assert Distinct(ids) <==> UniqueEdgeIds(edges);
    assert Elements(ids) == EdgeIdSet(edges) by {
      forall e | e in edges ensures e.id in ids {
        var i :| 0 <= i < |edges| && edges[i] == e;
        assert ids[i] == e.id;
      }
    }
  }

  lemma UniqueNodeIdsIffCount(d: WorkflowDefinition)
    ensures UniqueNodeIds(d) <==> |NodeIds(d)| == |d.nodes|
  {
    var ids := IdsOf(d.nodes);
    DistinctIffCount(ids);
    assert Distinct(ids) <==> UniqueNodeIds(d) by {
      forall i, j | 0 <= i < j < |d.nodes| ensures ids[i] == ids[j] <==> d.nodes[i].id == d.nodes[j].id {
      }
    }
    assert Elements(ids) == NodeIds(d) by {
      forall n | n in d.nodes ensures n.id in ids {
        var i :| 0 <= i < |d.nodes| && d.nodes[i] == n;
        assert ids[i] == n.id;
      }
    }
  }
}
