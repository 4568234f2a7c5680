/**
 * The worker's scheduling loop: starting from the manual triggers, a node is
 * released once the last edge into it has been consumed.
 */
module NodeOrder {
  import opened Wrappers
  import opened Digraph
  import opened SeqFacts
  import opened WorkflowDefinitions
  import opened OrderFreeRules
  import opened WorkerErrors
  import opened ReleaseOrder

  /** What the loop needs from its input; the schema guarantees it. */
  predicate Orderable(d: WorkflowDefinition) {
    UniqueNodeIds(d) && EndpointsExist(d) && NoEdgeIntoTrigger(d) && "" !in NodeIds(d)
  }

  function TriggersOf(nodes: seq<WorkflowNode>): seq<NodeId> {
    if nodes == [] then []
    else (if nodes[0].nodeType.ManualTrigger? then [nodes[0].id] else []) + TriggersOf(nodes[1..])
  }

  /** Every predecessor of a listed node is listed before it. */
  ghost predicate PredecessorsFirst(arcs: Arcs, ids: seq<NodeId>) {
    forall i, u :: 0 <= i < |ids| && (u, ids[i]) in arcs ==> u in ids[..i]
  }

  /** A sequential schedule: each node once, edges pointing forward, triggers first in their given order. */
  ghost predicate IsSchedule(d: WorkflowDefinition, order: seq<WorkflowNode>) {
    && (forall n :: n in order <==> n in d.nodes)
    && Distinct(IdsOf(order))
    && PredecessorsFirst(ArcsOf(d.edges), IdsOf(order))
    && TriggersOf(d.nodes) <= IdsOf(order)
  }

  // ---- Edges still to be consumed ----

  /** The number of edges into v, among the first k, whose source is not done. */
  function Waiting(edges: seq<WorkflowEdge>, k: nat, done: set<NodeId>, v: NodeId): nat
    requires k <= |edges|
  {
    if k == 0 then 0
    else Waiting(edges, k - 1, done, v) + if edges[k - 1].target == v && edges[k - 1].source !in done then 1 else 0
  }

  lemma {:induction false} WaitingInitially(edges: seq<WorkflowEdge>, k: nat, v: NodeId)
    requires k <= |edges|
    ensures Waiting(edges, k, {}, v) == InDegreeUpTo(edges, k, v)
  {
    if k > 0 {
      WaitingInitially(edges, k - 1, v);
    }
  }

  /** Finishing u consumes exactly u's edges. */
  lemma {:induction false} WaitingAfter(edges: seq<WorkflowEdge>, k: nat, done: set<NodeId>, u: NodeId, v: NodeId)
    requires k <= |edges| && u !in done
    ensures Waiting(edges, k, done, v) == Waiting(edges, k, done + {u}, v) + multiset(TargetsUpTo(edges, k, u))[v]
  {
    if k > 0 {
      WaitingAfter(edges, k - 1, done, u, v);
      var targets, e := TargetsUpTo(edges, k - 1, u), edges[k - 1];
      assert multiset(targets + [e.target])[v] == multiset(targets)[v] + if e.target == v then 1 else 0;
    }
  }

  lemma {:induction false} WaitingUpToZeroIff(edges: seq<WorkflowEdge>, k: nat, done: set<NodeId>, v: NodeId)
    requires k <= |edges|
    ensures Waiting(edges, k, done, v) == 0 <==>
            forall i :: 0 <= i < k && edges[i].target == v ==> edges[i].source in done
  {
    if k > 0 {
      WaitingUpToZeroIff(edges, k - 1, done, v);
    }
  }

  lemma WaitingZeroIff(edges: seq<WorkflowEdge>, done: set<NodeId>, v: NodeId)
    ensures Waiting(edges, |edges|, done, v) == 0 <==> forall u :: (u, v) in ArcsOf(edges) ==> u in done
  {
    WaitingUpToZeroIff(edges, |edges|, done, v);
    if i :| 0 <= i < |edges| && edges[i].target == v && edges[i].source !in done {
      assert edges[i] in edges;
      assert (edges[i].source, v) in ArcsOf(edges);
    }
  }

  /** A node may run: a trigger, or a node whose incoming edges have all been consumed. */
  ghost predicate Ready(d: WorkflowDefinition, done: set<NodeId>, v: NodeId) {
    && v in NodeIds(d)
    && (v in TriggerIds(d) || (InDegree(d.edges, v) > 0 && Waiting(d.edges, |d.edges|, done, v) == 0))
  }

  // ---- The invariant of the loop ----

  ghost predicate CountsWaiting(d: WorkflowDefinition, done: set<NodeId>, counts: map<NodeId, int>) {
    forall v :: v in NodeIds(d) ==> v in counts && counts[v] == Waiting(d.edges, |d.edges|, done, v)
  }

  ghost predicate QueueIsReady(d: WorkflowDefinition, done: set<NodeId>, queue: seq<NodeId>) {
    && (forall v :: v in queue ==> Ready(d, done, v))
    && forall v {:trigger Ready(d, done, v)} :: Ready(d, done, v) && v !in done ==> v in queue
  }

  ghost predicate Scheduled(d: WorkflowDefinition, ids: seq<NodeId>, done: set<NodeId>) {
    && (forall v :: v in ids <==> v in done)
    && Distinct(ids)
    && done <= NodeIds(d)
    && PredecessorsFirst(ArcsOf(d.edges), ids)
    && forall v :: v in done ==> ReachableFromTrigger(d, v)
  }

  lemma ReadyHasPredecessorsDone(d: WorkflowDefinition, done: set<NodeId>, v: NodeId)
    requires NoEdgeIntoTrigger(d) && Ready(d, done, v)
    ensures forall u :: (u, v) in ArcsOf(d.edges) ==> u in done
  {
    WaitingZeroIff(d.edges, done, v);
  }

  lemma ReadyIsReachable(d: WorkflowDefinition, done: set<NodeId>, v: NodeId)
    requires NoEdgeIntoTrigger(d) && Ready(d, done, v)
    requires forall u :: u in done ==> ReachableFromTrigger(d, u)
    ensures ReachableFromTrigger(d, v)
  {
    if v in TriggerIds(d) {
      ReachesSelf(ArcsOf(d.edges), v);
    } else {
      InDegreeZeroIff(d.edges, v);
      var u :| (u, v) in ArcsOf(d.edges);
      ReadyHasPredecessorsDone(d, done, v);
      var t :| t in TriggerIds(d) && Reaches(ArcsOf(d.edges), t, u);
      ReachesStep(ArcsOf(d.edges), t, u, v);
    }
  }

  lemma ScheduleOneMore(d: WorkflowDefinition, ids: seq<NodeId>, done: set<NodeId>, v: NodeId)
    requires NoEdgeIntoTrigger(d) && Scheduled(d, ids, done) && Ready(d, done, v) && v !in done
    ensures Scheduled(d, ids + [v], done + {v})
  {
    ReadyHasPredecessorsDone(d, done, v);
    ReadyIsReachable(d, done, v);
    var more := ids + [v];
    forall i, u | 0 <= i < |more| && (u, more[i]) in ArcsOf(d.edges) ensures u in more[..i] {
      if i < |ids| {
        assert more[..i] == ids[..i];
      } else {
        assert more[..i] == ids;
      }
    }
  }

  lemma QueueAfterRelease(d: WorkflowDefinition, done: set<NodeId>, u: NodeId, rest: seq<NodeId>, released: seq<NodeId>)
    requires EndpointsExist(d) && QueueIsReady(d, done, [u] + rest) && u !in done
    requires forall v :: v in released <==>
                         v in Targets(d.edges, u) && Waiting(d.edges, |d.edges|, done + {u}, v) == 0
    ensures QueueIsReady(d, done + {u}, rest + released)
  {
    forall v | v in rest + released ensures Ready(d, done + {u}, v) {
      WaitingAfter(d.edges, |d.edges|, done, u, v);
      if v in rest {
        assert v in [u] + rest;
      } else {
        TargetsAreArcs(d.edges, u, v);
        ArcsHaveEndpoints(d, u, v);
        InDegreeZeroIff(d.edges, v);
      }
    }
    forall v | Ready(d, done + {u}, v) && v !in done + {u} ensures v in rest + released {
      WaitingAfter(d.edges, |d.edges|, done, u, v);
      if Ready(d, done, v) {
        assert v in [u] + rest;
      } else {
        assert multiset(Targets(d.edges, u))[v] > 0;
        assert v in multiset(Targets(d.edges, u));
      }
    }
  }

  // ---- The loop's end ----

  /** A node left over is unreachable or waits for another left-over node. */
  lemma LeftOverMeansInvalid(d: WorkflowDefinition, done: set<NodeId>)
    requires Orderable(d) && QueueIsReady(d, done, []) && !(NodeIds(d) <= done)
    ensures !(AllReachable(d) && Acyclic(ArcsOf(d.edges)))
  {
    var arcs := ArcsOf(d.edges);
    var left := NodeIds(d) - done;
    var left0 :| left0 in NodeIds(d) && left0 !in done;
    assert left0 in left;
    if AllReachable(d) {
      forall v {:trigger HasPredecessorIn(arcs, left, v)} | v in left ensures HasPredecessorIn(arcs, left, v) {
        LeftOverWaits(d, done, v);
      }
      EndlessPredecessorsCycle(arcs, left);
    }
  }

  lemma LeftOverWaits(d: WorkflowDefinition, done: set<NodeId>, v: NodeId)
    requires Orderable(d) && QueueIsReady(d, done, []) && v in NodeIds(d) && v !in done
    requires ReachableFromTrigger(d, v)
    ensures HasPredecessorIn(ArcsOf(d.edges), NodeIds(d) - done, v)
  {
    var arcs := ArcsOf(d.edges);
    assert !Ready(d, done, v);
    var t :| t in TriggerIds(d) && Reaches(arcs, t, v);
    var n: nat :| Walk(arcs, t, v, n);
    assert n > 0;
    var w :| Walk(arcs, t, w, n - 1) && (w, v) in arcs;
    InDegreeZeroIff(d.edges, v);
    WaitingZeroIff(d.edges, done, v);
    var u :| (u, v) in arcs && u !in done;
    ArcsHaveEndpoints(d, u, v);
  }

  function IndexMap(ids: seq<NodeId>): (m: map<NodeId, int>)
    requires Distinct(ids)
    ensures forall v :: v in m <==> v in ids
    ensures forall i :: 0 <= i < |ids| ==> m[ids[i]] == i
    ensures forall v :: v in m ==> 0 <= m[v] < |ids| && ids[m[v]] == v
  {
    if ids == [] then map[]
    else
      var init := ids[..|ids| - 1];
      assert ids == init + [ids[|ids| - 1]];
      IndexMap(init)[ids[|ids| - 1] := |ids| - 1]
  }

  /** A complete schedule certifies both schema rules. */
  lemma CompleteMeansValid(d: WorkflowDefinition, ids: seq<NodeId>, done: set<NodeId>)
    requires EndpointsExist(d) && Scheduled(d, ids, done) && NodeIds(d) <= done
    ensures AllReachable(d) && Acyclic(ArcsOf(d.edges))
  {
    var arcs := ArcsOf(d.edges);
    var index := IndexMap(ids);
    forall u, v | (u, v) in arcs ensures u in index && v in index && index[u] < index[v] {
      ArcsHaveEndpoints(d, u, v);
      var i := index[v];
      assert u in ids[..i];
      var j :| 0 <= j < i && ids[j] == u;
    }
    RankedIsAcyclic(arcs, index);
  }

  // ---- The code ----

  lemma {:induction false} TriggersOfAre(nodes: seq<WorkflowNode>, v: NodeId)
    ensures v in TriggersOf(nodes) <==> exists n :: n in nodes && n.nodeType.ManualTrigger? && n.id == v
  {
    if nodes != [] {
      assert nodes == [nodes[0]] + nodes[1..];
      TriggersOfAre(nodes[1..], v);
    }
  }

  lemma {:induction false} TriggersOfDistinct(nodes: seq<WorkflowNode>)
    requires Distinct(IdsOf(nodes))
    ensures Distinct(TriggersOf(nodes))
  {
    if nodes != [] {
      var rest := nodes[1..];
      assert forall i :: 0 <= i < |rest| ==> IdsOf(rest)[i] == IdsOf(nodes)[i + 1];
      TriggersOfDistinct(rest);
      TriggersOfAre(rest, nodes[0].id);
      assert forall n :: n in rest ==> n.id != nodes[0].id by {
        forall i | 0 <= i < |rest| ensures rest[i].id != nodes[0].id {
          assert IdsOf(nodes)[i + 1] == rest[i].id;
        }
      }
    }
  }

  /** Looks nodes up by id and starts every count at zero. */
  method IndexNodes(d: WorkflowDefinition) returns (nodesById: map<NodeId, WorkflowNode>, zeroCounts: map<NodeId, int>)
    ensures nodesById.Keys == NodeIds(d) && forall v :: v in nodesById ==>
            nodesById[v] in d.nodes && nodesById[v].id == v
    ensures zeroCounts.Keys == NodeIds(d) && forall v :: v in zeroCounts ==> zeroCounts[v] == 0
  {
    nodesById, zeroCounts := map[], map[];
    for i := 0 to |d.nodes|
      invariant nodesById.Keys == zeroCounts.Keys == set j | 0 <= j < i :: d.nodes[j].id
      invariant forall v :: v in nodesById ==> nodesById[v] in d.nodes && nodesById[v].id == v
      invariant forall v :: v in zeroCounts ==> zeroCounts[v] == 0
    {
      nodesById := nodesById[d.nodes[i].id := d.nodes[i]];
      zeroCounts := zeroCounts[d.nodes[i].id := 0];
    }
  }

  lemma LoopStarts(d: WorkflowDefinition, zeroCounts: map<NodeId, int>, counts: map<NodeId, int>)
    requires zeroCounts.Keys == NodeIds(d) <= counts.Keys && forall v :: v in zeroCounts ==> zeroCounts[v] == 0
    requires forall v :: CountOr(counts, v, 0) == CountOr(zeroCounts, v, 0) + InDegree(d.edges, v)
    ensures CountsWaiting(d, {}, counts) && QueueIsReady(d, {}, TriggersOf(d.nodes)) && Scheduled(d, [], {})
  {
    forall v | v in NodeIds(d) ensures counts[v] == Waiting(d.edges, |d.edges|, {}, v) {
      WaitingInitially(d.edges, |d.edges|, v);
      assert CountOr(counts, v, 0) == CountOr(zeroCounts, v, 0) + InDegree(d.edges, v);
    }
    forall v ensures v in TriggersOf(d.nodes) <==> Ready(d, {}, v) {
      TriggersOfAre(d.nodes, v);
      WaitingInitially(d.edges, |d.edges|, v);
    }
  }

  /** Everything the scheduling loop maintains. */
  ghost predicate LoopInvariant(d: WorkflowDefinition, ordered: seq<WorkflowNode>, done: set<NodeId>,
                                queue: seq<NodeId>, counts: map<NodeId, int>) {
    && (forall n :: n in ordered ==> n in d.nodes)
    && Scheduled(d, IdsOf(ordered), done)
    && QueueIsReady(d, done, queue)
    && CountsWaiting(d, done, counts)
    && TriggersOf(d.nodes) <= IdsOf(ordered) + queue
    && InReleaseOrder(d.edges, IdsOf(ordered), IdsOf(ordered) + queue)
  }

  lemma BeyondPrefixIsNew<T>(s: seq<T>, front: seq<T>, back: seq<T>)
    requires Distinct(s) && s <= front + back && |front| < |s|
    ensures back[0] !in front
  {
    forall i | 0 <= i < |front| ensures front[i] != back[0] {
      assert s[i] == front[i] && s[|front|] == back[0];
    }
  }

  lemma SkipKeepsInvariant(d: WorkflowDefinition, ordered: seq<WorkflowNode>, done: set<NodeId>, v: NodeId,
                           rest: seq<NodeId>, counts: map<NodeId, int>)
    requires UniqueNodeIds(d) && LoopInvariant(d, ordered, done, [v] + rest, counts) && v in done
    ensures LoopInvariant(d, ordered, done, rest, counts)
  {
    var ids, triggers := IdsOf(ordered), TriggersOf(d.nodes);
    forall x | x in [v] + rest && x !in done ensures x in rest {
    }
    forall x | x in rest ensures x in [v] + rest {
    }
    TriggersOfDistinct(d.nodes);
    if |triggers| > |ids| {
      BeyondPrefixIsNew(triggers, ids, [v] + rest);
    }
    SkipKeepsOrder(d.edges, ids, ids, v, rest);
  }

  lemma StepKeepsInvariant(d: WorkflowDefinition, ordered: seq<WorkflowNode>, done: set<NodeId>, node: WorkflowNode,
                           rest: seq<NodeId>, counts: map<NodeId, int>, after: map<NodeId, int>, released: seq<NodeId>)
    requires Orderable(d) && LoopInvariant(d, ordered, done, [node.id] + rest, counts) && node in d.nodes
             && node.id !in done
    requires after.Keys == counts.Keys
    requires forall v :: v in counts ==> after[v] == counts[v] - multiset(Targets(d.edges, node.id))[v]
    requires forall v :: v in released <==> v in Targets(d.edges, node.id) && v in after && after[v] == 0
    requires forall x, y :: 0 <= x < y < |released| ==>
               OccursBefore(Targets(d.edges, node.id), released[x], released[y])
    ensures LoopInvariant(d, ordered + [node], done + {node.id}, rest + released, after)
  {
    var ids := IdsOf(ordered);
    assert node.id in [node.id] + rest;
    assert CountsWaiting(d, done + {node.id}, after) && QueueIsReady(d, done + {node.id}, rest + released) by {
      CountsAfterRelease(d, done, counts, node.id, after);
      QueueAfterRelease(d, done, node.id, rest, released);
    }
    ScheduleOneMore(d, ids, done, node.id);
    assert IdsOf(ordered + [node]) == ids + [node.id];
    PrefixAfterShift(TriggersOf(d.nodes), ids, node.id, rest, released);
    OrderGoesOn(d, ids, done, node.id, rest, released);
  }

  lemma OrderGoesOn(d: WorkflowDefinition, ids: seq<NodeId>, done: set<NodeId>, u: NodeId, rest: seq<NodeId>,
                    released: seq<NodeId>)
    requires NoEdgeIntoTrigger(d) && Scheduled(d, ids, done) && QueueIsReady(d, done, [u] + rest) && u !in done
    requires InReleaseOrder(d.edges, ids, ids + ([u] + rest))
    requires forall v :: v in released ==> v in Targets(d.edges, u)
    requires forall x, y :: 0 <= x < y < |released| ==> OccursBefore(Targets(d.edges, u), released[x], released[y])
    ensures InReleaseOrder(d.edges, ids + [u], (ids + [u]) + (rest + released))
  {
    forall v | v in released ensures exists e :: e in d.edges && e.source == u && e.target == v {
      TargetsAreArcs(d.edges, u, v);
    }
    forall x, y | 0 <= x < y < |released| ensures ConsumedBefore(d.edges, u, released[x], released[y]) {
      OccurrencesAreEdges(d.edges, u, released[x], released[y]);
    }
    forall v | v in ids + ([u] + rest) ensures SourcesRun(d.edges, ids, v) {
      SourcesOfListed(d, ids, done, [u] + rest, v);
    }
    StepKeepsOrder(d.edges, ids, ids + ([u] + rest), u, released);
    assert (ids + ([u] + rest)) + released == (ids + [u]) + (rest + released);
  }

  lemma SourcesOfListed(d: WorkflowDefinition, ids: seq<NodeId>, done: set<NodeId>, queue: seq<NodeId>, v: NodeId)
    requires NoEdgeIntoTrigger(d) && Scheduled(d, ids, done) && QueueIsReady(d, done, queue) && v in ids + queue
    ensures SourcesRun(d.edges, ids, v)
  {
    forall e | e in d.edges && e.target == v ensures e.source in ids {
      assert (e.source, v) in ArcsOf(d.edges);
      if v in ids {
        var i :| 0 <= i < |ids| && ids[i] == v;
        assert e.source in ids[..i];
      } else {
        ReadyHasPredecessorsDone(d, done, v);
      }
    }
  }

  lemma PrefixAfterShift<T>(p: seq<T>, front: seq<T>, x: T, rest: seq<T>, more: seq<T>)
    requires p <= front + ([x] + rest)
    ensures p <= (front + [x]) + (rest + more)
  {
    assert (front + [x]) + (rest + more) == (front + ([x] + rest)) + more;
  }

  lemma CountsCoverTargets(d: WorkflowDefinition, done: set<NodeId>, counts: map<NodeId, int>, u: NodeId)
    requires EndpointsExist(d) && CountsWaiting(d, done, counts) && u !in done
    ensures forall v :: v in Targets(d.edges, u) ==> v in counts && counts[v] >= multiset(Targets(d.edges, u))[v]
  {
    forall v | v in Targets(d.edges, u) ensures v in counts && counts[v] >= multiset(Targets(d.edges, u))[v] {
      TargetsAreArcs(d.edges, u, v);
      ArcsHaveEndpoints(d, u, v);
      WaitingAfter(d.edges, |d.edges|, done, u, v);
    }
  }

  lemma CountsAfterRelease(d: WorkflowDefinition, done: set<NodeId>, counts: map<NodeId, int>, u: NodeId,
                           after: map<NodeId, int>)
    requires EndpointsExist(d) && CountsWaiting(d, done, counts) && u !in done
    requires after.Keys == counts.Keys
    requires forall v :: v in counts ==> after[v] == counts[v] - multiset(Targets(d.edges, u))[v]
    ensures CountsWaiting(d, done + {u}, after)
    ensures forall v :: v in Targets(d.edges, u) ==>
                          v in after && after[v] == Waiting(d.edges, |d.edges|, done + {u}, v)
  {
    forall v | v in NodeIds(d) ensures after[v] == Waiting(d.edges, |d.edges|, done + {u}, v) {
      WaitingAfter(d.edges, |d.edges|, done, u, v);
    }
    forall v | v in Targets(d.edges, u) ensures v in NodeIds(d) {
      TargetsAreArcs(d.edges, u, v);
      ArcsHaveEndpoints(d, u, v);
    }
  }

  lemma LoopEnds(d: WorkflowDefinition, ordered: seq<WorkflowNode>, done: set<NodeId>)
    requires Orderable(d) && QueueIsReady(d, done, []) && Scheduled(d, IdsOf(ordered), done)
    requires forall n :: n in ordered ==> n in d.nodes
    ensures |ordered| == |d.nodes| <==> AllReachable(d) && Acyclic(ArcsOf(d.edges))
    ensures |ordered| == |d.nodes| ==> forall n :: n in ordered <==> n in d.nodes
  {
    DistinctIffCount(IdsOf(ordered));
    assert Elements(IdsOf(ordered)) == done;
    UniqueNodeIdsIffCount(d);
    if NodeIds(d) <= done {
      assert done == NodeIds(d);
      CompleteMeansValid(d, IdsOf(ordered), done);
      forall n | n in d.nodes ensures n in ordered {
        assert n.id in IdsOf(ordered);
        var i :| 0 <= i < |ordered| && ordered[i].id == n.id;
        SameIdSameNode(d, n, ordered[i]);
      }
    } else {
      LeftOverMeansInvalid(d, done);
      ProperSubsetIsSmaller(done, NodeIds(d));
    }
  }

  /** A target whose count has reached zero occurs no more. */
  lemma NoneLeft(targets: seq<NodeId>, counts: map<NodeId, int>, j: nat)
    requires j < |targets| && targets[j] in counts && counts[targets[j]] >= multiset(targets)[targets[j]]
    requires counts[targets[j]] == multiset(targets[..j + 1])[targets[j]]
    ensures targets[j] !in targets[j + 1..]
  {
    assert targets == targets[..j + 1] + targets[j + 1..];
    assert multiset(targets[j + 1..])[targets[j]] == 0;
  }

  /** Among the first j targets: what was released occurs no more, and stands in the order of its last occurrences. */
  ghost predicate ReleasedSoFar(targets: seq<NodeId>, j: nat, released: seq<NodeId>)
    requires j <= |targets|
  {
    && (forall v :: v in released ==> v !in targets[j..])
    && forall x, y :: 0 <= x < y < |released| ==> OccursBefore(targets[..j], released[x], released[y])
  }

  lemma OccursStill(targets: seq<NodeId>, t: NodeId, v: NodeId, w: NodeId)
    requires OccursBefore(targets, v, w) && t != v
    ensures OccursBefore(targets + [t], v, w)
  {
    var more := targets + [t];
    forall i | 0 <= i < |more| && more[i] == v ensures exists k :: i < k < |more| && more[k] == w {
      assert targets[i] == v;
      var k :| i < k < |targets| && targets[k] == w;
      assert more[k] == w;
    }
  }

  lemma OccursLast(targets: seq<NodeId>, v: NodeId, w: NodeId)
    requires v != w
    ensures OccursBefore(targets + [w], v, w)
  {
    assert (targets + [w])[|targets|] == w;
  }

  lemma ReleasesNone(targets: seq<NodeId>, j: nat, released: seq<NodeId>)
    requires j < |targets| && ReleasedSoFar(targets, j, released)
    ensures ReleasedSoFar(targets, j + 1, released)
  {
    assert targets[..j + 1] == targets[..j] + [targets[j]] && targets[j] in targets[j..];
    forall x, y | 0 <= x < y < |released| ensures OccursBefore(targets[..j + 1], released[x], released[y]) {
      assert released[x] in released;
      OccursStill(targets[..j], targets[j], released[x], released[y]);
    }
  }

  lemma ReleasesNext(targets: seq<NodeId>, j: nat, released: seq<NodeId>)
    requires j < |targets| && ReleasedSoFar(targets, j, released) && targets[j] !in targets[j + 1..]
    ensures ReleasedSoFar(targets, j + 1, released + [targets[j]])
  {
    ReleasesNone(targets, j, released);
    assert targets[..j + 1] == targets[..j] + [targets[j]] && targets[j] in targets[j..];
    forall x | 0 <= x < |released| ensures OccursBefore(targets[..j + 1], released[x], targets[j]) {
      assert released[x] in released;
      OccursLast(targets[..j], released[x], targets[j]);
    }
  }

  /** Consumes one finished node's edges and enqueues the targets that wait for nothing more. */
  method ReleaseTargets(targets: seq<NodeId>, counts: map<NodeId, int>)
    returns (incomingCounts: map<NodeId, int>, released: seq<NodeId>)
    requires forall v :: v in targets ==> v in counts && counts[v] >= multiset(targets)[v]
    ensures incomingCounts.Keys == counts.Keys
    ensures forall v :: v in counts ==> incomingCounts[v] == counts[v] - multiset(targets)[v]
    ensures forall v :: v in released <==> v in targets && incomingCounts[v] == 0
    ensures forall x, y :: 0 <= x < y < |released| ==> OccursBefore(targets, released[x], released[y])
  {
    incomingCounts, released := counts, [];
    for j := 0 to |targets|
      invariant incomingCounts.Keys == counts.Keys
      invariant forall v :: v in counts ==> incomingCounts[v] == counts[v] - multiset(targets[..j])[v]
      invariant forall v :: v in released <==> v in targets[..j] && incomingCounts[v] == 0
      invariant ReleasedSoFar(targets, j, released)
    {
      var target := targets[j];
      assert targets[..j + 1] == targets[..j] + [target];
      assert multiset(targets) == multiset(targets[..j + 1]) + multiset(targets[j + 1..]) by {
        assert targets == targets[..j + 1] + targets[j + 1..];
      }
      var nextIncomingCount := CountOr(incomingCounts, target, 1) - 1;
      incomingCounts := incomingCounts[target := nextIncomingCount];
      if nextIncomingCount == 0 {
        NoneLeft(targets, counts, j);
        ReleasesNext(targets, j, released);
        released := released + [target];
      } else {
        ReleasesNone(targets, j, released);
      }
    }
    assert targets[..|targets|] == targets;
  }

  /** Appends the node at the head of the queue and releases what waited only for it. */
  method ScheduleNode(d: WorkflowDefinition, node: WorkflowNode, outgoingEdges: map<NodeId, seq<NodeId>>,
                      orderedNodes: seq<WorkflowNode>, ghost done: set<NodeId>, rest: seq<NodeId>,
                      counts: map<NodeId, int>)
    returns (ordered: seq<WorkflowNode>, queue: seq<NodeId>, incomingCounts: map<NodeId, int>)
    requires Orderable(d) && node in d.nodes && node.id !in done
    requires LoopInvariant(d, orderedNodes, done, [node.id] + rest, counts)
    requires forall u :: Adjacent(outgoingEdges, u) == Targets(d.edges, u)
    ensures LoopInvariant(d, ordered, done + {node.id}, queue, incomingCounts)
  {
    CountsCoverTargets(d, done, counts, node.id);
    var released: seq<NodeId>;
    incomingCounts, released := ReleaseTargets(Adjacent(outgoingEdges, node.id), counts);
    StepKeepsInvariant(d, orderedNodes, done, node, rest, counts, incomingCounts, released);
    ordered := orderedNodes + [node];
    queue := rest + released;
  }

  lemma HeadIsReady(d: WorkflowDefinition, ordered: seq<WorkflowNode>, done: set<NodeId>, queue: seq<NodeId>,
                    counts: map<NodeId, int>)
    requires LoopInvariant(d, ordered, done, queue, counts) && |queue| > 0
    ensures queue == [queue[0]] + queue[1..] && Ready(d, done, queue[0])
  {
    assert queue[0] in queue;
  }

  /** One round of the loop: the head of the queue is skipped if it was seen before, and scheduled otherwise. */
  method HandleHead(d: WorkflowDefinition, nodesById: map<NodeId, WorkflowNode>,
                    outgoingEdges: map<NodeId, seq<NodeId>>,
                    orderedNodes: seq<WorkflowNode>, visitedNodeIds: set<NodeId>, queue: seq<NodeId>,
                    counts: map<NodeId, int>)
    returns (ordered: seq<WorkflowNode>, visited: set<NodeId>, more: seq<NodeId>, incomingCounts: map<NodeId, int>)
    requires Orderable(d) && |queue| > 0 && LoopInvariant(d, orderedNodes, visitedNodeIds, queue, counts)
    requires forall u :: Adjacent(outgoingEdges, u) == Targets(d.edges, u)
    requires nodesById.Keys == NodeIds(d) && forall v :: v in nodesById ==>
             nodesById[v] in d.nodes && nodesById[v].id == v
    ensures LoopInvariant(d, ordered, visited, more, incomingCounts)
    ensures (visited == visitedNodeIds && |more| < |queue|) || visitedNodeIds < visited <= NodeIds(d)
  {
    var nodeId, rest := queue[0], queue[1..];
    HeadIsReady(d, orderedNodes, visitedNodeIds, queue, counts);
    if nodeId == "" || nodeId in visitedNodeIds {
      SkipKeepsInvariant(d, orderedNodes, visitedNodeIds, nodeId, rest, counts);
      return orderedNodes, visitedNodeIds, rest, counts;
    }
    if nodeId !in nodesById {
      return orderedNodes, visitedNodeIds, rest, counts;
    }
    visited := visitedNodeIds + {nodeId};
    ordered, more, incomingCounts :=
        ScheduleNode(d, nodesById[nodeId], outgoingEdges, orderedNodes, visitedNodeIds, rest, counts);
  }

  /** Orders the nodes, or fails when some node is never released. */
  method OrderWorkflowNodes(d: WorkflowDefinition) returns (r: Result<seq<WorkflowNode>, WorkerFailure>)
    requires Orderable(d)
    ensures r.Ok? <==> AllReachable(d) && Acyclic(ArcsOf(d.edges))
    ensures r.Ok? ==> IsSchedule(d, r.value) && |r.value| == |d.nodes|
    ensures r.Ok? ==> InReleaseOrder(d.edges, IdsOf(r.value), IdsOf(r.value))
    ensures r.Err? ==> r.error == WorkerFailure("workflow_definition_unordered", false)
  {
    var nodesById, zeroCounts := IndexNodes(d);
    var outgoingEdges, incomingCounts := CollectEdges(d.edges, zeroCounts);
    var queue := TriggersOf(d.nodes);
    var orderedNodes: seq<WorkflowNode> := [];
    var visitedNodeIds: set<NodeId> := {};
    LoopStarts(d, zeroCounts, incomingCounts);
    while |queue| > 0
      invariant LoopInvariant(d, orderedNodes, visitedNodeIds, queue, incomingCounts)
      decreases NodeIds(d) - visitedNodeIds, |queue|
    {
      orderedNodes, visitedNodeIds, queue, incomingCounts :=
        HandleHead(d, nodesById, outgoingEdges, orderedNodes, visitedNodeIds, queue, incomingCounts);
    }
    LoopEnds(d, orderedNodes, visitedNodeIds);
    if |orderedNodes| != |d.nodes| {
      return Err(WORKFLOW_DEFINITION_UNORDERED);
    }
    assert IdsOf(orderedNodes) + [] == IdsOf(orderedNodes);
    return Ok(orderedNodes);
  }

  // ---- The order is determined ----

  lemma ScheduleHasAllIds(d: WorkflowDefinition, order: seq<WorkflowNode>)
    requires UniqueNodeIds(d) && IsSchedule(d, order)
    ensures |order| == |d.nodes| && forall v :: v in IdsOf(order) <==> v in NodeIds(d)
  {
    var ids := IdsOf(order);
    forall v ensures v in ids <==> v in NodeIds(d) {
      if v in ids {
        var i :| 0 <= i < |ids| && ids[i] == v;
        assert order[i] in order;
      }
      if v in NodeIds(d) {
        var n :| n in d.nodes && n.id == v;
        var i :| 0 <= i < |order| && order[i] == n;
        assert ids[i] == v;
      }
    }
    DistinctIffCount(ids);
    UniqueNodeIdsIffCount(d);
    assert Elements(ids) == NodeIds(d);
  }

  lemma SourcesBefore(d: WorkflowDefinition, ids: seq<NodeId>, n: nat)
    requires PredecessorsFirst(ArcsOf(d.edges), ids) && n < |ids|
    ensures SourcesRun(d.edges, ids[..n], ids[n])
  {
    forall e | e in d.edges && e.target == ids[n] ensures e.source in ids[..n] {
      assert (e.source, ids[n]) in ArcsOf(d.edges);
    }
  }

  /** A reachable node is a trigger or has an edge into it. */
  lemma TriggerOrTarget(d: WorkflowDefinition, v: NodeId)
    requires ReachableFromTrigger(d, v)
    ensures v in TriggersOf(d.nodes) || exists e :: e in d.edges && e.target == v
  {
    var t :| t in TriggerIds(d) && Reaches(ArcsOf(d.edges), t, v);
    var k: nat :| Walk(ArcsOf(d.edges), t, v, k);
    if k > 0 {
      var u :| Walk(ArcsOf(d.edges), t, u, k - 1) && (u, v) in ArcsOf(d.edges);
    }
    TriggersOfAre(d.nodes, v);
  }

  lemma EdgeLeadsInto(d: WorkflowDefinition, ids: seq<NodeId>, n: nat, e: WorkflowEdge) returns (i: nat, p: nat)
    requires n <= |ids| && e in d.edges && e.source in ids[..n]
    ensures LeadsInto(d.edges, ids, i, p, e.target)
  {
    i :| 0 <= i < |d.edges| && d.edges[i] == e;
    p :| 0 <= p < n && ids[..n][p] == e.source;
  }

  lemma LaterElsewhere(a: seq<NodeId>, b: seq<NodeId>, n: nat) returns (j: nat)
    requires n < |a| && n < |b| && a[..n] == b[..n] && a[n] != b[n] && Distinct(a) && a[n] in b
    ensures n < j < |b| && b[j] == a[n]
  {
    assert forall k :: 0 <= k < n ==> a[..n][k] == a[k] && b[..n][k] == b[k];
    j :| 0 <= j < |b| && b[j] == a[n];
  }

  lemma PrefixAgrees(p: seq<NodeId>, a: seq<NodeId>, b: seq<NodeId>, n: nat)
    requires p <= a && p <= b && n < |a| && n < |b| && Distinct(a) && a[n] in p
    ensures b[n] == a[n]
  {
    var k :| 0 <= k < |p| && p[k] == a[n];
    assert a[k] == a[n] && b[k] == a[n];
  }

  lemma SameNext(d: WorkflowDefinition, a: seq<NodeId>, b: seq<NodeId>, n: nat)
    requires AllReachable(d) && n < |a| && n < |b| && a[..n] == b[..n] && Distinct(a) && Distinct(b)
    requires forall v :: v in a <==> v in NodeIds(d)
    requires forall v :: v in b <==> v in NodeIds(d)
    requires PredecessorsFirst(ArcsOf(d.edges), a) && PredecessorsFirst(ArcsOf(d.edges), b)
    requires TriggersOf(d.nodes) <= a && TriggersOf(d.nodes) <= b
    requires InReleaseOrder(d.edges, a, a) && InReleaseOrder(d.edges, b, b)
    ensures a[n] == b[n]
  {
    var x, y := a[n], b[n];
    assert x in a && y in b;
    if x != y {
      var j := LaterElsewhere(a, b, n);
      var i := LaterElsewhere(b, a, n);
      SourcesBefore(d, a, n);
      SourcesBefore(d, b, n);
      assert ReleasedBefore(d.edges, a, a[n], a[i]) && ReleasedBefore(d.edges, b, b[n], b[j]);
      if e :| e in d.edges && e.target == x {
        var k, p := EdgeLeadsInto(d, a, n, e);
        NotBothWays(d.edges, a, b, n, x, y, k, p);
      } else if e :| e in d.edges && e.target == y {
        var k, p := EdgeLeadsInto(d, b, n, e);
        NotBothWays(d.edges, b, a, n, y, x, k, p);
      } else {
        TriggerOrTarget(d, x);
        PrefixAgrees(TriggersOf(d.nodes), a, b, n);
      }
    }
  }

  lemma {:induction false} SamePrefix(d: WorkflowDefinition, a: seq<NodeId>, b: seq<NodeId>, n: nat)
    requires AllReachable(d) && n <= |a| == |b| && Distinct(a) && Distinct(b)
    requires forall v :: v in a <==> v in NodeIds(d)
    requires forall v :: v in b <==> v in NodeIds(d)
    requires PredecessorsFirst(ArcsOf(d.edges), a) && PredecessorsFirst(ArcsOf(d.edges), b)
    requires TriggersOf(d.nodes) <= a && TriggersOf(d.nodes) <= b
    requires InReleaseOrder(d.edges, a, a) && InReleaseOrder(d.edges, b, b)
    ensures a[..n] == b[..n]
    decreases n
  {
    if n > 0 {
      SamePrefix(d, a, b, n - 1);
      SameNext(d, a, b, n - 1);
      assert a[..n] == a[..n - 1] + [a[n - 1]] && b[..n] == b[..n - 1] + [b[n - 1]];
    }
  }

  /** There is only one schedule in release order, so the loop's result is fixed by the definition. */
  lemma OrderIsDetermined(d: WorkflowDefinition, a: seq<WorkflowNode>, b: seq<WorkflowNode>)
    requires UniqueNodeIds(d) && AllReachable(d) && IsSchedule(d, a) && IsSchedule(d, b)
    requires InReleaseOrder(d.edges, IdsOf(a), IdsOf(a)) && InReleaseOrder(d.edges, IdsOf(b), IdsOf(b))
    ensures a == b
  {
    ScheduleHasAllIds(d, a);
    ScheduleHasAllIds(d, b);
    SamePrefix(d, IdsOf(a), IdsOf(b), |a|);
    assert IdsOf(a)[..|a|] == IdsOf(a) && IdsOf(b)[..|b|] == IdsOf(b);
    forall i | 0 <= i < |a| ensures a[i] == b[i] {
      assert a[i] in a && b[i] in b && IdsOf(a)[i] == IdsOf(b)[i];
      SameIdSameNode(d, a[i], b[i]);
    }
  }

  // ---- Triggers ----

  /** u stands before v. */
  predicate StandsBefore(ids: seq<NodeId>, u: NodeId, v: NodeId) {
    exists x, y :: 0 <= x < y < |ids| && ids[x] == u && ids[y] == v
  }

  lemma StandsBeforeWithFirst(first: NodeId, ids: seq<NodeId>, u: NodeId, v: NodeId)
    requires StandsBefore(ids, u, v) || (u == first && v in ids)
    ensures StandsBefore([first] + ids, u, v)
  {
    var more := [first] + ids;
    if StandsBefore(ids, u, v) {
      var x, y :| 0 <= x < y < |ids| && ids[x] == u && ids[y] == v;
      assert more[x + 1] == u && more[y + 1] == v;
    } else {
      var y :| 0 <= y < |ids| && ids[y] == v;
      assert more[0] == u && more[y + 1] == v;
    }
  }

  lemma {:induction false} TriggersKeepOrder(nodes: seq<WorkflowNode>, i: nat, j: nat)
    requires i < j < |nodes| && nodes[i].nodeType.ManualTrigger? && nodes[j].nodeType.ManualTrigger?
    ensures StandsBefore(TriggersOf(nodes), nodes[i].id, nodes[j].id)
  {
    var rest := nodes[1..];
    if i > 0 {
      TriggersKeepOrder(rest, i - 1, j - 1);
      assert [] + TriggersOf(rest) == TriggersOf(rest);
      if nodes[0].nodeType.ManualTrigger? {
        StandsBeforeWithFirst(nodes[0].id, TriggersOf(rest), nodes[i].id, nodes[j].id);
      }
    } else {
      assert nodes[j] == rest[j - 1];
      TriggersOfAre(rest, nodes[j].id);
      StandsBeforeWithFirst(nodes[0].id, TriggersOf(rest), nodes[i].id, nodes[j].id);
    }
  }

  /** Triggers run first, in the order in which they are listed. */
  lemma TriggersLead(d: WorkflowDefinition, order: seq<WorkflowNode>, i: nat, j: nat)
    requires IsSchedule(d, order) && i < |d.nodes| && d.nodes[i].nodeType.ManualTrigger? && j < |d.nodes| && i != j
    requires UniqueNodeIds(d) && (d.nodes[j].nodeType.ManualTrigger? ==> i < j)
    ensures StandsBefore(IdsOf(order), d.nodes[i].id, d.nodes[j].id)
  {
    var ids, triggers := IdsOf(order), TriggersOf(d.nodes);
    if d.nodes[j].nodeType.ManualTrigger? {
      TriggersKeepOrder(d.nodes, i, j);
      var x, y :| 0 <= x < y < |triggers| && triggers[x] == d.nodes[i].id && triggers[y] == d.nodes[j].id;
      assert ids[x] == triggers[x] && ids[y] == triggers[y];
    } else {
      TriggersOfAre(d.nodes, d.nodes[i].id);
      var x :| 0 <= x < |triggers| && triggers[x] == d.nodes[i].id;
      assert ids[x] == triggers[x];
      ScheduleHasAllIds(d, order);
      assert d.nodes[j].id in ids;
      var y :| 0 <= y < |ids| && ids[y] == d.nodes[j].id;
      NoOtherTrigger(d, j);
      assert forall z :: 0 <= z < |triggers| ==> triggers[z] == ids[z] && triggers[z] in triggers;
    }
  }

  lemma NoOtherTrigger(d: WorkflowDefinition, j: nat)
    requires UniqueNodeIds(d) && j < |d.nodes| && !d.nodes[j].nodeType.ManualTrigger?
    ensures d.nodes[j].id !in TriggersOf(d.nodes)
  {
    TriggersOfAre(d.nodes, d.nodes[j].id);
    forall n | n in d.nodes && n.nodeType.ManualTrigger? ensures n.id != d.nodes[j].id {
      if n.id == d.nodes[j].id {
        assert d.nodes[j] in d.nodes;
        SameIdSameNode(d, n, d.nodes[j]);
      }
    }
  }
}
