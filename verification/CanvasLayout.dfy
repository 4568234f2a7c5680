/** The canvas places nodes by longest-path level and, within a level, by lane. */
module CanvasLayout {
  import opened Digraph
  import opened WorkflowDefinitions

  const LEVEL_WIDTH := 300
  const LANE_HEIGHT := 130

  // ---- The queue of the relaxation loop, on its own ----

  /** The arcs the loop goes on along: those into listed nodes. */
  function LiveArcs(d: WorkflowDefinition): Arcs {
    set a | a in ArcsOf(d.edges) && a.1 in NodeIds(d)
  }

  function Listed(d: WorkflowDefinition, vs: seq<NodeId>): seq<NodeId> {
    if vs == [] then []
    else (if FindNode(d.nodes, vs[0]).Some? then [vs[0]] else []) + Listed(d, vs[1..])
  }

  /** The targets that are enqueued: each edge's target, if there is such a node. */
  function LiveTargets(d: WorkflowDefinition, u: NodeId): seq<NodeId> {
    Listed(d, Targets(d.edges, u))
  }

  lemma FoundIffListed(d: WorkflowDefinition, v: NodeId)
    ensures FindNode(d.nodes, v).Some? <==> v in NodeIds(d)
  {
  }

  lemma {:induction false} ListedAre(d: WorkflowDefinition, vs: seq<NodeId>, v: NodeId)
    ensures v in Listed(d, vs) <==> v in vs && v in NodeIds(d)
  {
    if vs != [] {
      assert vs == [vs[0]] + vs[1..];
      FoundIffListed(d, vs[0]);
      ListedAre(d, vs[1..], v);
    }
  }

  lemma {:induction false} ListedOneMore(d: WorkflowDefinition, vs: seq<NodeId>, v: NodeId)
    ensures Listed(d, vs + [v]) == Listed(d, vs) + if FindNode(d.nodes, v).Some? then [v] else []
  {
    if vs == [] {
      assert vs + [v] == [v] && [v][1..] == [];
    } else {
      ListedOneMore(d, vs[1..], v);
      assert (vs + [v])[1..] == vs[1..] + [v];
    }
  }

  lemma LiveTargetsAre(d: WorkflowDefinition, u: NodeId)
    ensures forall v :: v in LiveTargets(d, u) <==> (u, v) in LiveArcs(d)
  {
    forall v ensures v in LiveTargets(d, u) <==> (u, v) in LiveArcs(d) {
      ListedAre(d, Targets(d.edges, u), v);
      TargetsAreArcs(d.edges, u, v);
    }
  }

  /** One round of the loop removes the first entry and appends its listed targets, visited before or not. */
  function NextQueue(d: WorkflowDefinition, queue: seq<NodeId>): seq<NodeId> {
    if queue == [] then [] else queue[1..] + LiveTargets(d, queue[0])
  }

  function QueueAfter(d: WorkflowDefinition, queue: seq<NodeId>, rounds: nat): seq<NodeId>
    decreases rounds
  {
    if rounds == 0 then queue else QueueAfter(d, NextQueue(d, queue), rounds - 1)
  }

  ghost predicate Drains(d: WorkflowDefinition, queue: seq<NodeId>) {
    exists rounds: nat :: QueueAfter(d, queue, rounds) == []
  }

  ghost predicate OffCycles(arcs: Arcs, vs: seq<NodeId>) {
    forall v :: v in vs ==> !LeadsToCycle(arcs, v)
  }

  /** The number of walks that start at u: how often the loop will handle something because of u. */
  ghost function WalksFrom(d: WorkflowDefinition, u: NodeId): nat
    requires !LeadsToCycle(LiveArcs(d), u)
    decreases Height(LiveArcs(d), u), |LiveTargets(d, u)| + 1
  {
    LiveTargetsAre(d, u);
    1 + WalksThrough(d, u, LiveTargets(d, u))
  }

  ghost function WalksThrough(d: WorkflowDefinition, u: NodeId, vs: seq<NodeId>): nat
    requires !LeadsToCycle(LiveArcs(d), u) && forall v :: v in vs ==> (u, v) in LiveArcs(d)
    decreases Height(LiveArcs(d), u), |vs|
  {
    if vs == [] then 0
    else
      HeightShrinks(LiveArcs(d), u, vs[0]);
      WalksFrom(d, vs[0]) + WalksThrough(d, u, vs[1..])
  }

  /** The work left in a queue. */
  ghost function Work(d: WorkflowDefinition, queue: seq<NodeId>): nat
    requires OffCycles(LiveArcs(d), queue)
  {
    if queue == [] then 0 else WalksFrom(d, queue[0]) + Work(d, queue[1..])
  }

  lemma {:induction false} WorkAppend(d: WorkflowDefinition, a: seq<NodeId>, b: seq<NodeId>)
    requires OffCycles(LiveArcs(d), a) && OffCycles(LiveArcs(d), b)
    ensures OffCycles(LiveArcs(d), a + b) && Work(d, a + b) == Work(d, a) + Work(d, b)
  {
    if a == [] {
      assert a + b == b;
    } else {
      WorkAppend(d, a[1..], b);
      assert (a + b)[1..] == a[1..] + b;
    }
  }

  lemma {:induction false} WorkOfTargets(d: WorkflowDefinition, u: NodeId, vs: seq<NodeId>)
    requires !LeadsToCycle(LiveArcs(d), u) && forall v :: v in vs ==> (u, v) in LiveArcs(d)
    ensures OffCycles(LiveArcs(d), vs) && Work(d, vs) == WalksThrough(d, u, vs)
  {
    if vs != [] {
      HeightShrinks(LiveArcs(d), u, vs[0]);
      WorkOfTargets(d, u, vs[1..]);
      assert vs == [vs[0]] + vs[1..];
    }
  }

  /** Every round lessens the work by exactly one. */
  lemma RoundLessensWork(d: WorkflowDefinition, queue: seq<NodeId>)
    requires OffCycles(LiveArcs(d), queue) && queue != []
    ensures OffCycles(LiveArcs(d), NextQueue(d, queue))
    ensures Work(d, NextQueue(d, queue)) == Work(d, queue) - 1
  {
    var u := queue[0];
    assert queue == [u] + queue[1..];
    LiveTargetsAre(d, u);
    WorkOfTargets(d, u, LiveTargets(d, u));
    WorkAppend(d, queue[1..], LiveTargets(d, u));
  }

  lemma {:induction false} DrainsInWorkRounds(d: WorkflowDefinition, queue: seq<NodeId>)
    requires OffCycles(LiveArcs(d), queue)
    ensures QueueAfter(d, queue, Work(d, queue)) == []
    decreases Work(d, queue)
  {
    if queue != [] {
      RoundLessensWork(d, queue);
      DrainsInWorkRounds(d, NextQueue(d, queue));
    }
  }

  /** A round that handles an entry with a cycle ahead enqueues another. */
  lemma CycleStaysAhead(d: WorkflowDefinition, queue: seq<NodeId>, v: NodeId) returns (w: NodeId)
    requires v in queue && LeadsToCycle(LiveArcs(d), v)
    ensures w in NextQueue(d, queue) && LeadsToCycle(LiveArcs(d), w)
  {
    assert queue == [queue[0]] + queue[1..];
    if v in queue[1..] {
      w := v;
    } else {
      w := LeadsToCycleOnward(LiveArcs(d), v);
      LiveTargetsAre(d, v);
    }
  }

  lemma {:induction false} CycleNeverDrains(d: WorkflowDefinition, queue: seq<NodeId>, v: NodeId, rounds: nat)
    requires v in queue && LeadsToCycle(LiveArcs(d), v)
    ensures QueueAfter(d, queue, rounds) != []
    decreases rounds
  {
    if rounds > 0 {
      var w := CycleStaysAhead(d, queue, v);
      CycleNeverDrains(d, NextQueue(d, queue), w, rounds - 1);
    }
  }

  /** The loop comes to an end exactly when no cycle among listed nodes lies ahead of what it starts from. */
  lemma DrainsIffOffCycles(d: WorkflowDefinition, queue: seq<NodeId>)
    ensures Drains(d, queue) <==> OffCycles(LiveArcs(d), queue)
  {
    if OffCycles(LiveArcs(d), queue) {
      DrainsInWorkRounds(d, queue);
    } else {
      var v :| v in queue && LeadsToCycle(LiveArcs(d), v);
      forall rounds: nat ensures QueueAfter(d, queue, rounds) != [] {
        CycleNeverDrains(d, queue, v, rounds);
      }
    }
  }

  /** A trigger in front of two nodes that point at each other. */
  function Loop(nodes: seq<WorkflowNode>): WorkflowDefinition {
    WorkflowDefinition(nodes,
                       [WorkflowEdge("e1", "t", "a"), WorkflowEdge("e2", "a", "b"), WorkflowEdge("e3", "b", "a")])
  }

  /** Laying out such a definition never ends. */
  lemma LoopDiverges(t: WorkflowNode, a: WorkflowNode, b: WorkflowNode)
    requires t.id == "t" && a.id == "a" && b.id == "b"
    ensures "t" in Starts(Loop([t, a, b])) && !Drains(Loop([t, a, b]), ["t"])
  {
    var d := Loop([t, a, b]);
    LoopArcs(d);
    assert d.nodes[0] == t && d.nodes[1] == a && d.nodes[2] == b;
    assert {("t", "a"), ("a", "b"), ("b", "a")} <= LiveArcs(d);
    TwoCycle(LiveArcs(d), "t", "a", "b");
    DrainsIffOffCycles(d, ["t"]);
    InDegreeZeroIff(d.edges, "t");
  }

  lemma TwoCycle(arcs: Arcs, t: NodeId, a: NodeId, b: NodeId)
    requires {(t, a), (a, b), (b, a)} <= arcs
    ensures LeadsToCycle(arcs, t)
  {
    ArcIsWalk(arcs, a, b);
    ArcIsWalk(arcs, b, a);
    WalkConcat(arcs, a, b, a, 1, 1);
    ArcIsWalk(arcs, t, a);
    assert OnCycle(arcs, a) && Reaches(arcs, t, a);
  }

  /** When the nodes of the cycle are missing, it ends. */
  lemma MissingLoopDrains(t: WorkflowNode)
    requires t.id == "t"
    ensures Drains(Loop([t]), ["t"])
  {
    var d := Loop([t]);
    LoopArcs(d);
    assert LiveArcs(d) == {};
    assert forall v, n: nat :: n > 0 ==> !Walk(LiveArcs(d), v, v, n);
    DrainsIffOffCycles(d, ["t"]);
  }

  lemma LoopArcs(d: WorkflowDefinition)
    requires d.edges == Loop(d.nodes).edges
    ensures ArcsOf(d.edges) == {("t", "a"), ("a", "b"), ("b", "a")}
  {
    assert forall e :: e in d.edges <==> e == d.edges[0] || e == d.edges[1] || e == d.edges[2];
  }

  // ---- The relaxation loop ----

  function Starts(d: WorkflowDefinition): set<NodeId> {
    set v | v in NodeIds(d) && InDegree(d.edges, v) == 0
  }

  /** The arcs levels are passed along: those out of listed nodes, wherever they lead. */
  function FollowedArcs(d: WorkflowDefinition): Arcs {
    set a | a in ArcsOf(d.edges) && a.0 in NodeIds(d)
  }

  ghost predicate WalkFrom(arcs: Arcs, starts: set<NodeId>, v: NodeId, n: int) {
    n >= 0 && exists s :: s in starts && Walk(arcs, s, v, n)
  }

  /** n is the length of a longest walk from a start to v. */
  ghost predicate LongestFrom(arcs: Arcs, starts: set<NodeId>, v: NodeId, n: int) {
    && WalkFrom(arcs, starts, v, n)
    && forall m {:trigger WalkFrom(arcs, starts, v, m)} :: WalkFrom(arcs, starts, v, m) ==> m <= n
  }

  /** Every level is the length of a walk from a start. */
  ghost predicate LevelsAreWalks(arcs: Arcs, starts: set<NodeId>, levels: map<NodeId, int>) {
    forall v :: v in levels ==> WalkFrom(arcs, starts, v, levels[v])
  }

  /** A node not in the queue is below all its targets. */
  ghost predicate Relaxed(arcs: Arcs, levels: map<NodeId, int>, queue: seq<NodeId>) {
    && (forall v :: v in queue ==> v in levels)
    && forall u, v :: u in levels && u !in queue && (u, v) in arcs ==> v in levels && levels[u] < levels[v]
  }

  /** The levels after handling a node whose targets are given. */
  ghost predicate Raised(levels: map<NodeId, int>, targets: seq<NodeId>, level: int, after: map<NodeId, int>) {
    && (forall v :: v in after <==> v in levels || v in targets)
    && (forall v :: v in levels && v !in targets ==> after[v] == levels[v])
    && (forall v :: v in targets ==> after[v] == if v in levels && levels[v] >= level then levels[v] else level)
  }

  lemma WalkFromOnward(arcs: Arcs, starts: set<NodeId>, u: NodeId, n: int, v: NodeId)
    requires WalkFrom(arcs, starts, u, n) && (u, v) in arcs
    ensures WalkFrom(arcs, starts, v, n + 1)
  {
    var s :| s in starts && Walk(arcs, s, u, n);
    assert Walk(arcs, s, v, n + 1);
  }

  lemma RoundKeepsWalks(arcs: Arcs, starts: set<NodeId>, levels: map<NodeId, int>, u: NodeId, targets: seq<NodeId>,
                        after: map<NodeId, int>)
    requires LevelsAreWalks(arcs, starts, levels) && u in levels && Raised(levels, targets, levels[u] + 1, after)
    requires forall v :: v in targets ==> (u, v) in arcs
    ensures LevelsAreWalks(arcs, starts, after)
  {
    forall v | v in after ensures WalkFrom(arcs, starts, v, after[v]) {
      if v in targets {
        WalkFromOnward(arcs, starts, u, levels[u], v);
      }
    }
  }

  /** Targets that are not enqueued have nothing to pass on. */
  lemma RoundKeepsRelaxed(arcs: Arcs, levels: map<NodeId, int>, u: NodeId, rest: seq<NodeId>, targets: seq<NodeId>,
                          enqueued: seq<NodeId>, after: map<NodeId, int>)
    requires Relaxed(arcs, levels, [u] + rest) && u in levels && Raised(levels, targets, levels[u] + 1, after)
    requires u !in targets && forall v :: v in targets <==> (u, v) in arcs
    requires forall v :: v in enqueued ==> v in targets
    requires forall v, w :: v in targets && v !in enqueued ==> (v, w) !in arcs
    ensures Relaxed(arcs, after, rest + enqueued)
  {
    assert forall v :: v in [u] + rest <==> v == u || v in rest;
    assert forall v :: v in rest + enqueued <==> v in rest || v in enqueued;
    forall x, v | x in after && x !in rest + enqueued && (x, v) in arcs ensures v in after && after[x] < after[v] {
      if x != u {
        assert x !in [u] + rest;
      }
    }
  }

  lemma OffCycleIsNoSelfTarget(arcs: Arcs, u: NodeId)
    requires !LeadsToCycle(arcs, u)
    ensures (u, u) !in arcs
  {
    if (u, u) in arcs {
      ArcIsWalk(arcs, u, u);
      ReachesSelf(arcs, u);
    }
  }

  /** Raises the targets' levels and enqueues the targets that exist. */
  method RelaxTargets(d: WorkflowDefinition, targets: seq<NodeId>, nextLevel: int, levels0: map<NodeId, int>,
                      queue0: seq<NodeId>)
    returns (levels: map<NodeId, int>, queue: seq<NodeId>)
    requires nextLevel > 0 && forall v :: v in levels0 ==> levels0[v] >= 0
    ensures Raised(levels0, targets, nextLevel, levels) && queue == queue0 + Listed(d, targets)
  {
    levels, queue := levels0, queue0;
    for i := 0 to |targets|
      invariant Raised(levels0, targets[..i], nextLevel, levels) && queue == queue0 + Listed(d, targets[..i])
    {
      var target := targets[i];
      assert targets[..i + 1] == targets[..i] + [target];
      ListedOneMore(d, targets[..i], target);
      var current := if target in levels then levels[target] else 0;
      levels := levels[target := if current >= nextLevel then current else nextLevel];
      if FindNode(d.nodes, target).Some? {
        queue := queue + [target];
      }
    }
    assert targets[..|targets|] == targets;
  }

  /** The nodes with no incoming edges, at level 0. */
  method StartNodes(d: WorkflowDefinition, incomingCount: map<NodeId, int>)
    returns (queue: seq<NodeId>, levels: map<NodeId, int>)
    requires forall v :: CountOr(incomingCount, v, 0) == InDegree(d.edges, v)
    ensures forall v :: v in queue <==> v in Starts(d)
    ensures forall v :: v in levels <==> v in queue
    ensures forall v :: v in levels ==> levels[v] == 0
  {
    queue, levels := [], map[];
    for i := 0 to |d.nodes|
      invariant forall v :: v in queue <==> (exists j :: 0 <= j < i && d.nodes[j].id == v) && InDegree(d.edges, v) == 0
      invariant forall v :: v in levels <==> v in queue
      invariant forall v :: v in levels ==> levels[v] == 0
    {
      if CountOr(incomingCount, d.nodes[i].id, 0) == 0 {
        queue := queue + [d.nodes[i].id];
        levels := levels[d.nodes[i].id := 0];
      }
    }
    forall v ensures v in NodeIds(d) <==> exists j :: 0 <= j < |d.nodes| && d.nodes[j].id == v {
      if v in NodeIds(d) {
        var n :| n in d.nodes && n.id == v;
        var j :| 0 <= j < |d.nodes| && d.nodes[j] == n;
      }
    }
  }

  lemma LevelsDominateWalks(arcs: Arcs, starts: set<NodeId>, levels: map<NodeId, int>, v: NodeId, n: int)
    requires LevelsAreWalks(arcs, starts, levels) && starts <= levels.Keys
    requires Relaxed(arcs, levels, []) && WalkFrom(arcs, starts, v, n)
    ensures v in levels && n <= levels[v]
  {
    var s :| s in starts && Walk(arcs, s, v, n);
    assert WalkFrom(arcs, starts, s, levels[s]);
    WalkClimbs(arcs, levels, s, v, n);
  }

  lemma FinalLevelsAreLongest(arcs: Arcs, starts: set<NodeId>, levels: map<NodeId, int>)
    requires LevelsAreWalks(arcs, starts, levels) && starts <= levels.Keys && Relaxed(arcs, levels, [])
    ensures forall v :: v in levels ==> LongestFrom(arcs, starts, v, levels[v])
    ensures forall v, n :: WalkFrom(arcs, starts, v, n) ==> v in levels
  {
    forall v, n | WalkFrom(arcs, starts, v, n) ensures v in levels && n <= levels[v] {
      LevelsDominateWalks(arcs, starts, levels, v, n);
    }
  }

  /** v lies one level below the source of the edge. */
  predicate RestsOn(d: WorkflowDefinition, levels: map<NodeId, int>, v: NodeId, e: WorkflowEdge) {
    e.target == v && e.source in NodeIds(d) && e.source in levels && v in levels && levels[v] == levels[e.source] + 1
  }

  /**
   * Longest walks, said edge by edge: nodes without incoming edges are at level 0, every
   * other one is one more than its highest source.
   */
  ghost predicate LevelsFollowEdges(d: WorkflowDefinition, levels: map<NodeId, int>) {
    && (forall v :: v in NodeIds(d) && (forall e :: e in d.edges ==> e.target != v) ==> v in levels && levels[v] == 0)
    && (forall e :: e in d.edges && e.source in NodeIds(d) && e.source in levels ==>
          e.target in levels && levels[e.source] < levels[e.target])
    && forall v :: v in levels ==>
         if levels[v] == 0 then v in NodeIds(d) && forall e :: e in d.edges ==> e.target != v
         else exists e :: e in d.edges && RestsOn(d, levels, v, e)
  }

  lemma StartsHaveNoEdge(d: WorkflowDefinition, v: NodeId)
    ensures v in Starts(d) <==> v in NodeIds(d) && forall e :: e in d.edges ==> e.target != v
  {
    InDegreeZeroIff(d.edges, v);
    if e :| e in d.edges && e.target == v {
      assert (e.source, v) in ArcsOf(d.edges);
    }
  }

  lemma LongestRestsOn(d: WorkflowDefinition, levels: map<NodeId, int>, v: NodeId) returns (e: WorkflowEdge)
    requires forall u :: u in levels ==> LongestFrom(FollowedArcs(d), Starts(d), u, levels[u])
    requires forall u, n :: WalkFrom(FollowedArcs(d), Starts(d), u, n) ==> u in levels
    requires forall u, w :: u in levels && (u, w) in FollowedArcs(d) ==> w in levels && levels[u] < levels[w]
    requires v in levels && levels[v] != 0
    ensures e in d.edges && RestsOn(d, levels, v, e)
  {
    var arcs := FollowedArcs(d);
    assert WalkFrom(arcs, Starts(d), v, levels[v]);
    var s :| s in Starts(d) && Walk(arcs, s, v, levels[v]);
    var u :| Walk(arcs, s, u, levels[v] - 1) && (u, v) in arcs;
    assert WalkFrom(arcs, Starts(d), u, levels[v] - 1);
    e :| e in d.edges && (e.source, e.target) == (u, v);
  }

  lemma LongestFollowsEdges(d: WorkflowDefinition, levels: map<NodeId, int>)
    requires forall v :: v in levels ==> LongestFrom(FollowedArcs(d), Starts(d), v, levels[v])
    requires forall v, n :: WalkFrom(FollowedArcs(d), Starts(d), v, n) ==> v in levels
    requires forall u, v :: u in levels && (u, v) in FollowedArcs(d) ==> v in levels && levels[u] < levels[v]
    ensures LevelsFollowEdges(d, levels)
  {
    forall v | v in NodeIds(d) && (forall e :: e in d.edges ==> e.target != v) ensures v in levels && levels[v] == 0 {
      StartsHaveNoEdge(d, v);
      assert Walk(FollowedArcs(d), v, v, 0) && WalkFrom(FollowedArcs(d), Starts(d), v, 0);
      if levels[v] != 0 {
        var e := LongestRestsOn(d, levels, v);
      }
    }
    forall e | e in d.edges && e.source in NodeIds(d) && e.source in levels
      ensures e.target in levels && levels[e.source] < levels[e.target]
    {
      assert (e.source, e.target) in FollowedArcs(d);
    }
    forall v | v in levels
      ensures if levels[v] == 0 then v in NodeIds(d) && forall e :: e in d.edges ==> e.target != v
              else exists e :: e in d.edges && RestsOn(d, levels, v, e)
    {
      if levels[v] == 0 {
        assert WalkFrom(FollowedArcs(d), Starts(d), v, 0);
        StartsHaveNoEdge(d, v);
      } else {
        var e := LongestRestsOn(d, levels, v);
      }
    }
  }

  /**
   * The level of each node that can be reached from a start.  The loop ends
   * because no cycle lies ahead of a start; DrainsIffOffCycles says that it
   * would not end otherwise.
   */
  method GetNodeLevels(d: WorkflowDefinition) returns (levels: map<NodeId, int>)
    requires forall s :: s in Starts(d) ==> !LeadsToCycle(LiveArcs(d), s)
    ensures forall v :: v in levels ==> LongestFrom(FollowedArcs(d), Starts(d), v, levels[v])
    ensures forall v, n :: WalkFrom(FollowedArcs(d), Starts(d), v, n) ==> v in levels
    ensures forall u, v :: u in levels && (u, v) in FollowedArcs(d) ==> v in levels && levels[u] < levels[v]
    ensures LevelsFollowEdges(d, levels)
  {
    ghost var arcs, starts := FollowedArcs(d), Starts(d);
    var outgoing, incomingCount := CollectEdges(d.edges, map[]);
    var queue: seq<NodeId>;
    queue, levels := StartNodes(d, incomingCount);
    ZeroLevelsAreWalks(arcs, starts, levels);
    while |queue| > 0
      invariant starts <= levels.Keys && LevelsAreWalks(arcs, starts, levels) && Relaxed(arcs, levels, queue)
      invariant OffCycles(LiveArcs(d), queue) && forall v :: v in queue ==> v in NodeIds(d)
      decreases Work(d, queue)
    {
      levels, queue := Round(d, outgoing, levels, queue);
    }
    FinalLevelsAreLongest(arcs, starts, levels);
    LongestFollowsEdges(d, levels);
  }

  /** One round of the loop. */
  method Round(d: WorkflowDefinition, outgoing: map<NodeId, seq<NodeId>>, levels: map<NodeId, int>, queue: seq<NodeId>)
    returns (after: map<NodeId, int>, more: seq<NodeId>)
    requires queue != [] && OffCycles(LiveArcs(d), queue) && forall v :: v in queue ==> v in NodeIds(d)
    requires forall u :: Adjacent(outgoing, u) == Targets(d.edges, u)
    requires LevelsAreWalks(FollowedArcs(d), Starts(d), levels) && Relaxed(FollowedArcs(d), levels, queue)
    ensures more == NextQueue(d, queue) && OffCycles(LiveArcs(d), more) && forall v :: v in more ==> v in NodeIds(d)
    ensures Work(d, more) == Work(d, queue) - 1
    ensures levels.Keys <= after.Keys
    ensures LevelsAreWalks(FollowedArcs(d), Starts(d), after) && Relaxed(FollowedArcs(d), after, more)
  {
    var nodeId, rest := queue[0], queue[1..];
    assert queue == [nodeId] + rest;
    RoundLessensWork(d, queue);
    var targets := Adjacent(outgoing, nodeId);
    LevelsAreLengths(FollowedArcs(d), Starts(d), levels);
    TargetsOfListed(d, nodeId);
    after, more := RelaxTargets(d, targets, levels[nodeId] + 1, levels, rest);
    RoundKeepsWalks(FollowedArcs(d), Starts(d), levels, nodeId, targets, after);
    RoundKeepsRelaxed(FollowedArcs(d), levels, nodeId, rest, targets, LiveTargets(d, nodeId), after);
  }

  /** A listed node off cycles: its targets are its followed arcs, and only listed ones go on. */
  lemma TargetsOfListed(d: WorkflowDefinition, u: NodeId)
    requires u in NodeIds(d) && !LeadsToCycle(LiveArcs(d), u)
    ensures u !in Targets(d.edges, u) && forall v :: v in Targets(d.edges, u) <==> (u, v) in FollowedArcs(d)
    ensures forall v :: v in LiveTargets(d, u) <==> v in Targets(d.edges, u) && v in NodeIds(d)
  {
    OffCycleIsNoSelfTarget(LiveArcs(d), u);
    forall v ensures v in Targets(d.edges, u) <==> (u, v) in FollowedArcs(d) {
      TargetsAreArcs(d.edges, u, v);
    }
    forall v ensures v in LiveTargets(d, u) <==> v in Targets(d.edges, u) && v in NodeIds(d) {
      ListedAre(d, Targets(d.edges, u), v);
    }
  }

  lemma ZeroLevelsAreWalks(arcs: Arcs, starts: set<NodeId>, levels: map<NodeId, int>)
    requires levels.Keys == starts && forall v :: v in levels ==> levels[v] == 0
    ensures LevelsAreWalks(arcs, starts, levels)
  {
    forall v | v in levels ensures WalkFrom(arcs, starts, v, 0) {
      assert Walk(arcs, v, v, 0);
    }
  }

  lemma LevelsAreLengths(arcs: Arcs, starts: set<NodeId>, levels: map<NodeId, int>)
    requires LevelsAreWalks(arcs, starts, levels)
    ensures forall v :: v in levels ==> levels[v] >= 0
  {
    forall v | v in levels ensures levels[v] >= 0 {
      assert WalkFrom(arcs, starts, v, levels[v]);
    }
  }

  /** When all endpoints exist, every arc is followed and gone on along. */
  lemma EveryArcCounts(d: WorkflowDefinition)
    requires EndpointsExist(d)
    ensures LiveArcs(d) == ArcsOf(d.edges) && FollowedArcs(d) == ArcsOf(d.edges)
  {
    forall a | a in ArcsOf(d.edges) ensures a.0 in NodeIds(d) && a.1 in NodeIds(d) {
      ArcsHaveEndpoints(d, a.0, a.1);
    }
  }

  /** An accepted definition has no cycle to run into, and every node of it gets a level. */
  lemma AcceptedNodesAreLevelled(d: WorkflowDefinition, v: NodeId)
    requires Accepted(d) && v in NodeIds(d)
    ensures LiveArcs(d) == ArcsOf(d.edges) && FollowedArcs(d) == ArcsOf(d.edges)
    ensures !LeadsToCycle(LiveArcs(d), v) && exists n :: WalkFrom(FollowedArcs(d), Starts(d), v, n)
  {
    var arcs := ArcsOf(d.edges);
    EveryArcCounts(d);
    assert forall w :: Reaches(arcs, v, w) ==> !OnCycle(arcs, w);
    var t :| t in TriggerIds(d) && Reaches(arcs, t, v);
    var n: nat :| Walk(arcs, t, v, n);
    TriggerIsStart(d, t);
    assert WalkFrom(arcs, Starts(d), v, n);
  }

  lemma TriggerIsStart(d: WorkflowDefinition, t: NodeId)
    requires NoEdgeIntoTrigger(d) && t in TriggerIds(d)
    ensures t in Starts(d)
  {
    InDegreeZeroIff(d.edges, t);
    forall e | e in d.edges ensures e.target != t {
    }
  }

  // ---- Lanes ----

  /** The column of the i-th node: its level, or its place in the list if it has none. */
  function ColumnOf(d: WorkflowDefinition, levels: map<NodeId, int>, i: nat): int
    requires i < |d.nodes|
  {
    if d.nodes[i].id in levels then levels[d.nodes[i].id] else i
  }

  /** The nodes listed before n that share a column. */
  function SharingColumn(d: WorkflowDefinition, levels: map<NodeId, int>, n: nat, column: int): set<nat>
    requires n <= |d.nodes|
  {
    set j: nat | j < n && ColumnOf(d, levels, j) == column
  }

  lemma OneMoreSharing(d: WorkflowDefinition, levels: map<NodeId, int>, n: nat, column: int)
    requires n < |d.nodes|
    ensures |SharingColumn(d, levels, n + 1, column)|
         == |SharingColumn(d, levels, n, column)| + if ColumnOf(d, levels, n) == column then 1 else 0
  {
    var now, before := SharingColumn(d, levels, n + 1, column), SharingColumn(d, levels, n, column);
    assert now == if ColumnOf(d, levels, n) == column then before + {n} else before;
  }

  /** Each column's next lane counts the nodes already in it. */
  ghost predicate LanesCount(d: WorkflowDefinition, levels: map<NodeId, int>, n: nat, lanes: map<int, int>)
    requires n <= |d.nodes|
  {
    forall column :: LaneOr(lanes, column) == |SharingColumn(d, levels, n, column)|
  }

  function LaneOr(lanes: map<int, int>, column: int): int {
    if column in lanes then lanes[column] else 0
  }

  lemma LanesGoOn(d: WorkflowDefinition, levels: map<NodeId, int>, n: nat, lanes: map<int, int>)
    requires n < |d.nodes| && LanesCount(d, levels, n, lanes)
    ensures var column := ColumnOf(d, levels, n);
            LanesCount(d, levels, n + 1, lanes[column := LaneOr(lanes, column) + 1])
  {
    var column := ColumnOf(d, levels, n);
    var after := lanes[column := LaneOr(lanes, column) + 1];
    forall other ensures LaneOr(after, other) == |SharingColumn(d, levels, n + 1, other)| {
      OneMoreSharing(d, levels, n, other);
      assert LaneOr(lanes, other) == |SharingColumn(d, levels, n, other)|;
    }
  }

  /** A later node of the same column finds more nodes before it. */
  lemma LaterIsLower(d: WorkflowDefinition, levels: map<NodeId, int>, i: nat, j: nat)
    requires i < j < |d.nodes| && ColumnOf(d, levels, i) == ColumnOf(d, levels, j)
    ensures var column := ColumnOf(d, levels, i);
            |SharingColumn(d, levels, i, column)| < |SharingColumn(d, levels, j, column)|
  {
    var column := ColumnOf(d, levels, i);
    var earlier, later := SharingColumn(d, levels, i, column), SharingColumn(d, levels, j, column);
    assert earlier <= later && i in later && i !in earlier;
    ProperSubsetIsSmaller(earlier, later);
  }

  /** A node's own position, or else its place in the column. */
  function PlaceOf(d: WorkflowDefinition, levels: map<NodeId, int>, i: nat): Position
    requires i < |d.nodes|
  {
    if d.nodes[i].position.Some? then d.nodes[i].position.value
    else
      var column := ColumnOf(d, levels, i);
      Position((column * LEVEL_WIDTH) as real, (|SharingColumn(d, levels, i, column)| * LANE_HEIGHT) as real)
  }

  lemma PlacesDiffer(d: WorkflowDefinition, levels: map<NodeId, int>, i: nat, j: nat)
    requires i < j < |d.nodes| && d.nodes[i].position.None? && d.nodes[j].position.None?
    ensures PlaceOf(d, levels, i) != PlaceOf(d, levels, j)
  {
    if ColumnOf(d, levels, i) == ColumnOf(d, levels, j) {
      LaterIsLower(d, levels, i, j);
    }
  }

  /** Places nodes without a position of their own in the next free lane of their column. */
  method PlaceNodes(d: WorkflowDefinition, levels: map<NodeId, int>) returns (placed: seq<Position>)
    ensures |placed| == |d.nodes|
    ensures forall i :: 0 <= i < |placed| && d.nodes[i].position.Some? ==> placed[i] == d.nodes[i].position.value
    ensures forall i :: 0 <= i < |placed| && d.nodes[i].position.None? && d.nodes[i].id in levels ==>
                          placed[i].x == (levels[d.nodes[i].id] * LEVEL_WIDTH) as real
    ensures forall i :: 0 <= i < |placed| && d.nodes[i].position.None? ==>
              var column := ColumnOf(d, levels, i);
              placed[i] == Position((300 * column) as real, (130 * |SharingColumn(d, levels, i, column)|) as real)
    ensures forall i, j :: 0 <= i < j < |placed| && d.nodes[i].position.None? && d.nodes[j].position.None? ==>
                             placed[i] != placed[j]
  {
    placed := [];
    var lanes: map<int, int> := map[];
    for i := 0 to |d.nodes|
      invariant |placed| == i && LanesCount(d, levels, i, lanes)
      invariant forall k :: 0 <= k < i ==> placed[k] == PlaceOf(d, levels, k)
    {
      var node := d.nodes[i];
      var level := if node.id in levels then levels[node.id] else i;
      var lane := if level in lanes then lanes[level] else 0;
      LanesGoOn(d, levels, i, lanes);
      assert LaneOr(lanes, level) == |SharingColumn(d, levels, i, level)|;
      lanes := lanes[level := lane + 1];
      placed := placed + [if node.position.Some? then node.position.value
                          else Position((level * LEVEL_WIDTH) as real, (lane * LANE_HEIGHT) as real)];
    }
    forall i, j | 0 <= i < j < |placed| && d.nodes[i].position.None? && d.nodes[j].position.None?
      ensures placed[i] != placed[j]
    {
      PlacesDiffer(d, levels, i, j);
    }
  }
}
