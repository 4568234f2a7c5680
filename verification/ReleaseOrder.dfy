/**
 * The order in which a first-come, first-served queue releases nodes: by the
 * place of the last source to run, then by the place of the edge from it.
 */
module ReleaseOrder {
  import opened SeqFacts
  import opened WorkflowDefinitions

  /** The a-th edge leads into v from the p-th of the nodes run so far. */
  predicate LeadsInto(edges: seq<WorkflowEdge>, ids: seq<NodeId>, a: int, p: int, v: NodeId) {
    0 <= a < |edges| && 0 <= p < |ids| && edges[a].source == ids[p] && edges[a].target == v
  }

  /** Whatever edge into u was consumed, one into v was consumed later. */
  ghost predicate ReleasedBefore(edges: seq<WorkflowEdge>, ids: seq<NodeId>, u: NodeId, v: NodeId) {
    forall a, p :: LeadsInto(edges, ids, a, p, u) ==>
      exists b, q :: LeadsInto(edges, ids, b, q, v) && (p < q || (p == q && a < b))
  }

  ghost predicate InReleaseOrder(edges: seq<WorkflowEdge>, ids: seq<NodeId>, all: seq<NodeId>) {
    forall x, y :: 0 <= x < y < |all| ==> ReleasedBefore(edges, ids, all[x], all[y])
  }

  /** Every source of v has run. */
  predicate SourcesRun(edges: seq<WorkflowEdge>, ids: seq<NodeId>, v: NodeId) {
    forall e :: e in edges && e.target == v ==> e.source in ids
  }

  /** Each edge from u into the first node has one into the second node after it. */
  ghost predicate ConsumedBefore(edges: seq<WorkflowEdge>, u: NodeId, v: NodeId, w: NodeId) {
    forall a :: 0 <= a < |edges| && edges[a].source == u && edges[a].target == v ==>
      exists b :: a < b < |edges| && edges[b].source == u && edges[b].target == w
  }

  /** The nodes that u releases, in the order of its edges. */
  ghost predicate ReleasedBy(edges: seq<WorkflowEdge>, u: NodeId, released: seq<NodeId>) {
    && (forall v :: v in released ==> exists e :: e in edges && e.source == u && e.target == v)
    && (forall x, y :: 0 <= x < y < |released| ==> ConsumedBefore(edges, u, released[x], released[y]))
  }

  // ---- One more node runs ----

  lemma RunKeepsOrder(edges: seq<WorkflowEdge>, ids: seq<NodeId>, u: NodeId, v: NodeId, w: NodeId)
    requires ReleasedBefore(edges, ids, v, w) && SourcesRun(edges, ids, v) && u !in ids
    ensures ReleasedBefore(edges, ids + [u], v, w)
  {
    var more := ids + [u];
    forall a, p | LeadsInto(edges, more, a, p, v)
      ensures exists b, q :: LeadsInto(edges, more, b, q, w) && (p < q || (p == q && a < b))
    {
      assert edges[a] in edges && LeadsInto(edges, ids, a, p, v);
      var b, q :| LeadsInto(edges, ids, b, q, w) && (p < q || (p == q && a < b));
      assert LeadsInto(edges, more, b, q, w);
    }
  }

  lemma LastReleasesAfter(edges: seq<WorkflowEdge>, ids: seq<NodeId>, u: NodeId, v: NodeId, w: NodeId)
    requires SourcesRun(edges, ids, v) && u !in ids && exists e :: e in edges && e.source == u && e.target == w
    ensures ReleasedBefore(edges, ids + [u], v, w)
  {
    var more := ids + [u];
    var e :| e in edges && e.source == u && e.target == w;
    var b :| 0 <= b < |edges| && edges[b] == e;
    assert LeadsInto(edges, more, b, |ids|, w);
    forall a, p | LeadsInto(edges, more, a, p, v)
      ensures exists b, q :: LeadsInto(edges, more, b, q, w) && (p < q || (p == q && a < b))
    {
      assert edges[a] in edges;
    }
  }

  lemma TogetherReleased(edges: seq<WorkflowEdge>, ids: seq<NodeId>, u: NodeId, v: NodeId, w: NodeId)
    requires u !in ids && ConsumedBefore(edges, u, v, w) && exists e :: e in edges && e.source == u && e.target == w
    ensures ReleasedBefore(edges, ids + [u], v, w)
  {
    var more := ids + [u];
    var e :| e in edges && e.source == u && e.target == w;
    var c :| 0 <= c < |edges| && edges[c] == e;
    assert LeadsInto(edges, more, c, |ids|, w);
    forall a, p | LeadsInto(edges, more, a, p, v)
      ensures exists b, q :: LeadsInto(edges, more, b, q, w) && (p < q || (p == q && a < b))
    {
      if p == |ids| {
        var b :| a < b < |edges| && edges[b].source == u && edges[b].target == w;
        assert LeadsInto(edges, more, b, p, w);
      }
    }
  }

  /** Running the head of the queue and appending what it releases keeps the order. */
  lemma StepKeepsOrder(edges: seq<WorkflowEdge>, ids: seq<NodeId>, all: seq<NodeId>, u: NodeId, released: seq<NodeId>)
    requires InReleaseOrder(edges, ids, all) && u !in ids && ReleasedBy(edges, u, released)
    requires forall v :: v in all ==> SourcesRun(edges, ids, v)
    ensures InReleaseOrder(edges, ids + [u], all + released)
  {
    var more := all + released;
    forall x, y | 0 <= x < y < |more| ensures ReleasedBefore(edges, ids + [u], more[x], more[y]) {
      if y < |all| {
        RunKeepsOrder(edges, ids, u, all[x], all[y]);
      } else {
        assert released[y - |all|] in released;
        if x < |all| {
          LastReleasesAfter(edges, ids, u, all[x], more[y]);
        } else {
          TogetherReleased(edges, ids, u, released[x - |all|], released[y - |all|]);
        }
      }
    }
  }

  lemma SkipKeepsOrder(edges: seq<WorkflowEdge>, ids: seq<NodeId>, front: seq<NodeId>, v: NodeId, back: seq<NodeId>)
    requires InReleaseOrder(edges, ids, front + ([v] + back))
    ensures InReleaseOrder(edges, ids, front + back)
  {
    var all, less := front + ([v] + back), front + back;
    forall x, y | 0 <= x < y < |less| ensures ReleasedBefore(edges, ids, less[x], less[y]) {
      var i, j := if x < |front| then x else x + 1, if y < |front| then y else y + 1;
      assert all[i] == less[x] && all[j] == less[y];
    }
  }

  // ---- Targets and edges ----

  /** Whatever occurrence of v there is, one of w follows. */
  ghost predicate OccursBefore(targets: seq<NodeId>, v: NodeId, w: NodeId) {
    forall i :: 0 <= i < |targets| && targets[i] == v ==> exists j :: i < j < |targets| && targets[j] == w
  }

  lemma {:induction false} TargetsGrow(edges: seq<WorkflowEdge>, k: nat, m: nat, u: NodeId)
    requires k <= m <= |edges|
    ensures TargetsUpTo(edges, k, u) <= TargetsUpTo(edges, m, u)
  {
    if k < m {
      TargetsGrow(edges, k, m - 1, u);
    }
  }

  lemma {:induction false} TargetHasEdge(edges: seq<WorkflowEdge>, k: nat, u: NodeId, j: nat) returns (b: nat)
    requires k <= |edges| && j < |TargetsUpTo(edges, k, u)|
    ensures b < k && edges[b].source == u && edges[b].target == TargetsUpTo(edges, k, u)[j]
            && |TargetsUpTo(edges, b, u)| == j
  {
    if j < |TargetsUpTo(edges, k - 1, u)| {
      b := TargetHasEdge(edges, k - 1, u, j);
    } else {
      b := k - 1;
    }
  }

  /** The order of the targets is the order of the edges. */
  lemma OccurrencesAreEdges(edges: seq<WorkflowEdge>, u: NodeId, v: NodeId, w: NodeId)
    requires OccursBefore(Targets(edges, u), v, w)
    ensures ConsumedBefore(edges, u, v, w)
  {
    var targets := Targets(edges, u);
    forall a | 0 <= a < |edges| && edges[a].source == u && edges[a].target == v
      ensures exists b :: a < b < |edges| && edges[b].source == u && edges[b].target == w
    {
      var i := |TargetsUpTo(edges, a, u)|;
      TargetsGrow(edges, a + 1, |edges|, u);
      assert targets[i] == v;
      var j :| i < j < |targets| && targets[j] == w;
      var b := TargetHasEdge(edges, |edges|, u, j);
      if b <= a {
        TargetsGrow(edges, b, a, u);
      }
    }
  }

  // ---- The order is determined ----

  lemma LeadsFromCommon(edges: seq<WorkflowEdge>, a: seq<NodeId>, b: seq<NodeId>, n: nat, i: int, p: int, v: NodeId)
    requires n <= |a| && n <= |b| && a[..n] == b[..n] && Distinct(a) && SourcesRun(edges, a[..n], v)
    requires LeadsInto(edges, a, i, p, v)
    ensures p < n && LeadsInto(edges, b, i, p, v)
  {
    assert edges[i] in edges && a[p] in a[..n];
    var q :| 0 <= q < n && a[..n][q] == a[p];
    assert a[q] == a[p];
    assert a[..n][p] == b[..n][p];
  }

  /** Two nodes whose sources have all run cannot be released before each other, unless neither has a source. */
  lemma {:induction false} NotBothWays(edges: seq<WorkflowEdge>, a: seq<NodeId>, b: seq<NodeId>, n: nat, v: NodeId,
                                       w: NodeId, i: int, p: int)
    requires n <= |a| && n <= |b| && a[..n] == b[..n] && Distinct(a) && Distinct(b)
    requires SourcesRun(edges, a[..n], v) && SourcesRun(edges, a[..n], w)
    requires ReleasedBefore(edges, a, v, w) && ReleasedBefore(edges, b, w, v)
    requires LeadsInto(edges, a, i, p, v)
    ensures false
    decreases n - p, |edges| - i
  {
    LeadsFromCommon(edges, a, b, n, i, p, v);
    var j, q :| LeadsInto(edges, a, j, q, w) && (p < q || (p == q && i < j));
    LeadsFromCommon(edges, a, b, n, j, q, w);
    var k, r :| LeadsInto(edges, b, k, r, v) && (q < r || (q == r && j < k));
    LeadsFromCommon(edges, b, a, n, k, r, v);
    NotBothWays(edges, a, b, n, v, w, k, r);
  }
}
