/**
 * Walks, reachability and acyclicity over a finite set of arcs.
 *
 * Every graph algorithm of the model is specified against this one view, so
 * that two definitions listing the same arcs in another order are equal here.
 */
module Digraph {
  type Vertex = string
  type Arcs = set<(Vertex, Vertex)>

  /** There is a walk of exactly n arcs from u to v. */
  ghost predicate Walk(arcs: Arcs, u: Vertex, v: Vertex, n: nat)
    decreases n
  {
    if n == 0 then u == v
    else exists w :: Walk(arcs, u, w, n - 1) && (w, v) in arcs
  }

  ghost predicate Reaches(arcs: Arcs, u: Vertex, v: Vertex) {
    exists n: nat :: Walk(arcs, u, v, n)
  }

  ghost predicate OnCycle(arcs: Arcs, v: Vertex) {
    exists n: nat :: n > 0 && Walk(arcs, v, v, n)
  }

  ghost predicate Acyclic(arcs: Arcs) {
    forall v :: !OnCycle(arcs, v)
  }

  function Sources(arcs: Arcs): set<Vertex> {
    set a | a in arcs :: a.0
  }

  ghost predicate ClosedUnder(arcs: Arcs, s: set<Vertex>) {
    forall u, v :: u in s && (u, v) in arcs ==> v in s
  }

  lemma ArcIsWalk(arcs: Arcs, u: Vertex, v: Vertex)
    requires (u, v) in arcs
    ensures Walk(arcs, u, v, 1)
  {
    assert Walk(arcs, u, u, 0);
  }

  lemma {:induction false} WalkConcat(arcs: Arcs, u: Vertex, v: Vertex, w: Vertex, m: nat, n: nat)
    requires Walk(arcs, u, v, m) && Walk(arcs, v, w, n)
    ensures Walk(arcs, u, w, m + n)
    decreases n
  {
    if n > 0 {
      var x :| Walk(arcs, v, x, n - 1) && (x, w) in arcs;
      WalkConcat(arcs, u, v, x, m, n - 1);
    }
  }

  lemma ReachesConcat(arcs: Arcs, u: Vertex, v: Vertex, w: Vertex)
    requires Reaches(arcs, u, v) && Reaches(arcs, v, w)
    ensures Reaches(arcs, u, w)
  {
    var m: nat :| Walk(arcs, u, v, m);
    var n: nat :| Walk(arcs, v, w, n);
    WalkConcat(arcs, u, v, w, m, n);
  }

  lemma ReachesSelf(arcs: Arcs, u: Vertex)
    ensures Reaches(arcs, u, u)
  {
    assert Walk(arcs, u, u, 0);
  }

  lemma ReachesStep(arcs: Arcs, u: Vertex, v: Vertex, w: Vertex)
    requires Reaches(arcs, u, v) && (v, w) in arcs
    ensures Reaches(arcs, u, w)
  {
    ArcIsWalk(arcs, v, w);
    ReachesConcat(arcs, u, v, w);
  }

  lemma {:induction false} WalkMonotone(arcs: Arcs, more: Arcs, u: Vertex, v: Vertex, n: nat)
    requires arcs <= more && Walk(arcs, u, v, n)
    ensures Walk(more, u, v, n)
    decreases n
  {
    if n > 0 {
      var w :| Walk(arcs, u, w, n - 1) && (w, v) in arcs;
      WalkMonotone(arcs, more, u, w, n - 1);
    }
  }

  /** A walk of positive length can also be split after its first arc. */
  lemma {:induction false} WalkFirstArc(arcs: Arcs, u: Vertex, v: Vertex, n: nat) returns (w: Vertex)
    requires n > 0 && Walk(arcs, u, v, n)
    ensures (u, w) in arcs && Walk(arcs, w, v, n - 1)
    decreases n
  {
    var x :| Walk(arcs, u, x, n - 1) && (x, v) in arcs;
    if n == 1 {
      w := v;
    } else {
      w := WalkFirstArc(arcs, u, x, n - 1);
    }
  }

  lemma {:induction false} WalkStaysInside(arcs: Arcs, s: set<Vertex>, u: Vertex, v: Vertex, n: nat)
    requires ClosedUnder(arcs, s) && u in s && Walk(arcs, u, v, n)
    ensures v in s
    decreases n
  {
    if n > 0 {
      var w :| Walk(arcs, u, w, n - 1) && (w, v) in arcs;
      WalkStaysInside(arcs, s, u, w, n - 1);
    }
  }

  /** Along a walk inside a closed set, a labelling that grows on every arc grows overall. */
  lemma {:induction false} WalkClimbs(arcs: Arcs, rank: map<Vertex, int>, u: Vertex, v: Vertex, n: nat)
    requires ClosedUnder(arcs, rank.Keys) && u in rank && Walk(arcs, u, v, n)
    requires forall a, b :: a in rank && (a, b) in arcs ==> rank[a] < rank[b]
    ensures v in rank && rank[u] + n <= rank[v]
    decreases n
  {
    if n > 0 {
      var w :| Walk(arcs, u, w, n - 1) && (w, v) in arcs;
      WalkClimbs(arcs, rank, u, w, n - 1);
    }
  }

  lemma RankedIsOffCycle(arcs: Arcs, rank: map<Vertex, int>, v: Vertex)
    requires ClosedUnder(arcs, rank.Keys) && v in rank
    requires forall a, b :: a in rank && (a, b) in arcs ==> rank[a] < rank[b]
    ensures !OnCycle(arcs, v)
  {
    if OnCycle(arcs, v) {
      var n: nat :| n > 0 && Walk(arcs, v, v, n);
      WalkClimbs(arcs, rank, v, v, n);
    }
  }

  /** A cycle never leaves its own vertices: its first vertex is the source of an arc. */
  lemma CycleVertexIsSource(arcs: Arcs, v: Vertex)
    requires OnCycle(arcs, v)
    ensures v in Sources(arcs)
  {
    var n: nat :| n > 0 && Walk(arcs, v, v, n);
    var w := WalkFirstArc(arcs, v, v, n);
    assert (v, w).0 in Sources(arcs);
  }

  lemma RankedIsAcyclic(arcs: Arcs, rank: map<Vertex, int>)
    requires forall a, b :: (a, b) in arcs ==> a in rank && b in rank && rank[a] < rank[b]
    ensures Acyclic(arcs)
  {
    forall v ensures !OnCycle(arcs, v) {
      if OnCycle(arcs, v) {
        CycleVertexIsSource(arcs, v);
        RankedIsOffCycle(arcs, rank, v);
      }
    }
  }

  ghost predicate HasPredecessorIn(arcs: Arcs, s: set<Vertex>, v: Vertex) {
    exists u :: u in s && (u, v) in arcs
  }

  /** A non-empty finite set in which everything has a predecessor contains a cycle. */
  lemma EndlessPredecessorsCycle(arcs: Arcs, s: set<Vertex>)
    requires s != {}
    requires forall v {:trigger HasPredecessorIn(arcs, s, v)} :: v in s ==> HasPredecessorIn(arcs, s, v)
    ensures !Acyclic(arcs)
  {
    var v :| v in s;
    ChasePredecessors(arcs, s, {}, v);
  }

  lemma {:induction false} ChasePredecessors(arcs: Arcs, s: set<Vertex>, seen: set<Vertex>, v: Vertex)
    requires forall x {:trigger HasPredecessorIn(arcs, s, x)} :: x in s ==> HasPredecessorIn(arcs, s, x)
    requires v in s && seen <= s && v !in seen
    requires forall x :: x in seen ==> Reaches(arcs, v, x)
    ensures !Acyclic(arcs)
    decreases s - seen
  {
    assert HasPredecessorIn(arcs, s, v);
    var u :| u in s && (u, v) in arcs;
    ArcIsWalk(arcs, u, v);
    if u == v || u in seen {
      ReachesSelf(arcs, v);
      var n: nat :| Walk(arcs, v, u, n);
      WalkConcat(arcs, v, u, v, n, 1);
      assert OnCycle(arcs, v);
    } else {
      forall x | x in seen + {v} ensures Reaches(arcs, u, x) {
        ReachesSelf(arcs, v);
        ReachesConcat(arcs, u, v, x);
      }
      ChasePredecessors(arcs, s, seen + {v}, u);
    }
  }

  /** A cycle lies ahead of u. */
  ghost predicate LeadsToCycle(arcs: Arcs, u: Vertex) {
    exists v :: Reaches(arcs, u, v) && OnCycle(arcs, v)
  }

  lemma LeadsToCycleBack(arcs: Arcs, u: Vertex, v: Vertex)
    requires (u, v) in arcs && LeadsToCycle(arcs, v)
    ensures LeadsToCycle(arcs, u)
  {
    var w :| Reaches(arcs, v, w) && OnCycle(arcs, w);
    ArcIsWalk(arcs, u, v);
    ReachesConcat(arcs, u, v, w);
  }

  /** Whatever leads to a cycle has a successor that does. */
  lemma LeadsToCycleOnward(arcs: Arcs, u: Vertex) returns (v: Vertex)
    requires LeadsToCycle(arcs, u)
    ensures (u, v) in arcs && LeadsToCycle(arcs, v)
  {
    var w :| Reaches(arcs, u, w) && OnCycle(arcs, w);
    var n: nat :| Walk(arcs, u, w, n);
    if n > 0 {
      v := WalkFirstArc(arcs, u, w, n);
    } else {
      var m: nat :| m > 0 && Walk(arcs, w, w, m);
      v := WalkFirstArc(arcs, w, w, m);
    }
  }

  // ---- The number of strict ancestors ranks an acyclic graph ----

  ghost predicate StrictlyReaches(arcs: Arcs, u: Vertex, v: Vertex) {
    exists n: nat :: n > 0 && Walk(arcs, u, v, n)
  }

  ghost function Ancestors(arcs: Arcs, v: Vertex): set<Vertex> {
    set u | u in Sources(arcs) && StrictlyReaches(arcs, u, v)
  }

  ghost function Rank(arcs: Arcs, v: Vertex): nat {
    |Ancestors(arcs, v)|
  }

  lemma ProperSubsetIsSmaller<T>(a: set<T>, b: set<T>)
    requires a < b
    ensures |a| < |b|
  {
    assert |b| == |b - a| + |a|;
  }

  lemma RankGrows(arcs: Arcs, u: Vertex, v: Vertex)
    requires Acyclic(arcs) && (u, v) in arcs
    ensures Rank(arcs, u) < Rank(arcs, v)
  {
    ArcIsWalk(arcs, u, v);
    assert (u, v).0 in Sources(arcs);
    assert u in Ancestors(arcs, v);
    assert !OnCycle(arcs, u);
    assert u !in Ancestors(arcs, u);
    forall x | x in Ancestors(arcs, u) ensures x in Ancestors(arcs, v) {
      var n: nat :| n > 0 && Walk(arcs, x, u, n);
      WalkConcat(arcs, x, u, v, n, 1);
    }
    ProperSubsetIsSmaller(Ancestors(arcs, u), Ancestors(arcs, v));
  }

  lemma SubsetIsNoLarger<T>(a: set<T>, b: set<T>)
    requires a <= b
    ensures |a| <= |b|
  {
    assert |b| == |b - a| + |a|;
  }

  // ---- Off cycles, the number of strict descendants shrinks along arcs ----

  ghost function Descendants(arcs: Arcs, u: Vertex): set<Vertex> {
    set a | a in arcs && StrictlyReaches(arcs, u, a.1) :: a.1
  }

  ghost function Height(arcs: Arcs, u: Vertex): nat {
    |Descendants(arcs, u)|
  }

  lemma HeightShrinks(arcs: Arcs, u: Vertex, v: Vertex)
    requires !LeadsToCycle(arcs, u) && (u, v) in arcs
    ensures !LeadsToCycle(arcs, v) && Height(arcs, v) < Height(arcs, u)
  {
    if LeadsToCycle(arcs, v) {
      LeadsToCycleBack(arcs, u, v);
    }
    ArcIsWalk(arcs, u, v);
    assert (u, v).1 in Descendants(arcs, u);
    ReachesSelf(arcs, v);
    assert v !in Descendants(arcs, v);
    forall x | x in Descendants(arcs, v) ensures x in Descendants(arcs, u) {
      var n: nat :| n > 0 && Walk(arcs, v, x, n);
      WalkConcat(arcs, u, v, x, 1, n);
    }
    ProperSubsetIsSmaller(Descendants(arcs, v), Descendants(arcs, u));
  }

  // ---- Adding one arc ----

  /** Adding an arc to an acyclic graph keeps it acyclic exactly when the target does not already reach the source. */
  lemma AddArcAcyclicIff(arcs: Arcs, s: Vertex, t: Vertex)
    requires Acyclic(arcs)
    ensures Acyclic(arcs + {(s, t)}) <==> !Reaches(arcs, t, s)
  {
    var more := arcs + {(s, t)};
    if Reaches(arcs, t, s) {
      var n: nat :| Walk(arcs, t, s, n);
      WalkMonotone(arcs, more, t, s, n);
      ArcIsWalk(more, s, t);
      WalkConcat(more, s, t, s, 1, n);
      assert OnCycle(more, s);
    } else {
      forall v ensures !OnCycle(more, v) {
        if OnCycle(more, v) {
          var n: nat :| n > 0 && Walk(more, v, v, n);
          WalkAvoidsOrUses(arcs, s, t, v, v, n);
          if Walk(arcs, v, v, n) {
            assert OnCycle(arcs, v);
          } else {
            ReachesConcat(arcs, t, v, s);
          }
        }
      }
    }
  }

  /** A walk that may use the new arc either avoids it, or reaches it and comes back from it without it. */
  lemma {:induction false} WalkAvoidsOrUses(arcs: Arcs, s: Vertex, t: Vertex, u: Vertex, v: Vertex, n: nat)
    requires Walk(arcs + {(s, t)}, u, v, n)
    ensures Walk(arcs, u, v, n) || (Reaches(arcs, u, s) && Reaches(arcs, t, v))
    decreases n
  {
    if n > 0 {
      var w :| Walk(arcs + {(s, t)}, u, w, n - 1) && (w, v) in arcs + {(s, t)};
      WalkAvoidsOrUses(arcs, s, t, u, w, n - 1);
      if (w, v) in arcs {
        if Reaches(arcs, t, w) {
          ReachesStep(arcs, t, w, v);
        }
      } else {
        ReachesSelf(arcs, t);
      }
    }
  }
}
