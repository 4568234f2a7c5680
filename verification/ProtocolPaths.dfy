/** Putting steps of the execution protocol together. */
module ProtocolPaths {
  import opened ExecutionProtocol

  lemma Stay(orders: Orders, s: State)
    ensures Continues(orders, s, s)
  {
    assert IsPath(orders, [s]);
  }

  lemma PathExtended(orders: Orders, path: seq<State>, t: State)
    requires IsPath(orders, path) && Next(orders, path[|path| - 1], t)
    ensures IsPath(orders, path + [t])
  {
    forall i: nat ensures NextAt(orders, path + [t], i) {
      assert NextAt(orders, path, i);
    }
  }

  lemma Continue(orders: Orders, s: State, t: State, u: State, step: Step)
    requires Continues(orders, s, t) && NextStep(orders, t, u, step)
    ensures Continues(orders, s, u)
  {
    assert Next(orders, t, u);
    ContinueNext(orders, s, t, u);
  }

  lemma ContinueNext(orders: Orders, s: State, t: State, u: State)
    requires Continues(orders, s, t) && Next(orders, t, u)
    ensures Continues(orders, s, u)
  {
    var path :| IsPath(orders, path) && path[0] == s && path[|path| - 1] == t;
    PathExtended(orders, path, u);
    assert (path + [u])[0] == s && (path + [u])[|path|] == u;
  }

  lemma PathsJoin(orders: Orders, front: seq<State>, back: seq<State>)
    requires IsPath(orders, front) && IsPath(orders, back) && front[|front| - 1] == back[0]
    ensures IsPath(orders, front + back[1..])
  {
    forall i: nat ensures NextAt(orders, front + back[1..], i) {
      if i + 1 < |front| {
        assert NextAt(orders, front, i);
      } else {
        assert NextAt(orders, back, i + 1 - |front|);
      }
    }
  }

  lemma ContinuesTransitive(orders: Orders, s: State, t: State, u: State)
    requires Continues(orders, s, t) && Continues(orders, t, u)
    ensures Continues(orders, s, u)
  {
    var front :| IsPath(orders, front) && front[0] == s && front[|front| - 1] == t;
    var back :| IsPath(orders, back) && back[0] == t && back[|back| - 1] == u;
    PathsJoin(orders, front, back);
    var whole := front + back[1..];
    assert whole[0] == s && whole[|whole| - 1] == u;
  }

  lemma StillReachable(orders: Orders, s: State, t: State)
    requires Reachable(orders, s) && Continues(orders, s, t)
    ensures Reachable(orders, t)
  {
    var start :| Init(start) && Continues(orders, start, s);
    ContinuesTransitive(orders, start, s, t);
  }

  lemma Advance(orders: Orders, s: State, t: State, step: Step)
    requires Reachable(orders, s) && NextStep(orders, s, t, step)
    ensures Reachable(orders, t)
  {
    var start :| Init(start) && Continues(orders, start, s);
    Continue(orders, start, s, t, step);
  }

  lemma Start(orders: Orders, s: State)
    requires Init(s)
    ensures Reachable(orders, s)
  {
    Stay(orders, s);
  }
}
