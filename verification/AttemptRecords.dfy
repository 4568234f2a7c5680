/**
 * What an attempt leaves in the node rows, said with the edges, the nodes'
 * behaviour and the outcomes of the database and the channel alone.
 */
module AttemptRecords {
  import opened Wrappers
  import opened Digraph
  import opened WorkflowDefinitions
  import opened NodeOrder
  import opened JsonRecords
  import opened WorkerErrors
  import opened DagSemantics
  import opened Interpreter

  // ---- Inputs ----

  predicate Feeds(d: WorkflowDefinition, u: NodeId, v: NodeId) {
    exists e :: e in d.edges && e.source == u && e.target == v
  }

  predicate OnlyFeeds(d: WorkflowDefinition, u: NodeId, v: NodeId) {
    forall e :: e in d.edges && e.target == v ==> e.source == u
  }

  predicate HasOutput(rows: map<NodeId, NodeRow>, u: NodeId, output: Record) {
    u in rows && rows[u].output == Some(output)
  }

  /** An object with one entry for each feeding node, holding the output in its row. */
  ghost predicate IsJoin(d: WorkflowDefinition, rows: map<NodeId, NodeRow>, v: NodeId, input: Record) {
    forall u :: (u in input <==> Feeds(d, u, v))
             && (u in input ==> u in rows && rows[u].output.Some? && input[u] == JObject(rows[u].output.value))
  }

  /**
   * The input is made from the rows of the nodes that feed v: the request when
   * there is none, its output when there is one, a join when there are more.
   */
  ghost predicate GetsInput(d: WorkflowDefinition, request: Record, rows: map<NodeId, NodeRow>, v: NodeId,
                            input: Record) {
    && ((forall e :: e in d.edges ==> e.target != v) ==> input == request)
    && (forall e :: e in d.edges && e.target == v && OnlyFeeds(d, e.source, v) ==> HasOutput(rows, e.source, input))
    && ((exists e :: e in d.edges && e.target == v && !OnlyFeeds(d, e.source, v)) ==> IsJoin(d, rows, v, input))
  }

  /** The rows of everything that feeds v hold meanings. */
  ghost predicate FeedersHoldMeanings(g: Dag, run: Behaviour, request: Record, rows: map<NodeId, NodeRow>, v: NodeId)
    requires Acyclic(g.arcs)
  {
    forall u :: (u, v) in g.arcs ==> u in rows && rows[u].output.Some? && rows[u].output == Eval(g, run, request, u)
  }

  lemma FeedsIffArc(d: WorkflowDefinition, u: NodeId, v: NodeId)
    ensures Feeds(d, u, v) <==> (u, v) in ArcsOf(d.edges)
  {
    if (u, v) in ArcsOf(d.edges) {
      var e :| e in d.edges && (e.source, e.target) == (u, v);
    }
  }

  lemma MeaningIsSoleInput(d: WorkflowDefinition, run: Behaviour, request: Record, rows: map<NodeId, NodeRow>,
                           u: NodeId, v: NodeId)
    requires Acyclic(ArcsOf(d.edges)) && FeedersHoldMeanings(DagOf(d), run, request, rows, v)
    requires Feeds(d, u, v) && OnlyFeeds(d, u, v)
    ensures HasOutput(rows, u, EvalInput(DagOf(d), run, request, v))
  {
    FeedsIffArc(d, u, v);
    forall w | (w, v) in ArcsOf(d.edges) ensures w == u {
      FeedsIffArc(d, w, v);
    }
    SoleInput(DagOf(d), run, request, u, v);
  }

  lemma MeaningIsJoin(d: WorkflowDefinition, run: Behaviour, request: Record, rows: map<NodeId, NodeRow>,
                      a: NodeId, b: NodeId, v: NodeId)
    requires Acyclic(ArcsOf(d.edges)) && FeedersHoldMeanings(DagOf(d), run, request, rows, v)
    requires a != b && Feeds(d, a, v) && Feeds(d, b, v)
    ensures IsJoin(d, rows, v, EvalInput(DagOf(d), run, request, v))
  {
    FeedsIffArc(d, a, v);
    FeedsIffArc(d, b, v);
    var input := EvalInput(DagOf(d), run, request, v);
    forall u
      ensures (u in input <==> Feeds(d, u, v))
           && (u in input ==> u in rows && rows[u].output.Some? && input[u] == JObject(rows[u].output.value))
    {
      FeedsIffArc(d, u, v);
      JoinInput(DagOf(d), run, request, a, b, v, u);
    }
  }

  lemma MeaningIsRequest(d: WorkflowDefinition, run: Behaviour, request: Record, v: NodeId)
    requires Acyclic(ArcsOf(d.edges)) && forall e :: e in d.edges ==> e.target != v
    ensures EvalInput(DagOf(d), run, request, v) == request
  {
    forall u ensures u !in Predecessors(ArcsOf(d.edges), v) {
      PredecessorsAre(ArcsOf(d.edges), u, v);
      FeedsIffArc(d, u, v);
    }
    assert Predecessors(ArcsOf(d.edges), v) == {};
  }

  /** A node's meaningful input is the one made from its feeders' rows. */
  lemma MeaningIsFromRows(d: WorkflowDefinition, run: Behaviour, request: Record, rows: map<NodeId, NodeRow>, v: NodeId)
    requires Acyclic(ArcsOf(d.edges)) && FeedersHoldMeanings(DagOf(d), run, request, rows, v)
    ensures GetsInput(d, request, rows, v, EvalInput(DagOf(d), run, request, v))
  {
    var input := EvalInput(DagOf(d), run, request, v);
    if forall e :: e in d.edges ==> e.target != v {
      MeaningIsRequest(d, run, request, v);
    }
    forall e | e in d.edges && e.target == v && OnlyFeeds(d, e.source, v) ensures HasOutput(rows, e.source, input) {
      assert Feeds(d, e.source, v);
      MeaningIsSoleInput(d, run, request, rows, e.source, v);
    }
    if e :| e in d.edges && e.target == v && !OnlyFeeds(d, e.source, v) {
      var f :| f in d.edges && f.target == v && f.source != e.source;
      assert Feeds(d, e.source, v) && Feeds(d, f.source, v);
      MeaningIsJoin(d, run, request, rows, e.source, f.source, v);
    }
  }

  lemma JoinsAreEqual(d: WorkflowDefinition, rows: map<NodeId, NodeRow>, v: NodeId, a: Record, b: Record)
    requires IsJoin(d, rows, v, a) && IsJoin(d, rows, v, b)
    ensures a == b
  {
    assert a.Keys == b.Keys;
    forall u | u in a ensures a[u] == b[u] {
    }
  }

  /** The rows leave no choice of input. */
  lemma InputIsDetermined(d: WorkflowDefinition, request: Record, rows: map<NodeId, NodeRow>, v: NodeId, a: Record,
                          b: Record)
    requires GetsInput(d, request, rows, v, a) && GetsInput(d, request, rows, v, b)
    ensures a == b
  {
    if e :| e in d.edges && e.target == v {
      if OnlyFeeds(d, e.source, v) {
        assert HasOutput(rows, e.source, a) && HasOutput(rows, e.source, b);
      } else {
        JoinsAreEqual(d, rows, v, a, b);
      }
    }
  }

  // ---- Nodes that succeeded ----

  /** A node has run on the input in its row and its output is there. */
  predicate HasRun(run: Behaviour, n: WorkflowNode, rows: map<NodeId, NodeRow>) {
    && n.id in rows && rows[n.id].status == SUCCEEDED && rows[n.id].error.None? && rows[n.id].output.Some?
    && if n.nodeType.ManualTrigger? then rows[n.id].output.value == rows[n.id].input
       else run(n, rows[n.id].input) == Ok(rows[n.id].output.value)
  }

  lemma MeaningIsRun(d: WorkflowDefinition, run: Behaviour, request: Record, n: WorkflowNode)
    requires Accepted(d) && n in d.nodes
    requires Eval(DagOf(d), run, request, n.id).Some?
    ensures var input, output := EvalInput(DagOf(d), run, request, n.id), Eval(DagOf(d), run, request, n.id).value;
            if n.nodeType.ManualTrigger? then output == input else run(n, input) == Ok(output)
  {
    ScheduledNodeIsAt(d, n);
  }

  /** The first nodes of a schedule have all succeeded. */
  ghost predicate FirstSucceeded(g: Dag, env: Environment, request: Record, order: seq<WorkflowNode>, k: nat,
                                 rows: map<NodeId, NodeRow>)
    requires Acyclic(g.arcs) && k <= |order|
  {
    forall i :: 0 <= i < k ==>
      && NodeSucceeds(g, env, request, order[i].id)
      && order[i].id in rows && rows[order[i].id] == SucceededRow(g, env, request, order[i].id)
  }

  lemma AttemptHasFirst(d: WorkflowDefinition, env: Environment, request: Record, order: seq<WorkflowNode>, k: nat,
                        before: map<NodeId, NodeRow>, rows: map<NodeId, NodeRow>,
                        r: Result<WorkflowOutput, WorkerFailure>)
    requires Acyclic(ArcsOf(d.edges)) && AttemptEnds(d, env, request, order, k, before, rows, r)
    ensures k <= |order| && FirstSucceeded(DagOf(d), env, request, order, k, rows)
  {
    assert forall i :: 0 <= i < |order| ==> IdsOf(order)[i] == order[i].id;
  }

  lemma FeedersSucceeded(d: WorkflowDefinition, env: Environment, request: Record, order: seq<WorkflowNode>, k: nat,
                         rows: map<NodeId, NodeRow>, i: nat)
    requires Acyclic(ArcsOf(d.edges)) && IsSchedule(d, order) && k <= |order| && i <= k && i < |order|
    requires FirstSucceeded(DagOf(d), env, request, order, k, rows)
    ensures FeedersHoldMeanings(DagOf(d), env.run, request, rows, order[i].id)
  {
    forall u | (u, order[i].id) in ArcsOf(d.edges)
      ensures u in rows && rows[u].output.Some? && rows[u].output == Eval(DagOf(d), env.run, request, u)
    {
      assert IdsOf(order)[i] == order[i].id && u in IdsOf(order)[..i];
      var j :| 0 <= j < i && IdsOf(order)[j] == u;
      assert order[j].id == u;
    }
  }

  lemma SucceededNodeHasRun(d: WorkflowDefinition, env: Environment, request: Record, order: seq<WorkflowNode>, k: nat,
                            rows: map<NodeId, NodeRow>, i: nat)
    requires Accepted(d) && IsSchedule(d, order) && i < k <= |order|
    requires FirstSucceeded(DagOf(d), env, request, order, k, rows)
    ensures HasRun(env.run, order[i], rows) && GetsInput(d, request, rows, order[i].id, rows[order[i].id].input)
  {
    assert order[i] in order;
    MeaningIsRun(d, env.run, request, order[i]);
    FeedersSucceeded(d, env, request, order, k, rows, i);
    MeaningIsFromRows(d, env.run, request, rows, order[i].id);
  }

  /**
   * Every node before the stopping place, which is every node of an attempt that
   * succeeds, was run on the input made from its feeders' rows, and its row holds the outcome.
   */
  lemma NodesHaveRun(d: WorkflowDefinition, env: Environment, request: Record, order: seq<WorkflowNode>, k: nat,
                     before: map<NodeId, NodeRow>, rows: map<NodeId, NodeRow>, r: Result<WorkflowOutput, WorkerFailure>)
    requires Accepted(d) && AttemptEnds(d, env, request, order, k, before, rows, r)
    ensures forall i :: 0 <= i < k ==>
              HasRun(env.run, order[i], rows) && GetsInput(d, request, rows, order[i].id, rows[order[i].id].input)
    ensures r.Ok? ==> forall n :: n in d.nodes ==>
              HasRun(env.run, n, rows) && GetsInput(d, request, rows, n.id, rows[n.id].input)
  {
    AttemptHasFirst(d, env, request, order, k, before, rows, r);
    forall i | 0 <= i < k
      ensures HasRun(env.run, order[i], rows) && GetsInput(d, request, rows, order[i].id, rows[order[i].id].input)
    {
      SucceededNodeHasRun(d, env, request, order, k, rows, i);
    }
    if r.Ok? {
      forall n | n in d.nodes ensures HasRun(env.run, n, rows) && GetsInput(d, request, rows, n.id, rows[n.id].input) {
        assert n in order;
        var i :| 0 <= i < |order| && order[i] == n;
      }
    }
  }

  /** A successful attempt reports how many nodes there are and the output in the last node's row. */
  lemma ReportsLastOutput(d: WorkflowDefinition, env: Environment, request: Record, order: seq<WorkflowNode>, k: nat,
                          before: map<NodeId, NodeRow>, rows: map<NodeId, NodeRow>,
                          r: Result<WorkflowOutput, WorkerFailure>)
    requires Accepted(d) && AttemptEnds(d, env, request, order, k, before, rows, r) && r.Ok?
    ensures |order| == |d.nodes| > 0 && r.value.nodeCount == |d.nodes|
    ensures HasOutput(rows, order[|order| - 1].id, r.value.finalOutput)
  {
    AttemptHasFirst(d, env, request, order, k, before, rows, r);
    assert IdsOf(order)[k - 1] == order[k - 1].id;
  }

  // ---- The node the attempt stops at ----

  /** v's row was not touched. */
  predicate Untouched(before: map<NodeId, NodeRow>, rows: map<NodeId, NodeRow>, v: NodeId) {
    (v in rows <==> v in before) && (v in rows ==> rows[v] == before[v])
  }

  lemma LaterRowsUntouched(d: WorkflowDefinition, env: Environment, request: Record, order: seq<WorkflowNode>, k: nat,
                           before: map<NodeId, NodeRow>, rows: map<NodeId, NodeRow>,
                           r: Result<WorkflowOutput, WorkerFailure>, j: nat)
    requires Acyclic(ArcsOf(d.edges)) && AttemptEnds(d, env, request, order, k, before, rows, r) && r.Err?
    requires k < j < |order|
    ensures Untouched(before, rows, order[j].id)
  {
    var ids := IdsOf(order);
    forall i | 0 <= i < k + 1 ensures ids[i] != ids[j] {
    }
    assert order[j].id == ids[j] && ids[j] !in ids[..k + 1];
  }

  /** The node the attempt stops at was given the input made from its feeders' rows; nothing after it was touched. */
  lemma StopsAt(d: WorkflowDefinition, env: Environment, request: Record, order: seq<WorkflowNode>, k: nat,
                before: map<NodeId, NodeRow>, rows: map<NodeId, NodeRow>, r: Result<WorkflowOutput, WorkerFailure>)
    returns (input: Record)
    requires Accepted(d) && AttemptEnds(d, env, request, order, k, before, rows, r) && r.Err?
    ensures k < |order| && GetsInput(d, request, rows, order[k].id, input)
    ensures forall j :: k < j < |order| ==> Untouched(before, rows, order[j].id)
    ensures input == EvalInput(DagOf(d), env.run, request, order[k].id)
  {
    input := EvalInput(DagOf(d), env.run, request, order[k].id);
    AttemptHasFirst(d, env, request, order, k, before, rows, r);
    FeedersSucceeded(d, env, request, order, k, rows, k);
    MeaningIsFromRows(d, env.run, request, rows, order[k].id);
    forall j | k < j < |order| ensures Untouched(before, rows, order[j].id) {
      LaterRowsUntouched(d, env, request, order, k, before, rows, r, j);
    }
  }

  /** An action that fails on its input makes the attempt fail, and nothing after it is touched. */
  lemma FailingNodeStopsAttempt(d: WorkflowDefinition, env: Environment, request: Record, order: seq<WorkflowNode>,
                                k: nat, before: map<NodeId, NodeRow>, rows: map<NodeId, NodeRow>,
                                r: Result<WorkflowOutput, WorkerFailure>, i: nat, input: Record)
    requires Accepted(d) && AttemptEnds(d, env, request, order, k, before, rows, r) && i < |order|
    requires !order[i].nodeType.ManualTrigger? && GetsInput(d, request, rows, order[i].id, input)
    requires env.run(order[i], input).Err?
    ensures r.Err? && k <= i
    ensures forall j :: i < j < |order| ==> Untouched(before, rows, order[j].id)
  {
    NodesHaveRun(d, env, request, order, k, before, rows, r);
    AttemptHasFirst(d, env, request, order, k, before, rows, r);
    if i < k {
      InputIsDetermined(d, request, rows, order[i].id, input, rows[order[i].id].input);
      assert false;
    }
    forall j | i < j < |order| ensures Untouched(before, rows, order[j].id) {
      LaterRowsUntouched(d, env, request, order, k, before, rows, r, j);
    }
  }

  // ---- What that node leaves behind ----

  const WORKER_ERROR := WorkerFailure("workflow_execution_worker_error", true)

  /** The node computes this output from its input. */
  predicate Yields(run: Behaviour, node: WorkflowNode, input: Record, output: Record) {
    if node.nodeType.ManualTrigger? then output == input else run(node, input) == Ok(output)
  }

  /**
   * A node whose start cannot be stored leaves its row alone; one whose start cannot be
   * published leaves it running.
   */
  lemma UnstartedNode(env: Environment, node: WorkflowNode, input: Record)
    requires !env.stored(node.id, Started) || !env.published(node.id, Started)
    ensures ErrorThrown(env, node, input) == WORKER_ERROR
    ensures RowLeft(env, node, input) ==
              if env.stored(node.id, Started) then Some(NodeRow(RUNNING, input, None, None)) else None
  {
  }

  /**
   * An action's failure is stored in its row, which stays running if that goes wrong; the
   * failure is thrown on once it is published.
   */
  lemma FailingNode(env: Environment, node: WorkflowNode, input: Record, failure: WorkerFailure)
    requires env.stored(node.id, Started) && env.published(node.id, Started)
    requires !node.nodeType.ManualTrigger? && env.run(node, input) == Err(failure)
    ensures RowLeft(env, node, input) ==
              if env.stored(node.id, Failed) then Some(NodeRow(FAILED, input, None, Some(failure)))
              else Some(NodeRow(RUNNING, input, None, None))
    ensures ErrorThrown(env, node, input) ==
              if env.stored(node.id, Failed) && env.published(node.id, Failed) then failure else WORKER_ERROR
  {
  }

  /**
   * A node that computes its output but cannot store or publish it is marked failed, with
   * the output in its row if that was stored.
   */
  lemma UnfinishedNode(env: Environment, node: WorkflowNode, input: Record, output: Record)
    requires env.stored(node.id, Started) && env.published(node.id, Started) && Yields(env.run, node, input, output)
    requires !env.stored(node.id, Completed) || !env.published(node.id, Completed)
    ensures ErrorThrown(env, node, input) == WORKER_ERROR
    ensures var kept := if env.stored(node.id, Completed) then Some(output) else None;
            RowLeft(env, node, input) ==
              if env.stored(node.id, Failed) then Some(NodeRow(FAILED, input, kept, Some(WORKER_ERROR)))
              else if env.stored(node.id, Completed) then Some(NodeRow(SUCCEEDED, input, kept, None))
              else Some(NodeRow(RUNNING, input, None, None))
  {
  }

  /** Without a value a node has an input on which its behaviour fails. */
  lemma NoMeaningIsFailure(d: WorkflowDefinition, run: Behaviour, request: Record, n: WorkflowNode)
    requires Accepted(d) && n in d.nodes && Eval(DagOf(d), run, request, n.id).None?
    requires forall u :: (u, n.id) in ArcsOf(d.edges) ==> Eval(DagOf(d), run, request, u).Some?
    ensures !n.nodeType.ManualTrigger? && run(n, EvalInput(DagOf(d), run, request, n.id)).Err?
  {
    ScheduledNodeIsAt(d, n);
    InputIsFrom(DagOf(d), run, request, n.id);
  }

  /**
   * The node an attempt stops at got the input made from its feeders' rows, and
   * something went wrong: an update, a publish, or the action itself.  Its row
   * and the error are those of UnstartedNode, FailingNode or UnfinishedNode.
   */
  lemma StoppedNodeIsRecorded(d: WorkflowDefinition, env: Environment, request: Record, order: seq<WorkflowNode>,
                              k: nat, before: map<NodeId, NodeRow>, rows: map<NodeId, NodeRow>,
                              r: Result<WorkflowOutput, WorkerFailure>)
    returns (input: Record)
    requires Accepted(d) && AttemptEnds(d, env, request, order, k, before, rows, r) && r.Err?
    ensures k < |order| && GetsInput(d, request, rows, order[k].id, input)
    ensures !PhaseGoesWell(env, order[k].id, Started) || !PhaseGoesWell(env, order[k].id, Completed)
         || (!order[k].nodeType.ManualTrigger? && env.run(order[k], input).Err?)
    ensures RowIs(before, rows, order[k].id, RowLeft(env, order[k], input))
            && r.error == ErrorThrown(env, order[k], input)
    ensures !env.stored(order[k].id, Started) ==> Untouched(before, rows, order[k].id) && r.error == WORKER_ERROR
  {
    input := StopsAt(d, env, request, order, k, before, rows, r);
    if Eval(DagOf(d), env.run, request, order[k].id).None? {
      AttemptHasFirst(d, env, request, order, k, before, rows, r);
      FeedersSucceeded(d, env, request, order, k, rows, k);
      assert order[k] in order;
      NoMeaningIsFailure(d, env.run, request, order[k]);
    }
  }

  /** An attempt that stops at an action which fails marks its row failed with that failure and ends with it. */
  lemma ActionFailureIsRecorded(d: WorkflowDefinition, env: Environment, request: Record, order: seq<WorkflowNode>,
                                k: nat, before: map<NodeId, NodeRow>, rows: map<NodeId, NodeRow>,
                                r: Result<WorkflowOutput, WorkerFailure>)
    returns (input: Record)
    requires Accepted(d) && AttemptEnds(d, env, request, order, k, before, rows, r) && r.Err?
    ensures k < |order| && GetsInput(d, request, rows, order[k].id, input)
    ensures var v := order[k].id;
            && !order[k].nodeType.ManualTrigger? && env.run(order[k], input).Err?
            && env.stored(v, Started) && env.published(v, Started) && env.stored(v, Failed) ==>
              && v in rows && rows[v] == NodeRow(FAILED, input, None, Some(env.run(order[k], input).error))
              && (env.published(v, Failed) ==> r.error == env.run(order[k], input).error)
  {
    input := StoppedNodeIsRecorded(d, env, request, order, k, before, rows, r);
  }
}
