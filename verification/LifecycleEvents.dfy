/** Lifecycle events of executions and the idempotency keys that identify them. */
module LifecycleEvents {
  import opened WorkflowDefinitions

  type ExecutionId = string
  type EventId = string

  datatype EventKey =
    | WorkflowStarted(execution: ExecutionId)
    | WorkflowCompleted(execution: ExecutionId)
    | WorkflowFailed(execution: ExecutionId)
    | NodeStarted(execution: ExecutionId, node: NodeId)
    | NodeCompleted(execution: ExecutionId, node: NodeId)
    | NodeFailed(execution: ExecutionId, node: NodeId)

  /** A message as built by the worker: a fresh event id, its key, and an opaque body. */
  datatype Message = Message(eventId: EventId, key: EventKey, body: string)

  function EventName(key: EventKey): string {
    match key
    case WorkflowStarted(_) => "workflow.execution.started"
    case WorkflowCompleted(_) => "workflow.execution.completed"
    case WorkflowFailed(_) => "workflow.execution.failed"
    case NodeStarted(_, _) => "workflow.node.execution.started"
    case NodeCompleted(_, _) => "workflow.node.execution.completed"
    case NodeFailed(_, _) => "workflow.node.execution.failed"
  }

  predicate IsNodeEvent(key: EventKey) {
    key.NodeStarted? || key.NodeCompleted? || key.NodeFailed?
  }

  /** The idempotency key as the text stored in the database. */
  function KeyText(key: EventKey): string {
    EventName(key) + ":" + if IsNodeEvent(key) then key.execution + ":" + key.node else key.execution
  }

  lemma ColonsApart(a: string, b: string, c: string, d: string)
    requires |a| < |c| && ':' !in c
    ensures a + ":" + b != c + ":" + d
  {
    assert (a + ":" + b)[|a|] == ':';
    assert (c + ":" + d)[|a|] == c[|a|];
  }

  lemma FirstColonSplits(a: string, b: string, c: string, d: string)
    requires ':' !in a && ':' !in c && a + ":" + b == c + ":" + d
    ensures a == c && b == d
  {
    if |a| < |c| {
      ColonsApart(a, b, c, d);
    } else if |c| < |a| {
      ColonsApart(c, d, a, b);
    } else {
      assert (a + ":" + b)[..|a|] == a && (c + ":" + d)[..|c|] == c;
      assert (a + ":" + b)[|a| + 1..] == b && (c + ":" + d)[|c| + 1..] == d;
    }
  }

  predicate SameEvent(a: EventKey, b: EventKey) {
    match a
    case WorkflowStarted(_) => b.WorkflowStarted?
    case WorkflowCompleted(_) => b.WorkflowCompleted?
    case WorkflowFailed(_) => b.WorkflowFailed?
    case NodeStarted(_, _) => b.NodeStarted?
    case NodeCompleted(_, _) => b.NodeCompleted?
    case NodeFailed(_, _) => b.NodeFailed?
  }

  /** The six event names have six different lengths. */
  lemma EventNamesDiffer(a: EventKey, b: EventKey)
    ensures EventName(a) == EventName(b) ==> SameEvent(a, b)
  {
    assert EventName(a) == EventName(b) ==> |EventName(a)| == |EventName(b)|;
  }

  lemma EventNameHasNoColon(a: EventKey)
    ensures ':' !in EventName(a)
  {
    match a
    case WorkflowStarted(_) => assert ':' !in "workflow.execution.started";
    case WorkflowCompleted(_) => assert ':' !in "workflow.execution.completed";
    case WorkflowFailed(_) => assert ':' !in "workflow.execution.failed";
    case NodeStarted(_, _) => assert ':' !in "workflow.node.execution.started";
    case NodeCompleted(_, _) => assert ':' !in "workflow.node.execution.completed";
    case NodeFailed(_, _) => assert ':' !in "workflow.node.execution.failed";
  }

  /** Execution ids contain no colon (they are UUIDs), so distinct events never share a stored key. */
  lemma KeyTextIsInjective(a: EventKey, b: EventKey)
    requires ':' !in a.execution && ':' !in b.execution
    ensures KeyText(a) == KeyText(b) <==> a == b
  {
    if KeyText(a) == KeyText(b) {
      EventNamesDiffer(a, b);
      EventNameHasNoColon(a);
      EventNameHasNoColon(b);
      var restA := if IsNodeEvent(a) then a.execution + ":" + a.node else a.execution;
      var restB := if IsNodeEvent(b) then b.execution + ":" + b.node else b.execution;
      FirstColonSplits(EventName(a), restA, EventName(b), restB);
      if IsNodeEvent(a) {
        FirstColonSplits(a.execution, a.node, b.execution, b.node);
      }
    }
  }

  /** The stored keys, spelled out. */
  lemma KeyTextIs(e: ExecutionId, v: NodeId)
    ensures KeyText(WorkflowStarted(e)) == "workflow.execution.started" + ":" + e
    ensures KeyText(WorkflowCompleted(e)) == "workflow.execution.completed" + ":" + e
    ensures KeyText(WorkflowFailed(e)) == "workflow.execution.failed" + ":" + e
    ensures KeyText(NodeStarted(e, v)) == "workflow.node.execution.started" + ":" + (e + ":" + v)
    ensures KeyText(NodeCompleted(e, v)) == "workflow.node.execution.completed" + ":" + (e + ":" + v)
    ensures KeyText(NodeFailed(e, v)) == "workflow.node.execution.failed" + ":" + (e + ":" + v)
  {
  }
}
