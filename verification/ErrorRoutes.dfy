/** Where errors lead: which failures are retryable, and what a failed dispatch returns to. */
module ErrorRoutes {
  import opened Wrappers
  import opened WorkflowDefinitions
  import opened LifecycleEvents
  import opened Outbox
  import opened ExecutionProtocol
  import opened ProtocolInvariant
  import opened ProtocolSteps
  import opened FailureHandling

  // ---- A failed dispatch ----

  /** Where control is when all dispatches it is in have returned normally. */
  function ReturnsTo(pc: Pc): Pc
    decreases pc
  {
    match pc
    case Flush(after, _) => ReturnsTo(after)
    case Flushing(_, after, _) => ReturnsTo(after)
    case Send(_, after, _) => ReturnsTo(after)
    case Mark(_, _, after, _) => ReturnsTo(after)
    case _ => pc
  }

  /**
   * What a failed dispatch leads to instead: a node whose completion was to be
   * published fails with a retryable error, a command that was given up is put
   * back, a dispatcher stops, and everything else is a retryable failure.
   */
  function InsteadOf(pc: Pc): Pc {
    match pc
    case RunNodes(k) => if k > 0 then PersistNodeFailed(k - 1, true) else Catch(true)
    case DeadLetter => Nack
    case Halt => Halt
    case _ => Catch(true)
  }

  predicate ExitsFit(pc: Pc)
    decreases pc
  {
    DispatchesRows(pc) ==> pc.onThrow == InsteadOf(ReturnsTo(pc)) && ExitsFit(pc.after)
  }

  predicate ProcessExitsFit(s: State, p: ProcessId) {
    p in s.processes ==> ExitsFit(s.processes[p].pc)
  }

  ghost predicate AllExitsFit(s: State) {
    forall p {:trigger ProcessExitsFit(s, p)} :: ProcessExitsFit(s, p)
  }

  lemma PlacesExit(pc: Pc)
    requires !DispatchesRows(pc)
    ensures ExitsFit(pc) && ReturnsTo(pc) == pc
  {
  }

  lemma FlushingExits(pc: Pc, next: Pc)
    requires pc.Flushing? && ExitsFit(pc)
    requires next == if pc.snapshots == [] then pc.after
                     else Send(pc.snapshots[0], Flushing(pc.snapshots[1..], pc.after, pc.onThrow), pc.onThrow)
    ensures ExitsFit(next)
  {
    if pc.snapshots != [] {
      var rest := Flushing(pc.snapshots[1..], pc.after, pc.onThrow);
      assert ReturnsTo(rest) == ReturnsTo(pc) && ExitsFit(rest);
    }
  }

  lemma LooksExit(order: seq<NodeId>, status: Option<ExecutionStatus>, attempt: nat, pc: Pc, next: Pc)
    requires Moves(order, status, attempt, pc, next) && !pc.Send? && !pc.Flushing?
    ensures ExitsFit(next)
  {
    PlacesExit(Ack);
    PlacesExit(DeadLetter);
    if !next.Flush? {
      PlacesExit(next);
    }
  }

  lemma DispatchExits(order: seq<NodeId>, e: ExecutionId, pc: Pc, row: OutboxRow)
    requires PersistedKey(order, e, pc).Some?
    ensures ExitsFit(DispatchAfter(pc, row))
  {
    PlacesExit(DispatchAfter(pc, row).after);
  }

  lemma WalkExits(orders: Orders, s: State, t: State, step: Step)
    requires (step.Move? || step.Throw? || step.Fetch?) && NextStep(orders, s, t, step) && ProcessExitsFit(s, step.p)
    ensures ProcessExitsFit(t, step.p)
  {
    var e, pc := s.processes[step.p].execution, s.processes[step.p].pc;
    if step.Move? && pc.Flushing? {
      FlushingExits(pc, step.next);
    } else if step.Move? && !pc.Send? {
      LooksExit(orders(e), StatusOf(s, e), AttemptOf(s, step.p), pc, step.next);
    } else if step.Throw? {
      PlacesExit(Handler(pc, step.retryable).value);
    }
  }

  lemma PersistExits(orders: Orders, s: State, t: State, step: Step)
    requires step.Persist? && NextStep(orders, s, t, step)
    ensures ProcessExitsFit(t, step.p)
  {
    var e, pc := s.processes[step.p].execution, s.processes[step.p].pc;
    DispatchExits(orders(e), e, pc, t.outbox[PersistedKey(orders(e), e, pc).value]);
  }

  lemma PublishExits(orders: Orders, s: State, t: State, step: Step)
    requires step.Publish? && NextStep(orders, s, t, step) && ProcessExitsFit(s, step.p)
    ensures ProcessExitsFit(t, step.p)
  {
  }

  lemma RecordExits(orders: Orders, s: State, t: State, step: Step)
    requires step.RecordPublish? && NextStep(orders, s, t, step) && ProcessExitsFit(s, step.p)
    ensures ProcessExitsFit(t, step.p)
  {
    PlacesExit(InsteadOf(ReturnsTo(s.processes[step.p].pc)));
  }

  lemma EndExits(orders: Orders, s: State, t: State, step: Step)
    requires IsFinalStep(step) && NextStep(orders, s, t, step)
    ensures ProcessExitsFit(t, step.p)
  {
    if step.PublishRetry? || step.PublishDeadLetter? {
      PlacesExit(t.processes[step.p].pc);
    } else {
      assert step.p !in t.processes;
    }
  }

  lemma StartedExit(orders: Orders, s: State, t: State, step: Step, q: ProcessId)
    requires (step.StartDispatcher? || step.Deliver?) && NextStep(orders, s, t, step) && q !in s.processes
    ensures ProcessExitsFit(t, q)
  {
    PlacesExit(Halt);
    PlacesExit(Load);
  }

  lemma NobodyStarted(orders: Orders, s: State, t: State, step: Step)
    requires !IsWorkStep(step) && !IsFinalStep(step) && !step.StartDispatcher? && !step.Deliver?
    requires NextStep(orders, s, t, step)
    ensures t.processes == s.processes
  {
  }

  lemma OwnStepExits(orders: Orders, s: State, t: State, step: Step)
    requires (IsWorkStep(step) || IsFinalStep(step)) && NextStep(orders, s, t, step) && ProcessExitsFit(s, step.p)
    ensures ProcessExitsFit(t, step.p)
  {
    if step.Move? || step.Throw? || step.Fetch? {
      WalkExits(orders, s, t, step);
    } else if step.Persist? {
      PersistExits(orders, s, t, step);
    } else if step.Publish? {
      PublishExits(orders, s, t, step);
    } else if step.RecordPublish? {
      RecordExits(orders, s, t, step);
    } else {
      EndExits(orders, s, t, step);
    }
  }

  lemma NoNewWorker(orders: Orders, s: State, t: State, step: Step, q: ProcessId)
    requires IsWorkStep(step) && NextStep(orders, s, t, step) && q !in s.processes
    ensures q !in t.processes
  {
  }

  lemma NoNewcomer(orders: Orders, s: State, t: State, step: Step, q: ProcessId)
    requires IsFinalStep(step) && NextStep(orders, s, t, step) && q !in s.processes
    ensures q !in t.processes
  {
  }

  /** Every step keeps each failed dispatch leading where it should. */
  lemma StepKeepsExits(orders: Orders, s: State, t: State, step: Step)
    requires AllExitsFit(s) && NextStep(orders, s, t, step)
    ensures AllExitsFit(t)
  {
    forall q ensures ProcessExitsFit(t, q) {
      assert ProcessExitsFit(s, q);
      if IsStepOf(step, q) {
        OwnStepExits(orders, s, t, step);
      } else if q in s.processes {
        OthersLeaveAlone(orders, s, t, step, q);
      } else if IsWorkStep(step) {
        NoNewWorker(orders, s, t, step, q);
      } else if IsFinalStep(step) {
        NoNewcomer(orders, s, t, step, q);
      } else if step.StartDispatcher? || step.Deliver? {
        StartedExit(orders, s, t, step, q);
      } else {
        NobodyStarted(orders, s, t, step);
      }
    }
  }

  lemma NextKeepsExits(orders: Orders, s: State, t: State)
    requires AllExitsFit(s) && Next(orders, s, t)
    ensures AllExitsFit(t)
  {
    var step :| NextStep(orders, s, t, step);
    StepKeepsExits(orders, s, t, step);
  }

  lemma {:induction false} PathKeepsExits(orders: Orders, path: seq<State>, i: nat)
    requires IsPath(orders, path) && i < |path| && AllExitsFit(path[0])
    ensures AllExitsFit(path[i])
    decreases i
  {
    if i > 0 {
      PathKeepsExits(orders, path, i - 1);
      assert NextAt(orders, path, i - 1);
      NextKeepsExits(orders, path[i - 1], path[i]);
    }
  }

  lemma InitExits(s: State)
    requires Init(s)
    ensures AllExitsFit(s)
  {
  }

  lemma ReachableExits(orders: Orders, s: State)
    requires Reachable(orders, s)
    ensures AllExitsFit(s)
  {
    var start :| Init(start) && Continues(orders, start, s);
    var path :| IsPath(orders, path) && path[0] == start && path[|path| - 1] == s;
    InitExits(start);
    PathKeepsExits(orders, path, |path| - 1);
  }

  /** In every reachable state, an error while rows are being dispatched leads where the caller handles it. */
  lemma FailedDispatchLeads(orders: Orders, s: State, t: State, p: ProcessId, retryable: bool)
    requires Reachable(orders, s) && p in s.processes && DispatchesRows(s.processes[p].pc)
    requires NextStep(orders, s, t, Throw(p, retryable))
    ensures t == Goto(s, p, InsteadOf(ReturnsTo(s.processes[p].pc)))
  {
    ReachableExits(orders, s);
    assert ProcessExitsFit(s, p);
  }

  /** So does a publish that failed, once that is recorded; one that went well leads on. */
  lemma RecordedPublishLeads(orders: Orders, s: State, t: State, p: ProcessId)
    requires Reachable(orders, s) && NextStep(orders, s, t, RecordPublish(p))
    ensures p in s.processes && p in t.processes && s.processes[p].pc.Mark?
    ensures var pc := s.processes[p].pc;
            t.processes[p].pc == if pc.accepted then pc.after else InsteadOf(ReturnsTo(pc))
  {
    ReachableExits(orders, s);
    assert ProcessExitsFit(s, p);
  }

  // ---- Other errors ----

  /** Before and after the nodes an error goes to the retry decision with its own flag. */
  predicate IsOutsideNodes(pc: Pc) {
    pc.Load? || pc.BeginTx? || pc.Reload? || pc.PersistStarted? || pc.RunNodes? || pc.PersistNodeStarted?
    || pc.CompleteTx? || pc.CompletionReload?
  }

  /** While a node runs, or its completion is stored, an error makes the node fail. */
  predicate IsInsideNode(pc: Pc, k: nat) {
    pc == ExecuteNode(k) || pc == PersistNodeCompleted(k)
  }

  predicate CannotFail(pc: Pc) {
    pc.Catch? || pc.Ack? || pc.AckReplaced? || pc.Nack? || pc.Halt?
  }

  lemma ErrorsLead(orders: Orders, s: State, p: ProcessId, k: nat, retryable: bool, t: State)
    requires p in s.processes
    ensures var pc, throws := s.processes[p].pc, NextStep(orders, s, t, Throw(p, retryable));
            && (IsOutsideNodes(pc) || pc.PersistNodeFailed? ==> (throws <==> t == Goto(s, p, Catch(retryable))))
            && (IsInsideNode(pc, k) ==> (throws <==> t == Goto(s, p, PersistNodeFailed(k, retryable))))
            && (pc.FailTx? || pc.FailReload? || pc.DeadLetter? ==> (throws <==> t == Goto(s, p, Nack)))
            && (CannotFail(pc) ==> !throws)
  {
  }
}
