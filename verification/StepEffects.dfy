/** What single steps of the execution protocol read, write and lead to, place by place. */
module StepEffects {
  import opened Wrappers
  import opened LifecycleEvents
  import opened Outbox
  import opened ExecutionProtocol
  import opened ProtocolInvariant
  import opened ProtocolTheorems
  import opened LingeringCopies

  // ---- Lookups ----

  /** What a worker does after looking its execution up depends on what it finds. */
  lemma LookupsLead(orders: Orders, s: State, p: ProcessId, next: Pc)
    requires p in s.processes
    ensures var pc, e := s.processes[p].pc, s.processes[p].execution;
            var goes := NextStep(orders, s, Goto(s, p, next), Move(p, next));
            && (pc.Load? && e !in s.status ==> (goes <==> next == Catch(false)))
            && (pc.Load? && Ended(s, e) ==> (goes <==> next == Flush(Ack, Catch(true))))
            && (pc.Load? && e in s.status && s.status[e].StatusPending? ==> (goes <==> next == BeginTx))
            && (pc.Load? && e in s.status && s.status[e].StatusRunning? ==> (goes <==> next == PersistStarted))
            && (pc.Reload? && (e !in s.status || Ended(s, e)) ==> (goes <==> next == Flush(Ack, Catch(true))))
            && (pc.Reload? && e in s.status && !Ended(s, e) ==> (goes <==> next == RunNodes(0)))
            && (pc.CompletionReload? && Ended(s, e) ==> (goes <==> next == Flush(Ack, Catch(true))))
            && (pc.CompletionReload? && !Ended(s, e) ==> (goes <==> next == Catch(true)))
            && (pc.FailReload? && Ended(s, e) ==> (goes <==> next == Flush(DeadLetter, Nack)))
            && (pc.FailReload? && !Ended(s, e) ==> (goes <==> next == Nack))
  {
  }

  /** Where a worker goes between the statements of the loop, and when a conditional update finds nothing to change. */
  lemma WorkLeads(orders: Orders, s: State, p: ProcessId, k: nat, next: Pc)
    requires p in s.processes
    ensures var pc, e := s.processes[p].pc, s.processes[p].execution;
            var goes := NextStep(orders, s, Goto(s, p, next), Move(p, next));
            && (pc == RunNodes(k) ==> (goes <==> next == if k < |orders(e)| then PersistNodeStarted(k) else CompleteTx))
            && (pc == ExecuteNode(k) ==>
                  (goes <==> next == PersistNodeCompleted(k) || (next.PersistNodeFailed? && next.k == k)))
            && (pc.BeginTx? ==> (goes <==> StatusOf(s, e) != Some(StatusPending) && next == Reload))
            && (pc.CompleteTx? ==> (goes <==> StatusOf(s, e) != Some(StatusRunning) && next == CompletionReload))
            && (pc.FailTx? ==>
                  (goes <==> StatusOf(s, e) !in {Some(StatusPending), Some(StatusRunning)} && next == FailReload))
            && (pc.Send? ==> (goes <==> pc.snapshot.status == PUBLISHED && next == pc.after))
            && (IsStatement(pc) ==> !goes)
  {
  }

  /** Places that are left only by writing, fetching, publishing, acknowledging or an error. */
  predicate IsStatement(pc: Pc) {
    pc.PersistStarted? || pc.PersistNodeStarted? || pc.PersistNodeCompleted? || pc.PersistNodeFailed? || pc.Flush?
    || pc.Mark? || pc.DeadLetter? || pc.Ack? || pc.AckReplaced? || pc.Nack? || pc.Halt?
  }

  // ---- Fetching and publishing ----

  /** A flush fetches exactly the rows of its execution's own three events that are pending. */
  lemma FetchGetsPending(orders: Orders, s: State, t: State, p: ProcessId, snapshots: seq<OutboxRow>, row: OutboxRow)
    requires Reachable(orders, s) && NextStep(orders, s, t, Fetch(p, snapshots))
    ensures p in s.processes
    ensures var e, key := s.processes[p].execution, row.message.key;
            row in snapshots <==>
              && (key == WorkflowStarted(e) || key == WorkflowCompleted(e) || key == WorkflowFailed(e))
              && key in s.outbox && s.outbox[key] == row && row.status == PENDING
  {
    ReachableHasInv(orders, s);
    assert RowFits(orders, s, row.message.key);
  }

  /** An accepted message was handed over, one whose publish threw was not; nothing else is published. */
  lemma PublishHandsOver(orders: Orders, s: State, t: State, p: ProcessId, result: PublishResult, handedOver: bool,
                         enqueued: bool)
    requires NextStep(orders, s, t, Publish(p, result, handedOver, enqueued))
    ensures p in s.processes && s.processes[p].pc.Send? && s.processes[p].pc.snapshot.status != PUBLISHED
    ensures result == Delivered ==> t.log == s.log + [s.processes[p].pc.snapshot.message]
    ensures result == Threw ==> t.log == s.log
    ensures t.log == s.log || t.log == s.log + [s.processes[p].pc.snapshot.message]
    ensures p in t.processes && t.processes[p].pc.Mark? && t.processes[p].pc.snapshot == s.processes[p].pc.snapshot
    ensures t.processes[p].pc.accepted <==> result == Delivered
  {
  }

  /** A row not marked published can meet every outcome; backpressure leaves open whether the message got out. */
  lemma EveryOutcomeIsPossible(orders: Orders, s: State, p: ProcessId, row: OutboxRow, after: Pc, onThrow: Pc,
                               result: PublishResult, handedOver: bool, enqueued: bool)
    requires StandsAt(s, p, Send(row, after, onThrow)) && row.status != PUBLISHED
    ensures (exists t :: NextStep(orders, s, t, Publish(p, result, handedOver, enqueued))) <==>
              if result == Delivered then handedOver else if result == Threw then !handedOver else true
  {
    var u := Goto(s, p, Mark(row, result == Delivered, after, onThrow));
    var t := if handedOver then HandOver(u, row.message, enqueued) else u;
    assert NextStep(orders, s, t, Publish(p, result, handedOver, enqueued)) <==>
             if result == Delivered then handedOver else if result == Threw then !handedOver else true;
  }

  // ---- Writing ----

  /** Only this row may have been written, and only if it was missing: pending, with no attempt, under the given key. */
  predicate RowEnsured(s: State, t: State, key: EventKey, eventId: EventId, body: string) {
    t.outbox == if key in s.outbox then s.outbox
                else s.outbox[key := OutboxRow(Message(eventId, key, body), PENDING, 0)]
  }

  /** p goes on to dispatch the stored row, and then to the given place. */
  predicate Dispatches(s: State, t: State, p: ProcessId, key: EventKey, after: Pc) {
    && p in s.processes && p in t.processes && key in t.outbox
    && t.processes[p].pc.Send? && t.processes[p].pc.snapshot == t.outbox[key] && t.processes[p].pc.after == after
  }

  /** What the transactions write: the status changes together with the row, and only from the one asked for. */
  lemma TransactionsWrite(orders: Orders, s: State, t: State, p: ProcessId, eventId: EventId, body: string)
    requires NextStep(orders, s, t, Persist(p, eventId, body))
    ensures p in s.processes
    ensures var pc, e := s.processes[p].pc, s.processes[p].execution;
            && (pc.BeginTx? ==>
                  && StatusOf(s, e) == Some(StatusPending) && t.status == s.status[e := StatusRunning]
                  && RowEnsured(s, t, WorkflowStarted(e), eventId, body)
                  && Dispatches(s, t, p, WorkflowStarted(e), RunNodes(0)))
            && (pc.CompleteTx? ==>
                  && StatusOf(s, e) == Some(StatusRunning) && t.status == s.status[e := StatusSucceeded]
                  && RowEnsured(s, t, WorkflowCompleted(e), eventId, body)
                  && Dispatches(s, t, p, WorkflowCompleted(e), Ack))
            && (pc.FailTx? ==>
                  && StatusOf(s, e) in {Some(StatusPending), Some(StatusRunning)}
                  && t.status == s.status[e := StatusFailed]
                  && RowEnsured(s, t, WorkflowFailed(e), eventId, body)
                  && Dispatches(s, t, p, WorkflowFailed(e), DeadLetter))
  {
  }

  /** What the other events write: a row and nothing else. */
  lemma EventsWrite(orders: Orders, s: State, t: State, p: ProcessId, eventId: EventId, body: string, k: nat)
    requires NextStep(orders, s, t, Persist(p, eventId, body))
    ensures p in s.processes
    ensures var pc, e := s.processes[p].pc, s.processes[p].execution;
            && (pc.PersistStarted? ==>
                  && RowEnsured(s, t, WorkflowStarted(e), eventId, body) && t.status == s.status
                  && Dispatches(s, t, p, WorkflowStarted(e), RunNodes(0)))
            && (pc == PersistNodeStarted(k) ==>
                  && k < |orders(e)| && t.status == s.status
                  && RowEnsured(s, t, NodeStarted(e, orders(e)[k]), eventId, body)
                  && Dispatches(s, t, p, NodeStarted(e, orders(e)[k]), ExecuteNode(k)))
            && (pc == PersistNodeCompleted(k) ==>
                  && k < |orders(e)| && t.status == s.status
                  && RowEnsured(s, t, NodeCompleted(e, orders(e)[k]), eventId, body)
                  && Dispatches(s, t, p, NodeCompleted(e, orders(e)[k]), RunNodes(k + 1)))
            && (pc.PersistNodeFailed? && pc.k == k ==>
                  && k < |orders(e)| && t.status == s.status
                  && RowEnsured(s, t, NodeFailed(e, orders(e)[k]), eventId, body)
                  && Dispatches(s, t, p, NodeFailed(e, orders(e)[k]), Catch(pc.retryable)))
  {
  }

  // ---- Ending ----

  /**
   * An acknowledgement removes the command; a negative one, and a crash
   * anywhere, puts it back; nothing else ends a delivery.
   */
  lemma DeliveriesEnd(orders: Orders, s: State, t: State, p: ProcessId, c: CommandId)
    requires p in s.processes && s.processes[p].command == Some(c) && c in s.commands
    ensures var pc, ends := s.processes[p].pc, NextStep(orders, s, t, Finish(p));
            && (pc.Ack? || pc.AckReplaced? ==>
                  (ends <==> t == s.(commands := s.commands - {c}, processes := s.processes - {p})))
            && (pc.Nack? ==>
                  (ends <==> t == s.(commands := s.commands[c := s.commands[c].(place := Queued)],
                                     processes := s.processes - {p})))
            && (!pc.Ack? && !pc.AckReplaced? && !pc.Nack? && !pc.Halt? ==> !ends)
    ensures NextStep(orders, s, t, Crash(p)) <==>
              t == s.(commands := s.commands[c := s.commands[c].(place := Queued)], processes := s.processes - {p})
  {
  }
}
