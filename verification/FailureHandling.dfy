/**
 * What becomes of a command whose processing failed: a retry copy, or the execution's
 * failure and the dead-letter queue.
 */
module FailureHandling {
  import opened Wrappers
  import opened WorkflowDefinitions
  import opened LifecycleEvents
  import opened Outbox
  import opened RetryPolicy
  import opened ExecutionProtocol
  import opened ProtocolPaths
  import opened ProtocolInvariant
  import opened ProtocolSteps
  import opened ProtocolTheorems
  import opened Recovery
  import opened LingeringCopies

  // ---- Retrying or giving up ----

  /** p is about to handle a failure of the command c. */
  predicate Catches(s: State, p: ProcessId, c: CommandId, retryable: bool) {
    && p in s.processes && s.processes[p].pc == Catch(retryable)
    && s.processes[p].command == Some(c) && c in s.commands
  }

  /** The attempts after the first wait ten seconds, one minute and five minutes. */
  function WaitBefore(attempt: nat): nat {
    if attempt == 1 then 10_000 else if attempt == 2 then 60_000 else 300_000
  }

  /** A retry copy is sent only for a retryable failure of one of the first three attempts; it is the next attempt. */
  lemma RetryCopies(orders: Orders, s: State, t: State, p: ProcessId, c: CommandId, retryable: bool, copy: CommandId)
    requires Catches(s, p, c, retryable) && NextStep(orders, s, t, PublishRetry(p, copy))
    ensures retryable && s.commands[c].attempt < 3
    ensures copy !in s.commands
    ensures var held, attempt := s.commands[c], s.commands[c].attempt + 1;
            t.commands == s.commands[copy := Command(held.execution, attempt, held.origin, held.hops + 1,
                                                     held.delayMs + WaitBefore(attempt), Delayed)]
    ensures t.processes == s.processes[p := s.processes[p].(pc := AckReplaced)]
    ensures t.status == s.status && t.outbox == s.outbox && t.log == s.log && t.deadLetters == s.deadLetters
  {
  }

  lemma CanRetry(orders: Orders, s: State, p: ProcessId, c: CommandId, retryable: bool)
    returns (t: State, copy: CommandId)
    requires Catches(s, p, c, retryable) && retryable && s.commands[c].attempt < 3
    ensures NextStep(orders, s, t, PublishRetry(p, copy))
  {
    copy := UnusedNumber(s.commands.Keys);
    var held := s.commands[c];
    t := Goto(s, p, AckReplaced).(commands := s.commands[copy :=
           Command(held.execution, held.attempt + 1, held.origin, held.hops + 1,
                   held.delayMs + QueueFor(held.attempt + 1).value.ttlMs, Delayed)]);
  }

  /** A failure is retried exactly when it is retryable and the command is on one of its first three attempts. */
  lemma RetriedIff(orders: Orders, s: State, p: ProcessId, c: CommandId, retryable: bool)
    requires Catches(s, p, c, retryable)
    ensures (exists t, copy :: NextStep(orders, s, t, PublishRetry(p, copy))) <==>
              retryable && s.commands[c].attempt < 3
  {
    if retryable && s.commands[c].attempt < 3 {
      var t, copy := CanRetry(orders, s, p, c, retryable);
    }
    if t, copy :| NextStep(orders, s, t, PublishRetry(p, copy)) {
      RetryCopies(orders, s, t, p, c, retryable, copy);
    }
  }

  /** Otherwise, and only then, it is given up: the worker goes on to fail the execution. */
  lemma GivenUpIff(orders: Orders, s: State, p: ProcessId, c: CommandId, retryable: bool, next: Pc)
    requires Catches(s, p, c, retryable)
    ensures (exists t :: NextStep(orders, s, t, Move(p, next))) <==>
              next == FailTx && !(retryable && s.commands[c].attempt < 3)
  {
    assert NextStep(orders, s, Goto(s, p, next), Move(p, next)) <==>
             next == FailTx && !(retryable && s.commands[c].attempt < 3);
  }

  // ---- After giving up ----

  /** From here on the command can only be dead-lettered or put back. */
  predicate GivesUp(pc: Pc)
    decreases pc
  {
    match pc
    case FailTx | FailReload | DeadLetter | Nack => true
    case Flush(after, onThrow) => GivesUp(after) && GivesUp(onThrow)
    case Flushing(_, after, onThrow) => GivesUp(after) && GivesUp(onThrow)
    case Send(_, after, onThrow) => GivesUp(after) && GivesUp(onThrow)
    case Mark(_, _, after, onThrow) => GivesUp(after) && GivesUp(onThrow)
    case _ => false
  }

  /** p is past giving up and still has its command. */
  predicate HasGivenUp(s: State, p: ProcessId, c: CommandId) {
    p in s.processes && s.processes[p].command == Some(c) && GivesUp(s.processes[p].pc)
  }

  /** The command has just been dead-lettered, and its worker goes on to acknowledge it. */
  predicate DeadLettered(s: State, t: State, p: ProcessId, c: CommandId) {
    && c in s.commands && t.deadLetters == s.deadLetters + [s.commands[c]]
    && p in t.processes && t.processes[p].pc == Ack && t.processes[p].command == Some(c)
  }

  /** The command is queued as it was, and its worker is gone. */
  predicate PutBack(s: State, t: State, p: ProcessId, c: CommandId) {
    && c in s.commands && t.commands == s.commands[c := s.commands[c].(place := Queued)]
    && p !in t.processes && t.deadLetters == s.deadLetters
  }

  lemma GivenUpMoves(order: seq<NodeId>, status: Option<ExecutionStatus>, attempt: nat, pc: Pc, next: Pc)
    requires GivesUp(pc) && Moves(order, status, attempt, pc, next)
    ensures GivesUp(next)
  {
    if pc.Flushing? {
      assert GivesUp(Flushing(pc.snapshots[..], pc.after, pc.onThrow));
      if pc.snapshots != [] {
        assert GivesUp(Flushing(pc.snapshots[1..], pc.after, pc.onThrow));
      }
    } else if !pc.Send? {
      assert GivesUp(DeadLetter) && GivesUp(Nack) && GivesUp(FailReload);
    }
  }

  lemma GivenUpWalks(orders: Orders, s: State, t: State, step: Step, c: CommandId)
    requires NextStep(orders, s, t, step) && (step.Move? || step.Throw? || step.Fetch?) && HasGivenUp(s, step.p, c)
    ensures HasGivenUp(t, step.p, c)
  {
    var e, pc := s.processes[step.p].execution, s.processes[step.p].pc;
    if step.Move? {
      GivenUpMoves(orders(e), StatusOf(s, e), AttemptOf(s, step.p), pc, step.next);
    }
  }

  lemma GivenUpPersists(orders: Orders, s: State, t: State, step: Step, c: CommandId)
    requires NextStep(orders, s, t, step) && step.Persist? && HasGivenUp(s, step.p, c)
    ensures HasGivenUp(t, step.p, c)
  {
    assert GivesUp(DeadLetter) && GivesUp(Nack);
  }

  lemma GivenUpPublishes(orders: Orders, s: State, t: State, step: Step, c: CommandId)
    requires NextStep(orders, s, t, step) && step.Publish? && HasGivenUp(s, step.p, c)
    ensures HasGivenUp(t, step.p, c)
  {
  }

  lemma GivenUpRecords(orders: Orders, s: State, t: State, step: Step, c: CommandId)
    requires NextStep(orders, s, t, step) && step.RecordPublish? && HasGivenUp(s, step.p, c)
    ensures HasGivenUp(t, step.p, c)
  {
  }

  lemma GivenUpEnds(orders: Orders, s: State, t: State, step: Step, c: CommandId)
    requires NextStep(orders, s, t, step) && IsFinalStep(step) && HasGivenUp(s, step.p, c) && c in s.commands
    ensures if step.PublishDeadLetter? then DeadLettered(s, t, step.p, c) else PutBack(s, t, step.p, c)
  {
    if !step.PublishDeadLetter? {
      assert !step.PublishRetry? && step.p !in t.processes;
    }
  }

  /** p itself takes the step. */
  predicate IsStepOf(step: Step, p: ProcessId) {
    (IsWorkStep(step) || IsFinalStep(step)) && step.p == p
  }

  lemma OtherWalksLeaveAlone(orders: Orders, s: State, t: State, step: Step, p: ProcessId)
    requires step.Move? || step.Throw? || step.Fetch? || step.Publish?
    requires NextStep(orders, s, t, step) && p in s.processes && step.p != p
    ensures p in t.processes && t.processes[p] == s.processes[p]
  {
  }

  lemma OtherPersistsLeaveAlone(orders: Orders, s: State, t: State, step: Step, p: ProcessId)
    requires NextStep(orders, s, t, step) && p in s.processes && step.Persist? && step.p != p
    ensures p in t.processes && t.processes[p] == s.processes[p]
  {
  }

  lemma OtherRecordsLeaveAlone(orders: Orders, s: State, t: State, step: Step, p: ProcessId)
    requires NextStep(orders, s, t, step) && p in s.processes && step.RecordPublish? && step.p != p
    ensures p in t.processes && t.processes[p] == s.processes[p]
  {
  }

  lemma OtherEndsLeaveAlone(orders: Orders, s: State, t: State, step: Step, p: ProcessId)
    requires NextStep(orders, s, t, step) && p in s.processes && IsFinalStep(step) && step.p != p
    ensures p in t.processes && t.processes[p] == s.processes[p]
  {
  }

  lemma SurroundingsLeaveAlone(orders: Orders, s: State, t: State, step: Step, p: ProcessId)
    requires NextStep(orders, s, t, step) && p in s.processes && !IsWorkStep(step) && !IsFinalStep(step)
    ensures p in t.processes && t.processes[p] == s.processes[p]
  {
  }

  lemma OthersLeaveAlone(orders: Orders, s: State, t: State, step: Step, p: ProcessId)
    requires NextStep(orders, s, t, step) && p in s.processes && !IsStepOf(step, p)
    ensures p in t.processes && t.processes[p] == s.processes[p]
  {
    if step.Persist? {
      OtherPersistsLeaveAlone(orders, s, t, step, p);
    } else if step.RecordPublish? {
      OtherRecordsLeaveAlone(orders, s, t, step, p);
    } else if IsWorkStep(step) {
      OtherWalksLeaveAlone(orders, s, t, step, p);
    } else if IsFinalStep(step) {
      OtherEndsLeaveAlone(orders, s, t, step, p);
    } else {
      SurroundingsLeaveAlone(orders, s, t, step, p);
    }
  }

  /**
   * A command that was given up stays with its worker until it is dead-lettered,
   * or is put back to be tried again; it is never acknowledged before.
   */
  lemma GivenUpIsSettled(orders: Orders, s: State, t: State, step: Step, p: ProcessId, c: CommandId)
    requires Reachable(orders, s) && NextStep(orders, s, t, step) && HasGivenUp(s, p, c)
    ensures HasGivenUp(t, p, c) || (step == PublishDeadLetter(p) && DeadLettered(s, t, p, c)) || PutBack(s, t, p, c)
  {
    if !IsStepOf(step, p) {
      OthersLeaveAlone(orders, s, t, step, p);
    } else if step.Move? || step.Throw? || step.Fetch? {
      GivenUpWalks(orders, s, t, step, c);
    } else if step.Persist? {
      GivenUpPersists(orders, s, t, step, c);
    } else if step.Publish? {
      GivenUpPublishes(orders, s, t, step, c);
    } else if step.RecordPublish? {
      GivenUpRecords(orders, s, t, step, c);
    } else {
      ReachableHasInv(orders, s);
      CurrentlyFits(orders, s, p);
      GivenUpEnds(orders, s, t, step, c);
    }
  }

  // ---- Into the dead-letter queue ----

  /**
   * p still holds the same command of the same execution, and nothing was dead-lettered or
   * removed from the outbox meanwhile.
   */
  predicate StillHeld(s: State, t: State, p: ProcessId) {
    && p in s.processes && p in t.processes
    && t.processes[p].command == s.processes[p].command && t.processes[p].execution == s.processes[p].execution
    && t.commands == s.commands && t.deadLetters == s.deadLetters && s.outbox.Keys <= t.outbox.Keys
  }

  lemma Goes(orders: Orders, s: State, p: ProcessId, next: Pc) returns (t: State)
    requires Reachable(orders, s) && p in s.processes && NextStep(orders, s, Goto(s, p, next), Move(p, next))
    ensures Continues(orders, s, t) && Reachable(orders, t) && StandsAt(t, p, next) && StillHeld(s, t, p)
            && t.status == s.status
  {
    t := Goto(s, p, next);
    Steps(orders, s, t, Move(p, next));
  }

  lemma Delivers(orders: Orders, s: State, p: ProcessId, row: OutboxRow, after: Pc, onThrow: Pc) returns (t: State)
    requires Reachable(orders, s) && StandsAt(s, p, Send(row, after, onThrow)) && row.status != PUBLISHED
    ensures Continues(orders, s, t) && Reachable(orders, t) && StandsAt(t, p, Mark(row, true, after, onThrow))
    ensures StillHeld(s, t, p)
  {
    t := HandOver(Goto(s, p, Mark(row, true, after, onThrow)), row.message, true);
    Steps(orders, s, t, Publish(p, Delivered, true, true));
  }

  lemma MarksHeld(orders: Orders, s: State, p: ProcessId, row: OutboxRow, after: Pc, onThrow: Pc) returns (t: State)
    requires Reachable(orders, s) && StandsAt(s, p, Mark(row, true, after, onThrow))
    ensures Continues(orders, s, t) && Reachable(orders, t) && StandsAt(t, p, after) && StillHeld(s, t, p)
  {
    ReachableHasInv(orders, s);
    SentIsStored(orders, s, p);
    t := Goto(s, p, after).(outbox := MarkedPublished(s.outbox, row.message.key));
    Steps(orders, s, t, RecordPublish(p));
  }

  lemma PassesHeld(orders: Orders, s: State, p: ProcessId, row: OutboxRow, after: Pc, onThrow: Pc) returns (t: State)
    requires Reachable(orders, s) && StandsAt(s, p, Send(row, after, onThrow))
    ensures Continues(orders, s, t) && Reachable(orders, t) && StandsAt(t, p, after) && StillHeld(s, t, p)
  {
    if row.status == PUBLISHED {
      t := Goes(orders, s, p, after);
    } else {
      var u := Delivers(orders, s, p, row, after, onThrow);
      t := MarksHeld(orders, u, p, row, after, onThrow);
      ContinuesTransitive(orders, s, u, t);
    }
  }

  lemma {:induction false} FlushesRows(orders: Orders, s: State, p: ProcessId, rows: seq<OutboxRow>, after: Pc,
                                       onThrow: Pc)
    returns (t: State)
    requires Reachable(orders, s) && StandsAt(s, p, Flushing(rows, after, onThrow))
    ensures Continues(orders, s, t) && Reachable(orders, t) && StandsAt(t, p, after) && StillHeld(s, t, p)
    decreases |rows|
  {
    if rows == [] {
      t := Goes(orders, s, p, after);
    } else {
      var rest := Flushing(rows[1..], after, onThrow);
      var u := Goes(orders, s, p, Send(rows[0], rest, onThrow));
      var v := PassesHeld(orders, u, p, rows[0], rest, onThrow);
      ContinuesTransitive(orders, s, u, v);
      t := FlushesRows(orders, v, p, rows[1..], after, onThrow);
      ContinuesTransitive(orders, s, v, t);
    }
  }

  lemma OneIfPending(s: State, e: ExecutionId, key: EventKey) returns (rows: seq<OutboxRow>)
    requires IsLifecycleKey(e, key) && (key in s.outbox ==> s.outbox[key].message.key == key)
    ensures forall i :: 0 <= i < |rows| ==>
              key in s.outbox && rows[i] == s.outbox[key] && rows[i].message.key == key && rows[i].status == PENDING
    ensures key in s.outbox && s.outbox[key].status == PENDING ==> s.outbox[key] in rows
  {
    rows := if key in s.outbox && s.outbox[key].status == PENDING then [s.outbox[key]] else [];
  }

  lemma SomethingToFetch(orders: Orders, s: State, e: ExecutionId) returns (rows: seq<OutboxRow>)
    requires RowsFit(orders, s)
    ensures IsFetchResult(s, e, rows)
  {
    assert RowFits(orders, s, WorkflowStarted(e)) && RowFits(orders, s, WorkflowCompleted(e))
           && RowFits(orders, s, WorkflowFailed(e));
    var a := OneIfPending(s, e, WorkflowStarted(e));
    var b := OneIfPending(s, e, WorkflowCompleted(e));
    var c := OneIfPending(s, e, WorkflowFailed(e));
    rows := a + b + c;
  }

  lemma Flushes(orders: Orders, s: State, p: ProcessId, after: Pc, onThrow: Pc) returns (t: State)
    requires Reachable(orders, s) && StandsAt(s, p, Flush(after, onThrow))
    ensures Continues(orders, s, t) && Reachable(orders, t) && StandsAt(t, p, after) && StillHeld(s, t, p)
  {
    ReachableHasInv(orders, s);
    var rows := SomethingToFetch(orders, s, s.processes[p].execution);
    var u := Goto(s, p, Flushing(rows, after, onThrow));
    Steps(orders, s, u, Fetch(p, rows));
    t := FlushesRows(orders, u, p, rows, after, onThrow);
    ContinuesTransitive(orders, s, u, t);
  }

  /** The execution is marked failed and its failure published. */
  lemma FailsExecution(orders: Orders, s: State, p: ProcessId) returns (t: State)
    requires Reachable(orders, s) && StandsAt(s, p, FailTx)
    requires MayPersist(StatusOf(s, s.processes[p].execution), FailTx)
    ensures Continues(orders, s, t) && Reachable(orders, t) && StandsAt(t, p, DeadLetter) && StillHeld(s, t, p)
  {
    var e := s.processes[p].execution;
    var id := UnusedEventId(s);
    var rows := Upserted(s.outbox, Message(id, WorkflowFailed(e), ""));
    var row := rows[WorkflowFailed(e)];
    var u := Goto(s, p, Send(row, DeadLetter, Nack)).(outbox := rows, status := s.status[e := StatusFailed]);
    Steps(orders, s, u, Persist(p, id, ""));
    t := PassesHeld(orders, u, p, row, DeadLetter, Nack);
    ContinuesTransitive(orders, s, u, t);
  }

  lemma FindsEnded(orders: Orders, s: State, p: ProcessId) returns (t: State)
    requires Reachable(orders, s) && StandsAt(s, p, FailReload) && Ended(s, s.processes[p].execution)
    ensures Continues(orders, s, t) && Reachable(orders, t) && StandsAt(t, p, Flush(DeadLetter, Nack))
    ensures StillHeld(s, t, p)
  {
    t := Goes(orders, s, p, Flush(DeadLetter, Nack));
  }

  lemma GoesToFlush(orders: Orders, s: State, p: ProcessId) returns (t: State)
    requires Reachable(orders, s) && StandsAt(s, p, FailTx) && Ended(s, s.processes[p].execution)
    ensures Continues(orders, s, t) && Reachable(orders, t) && StandsAt(t, p, Flush(DeadLetter, Nack))
    ensures StillHeld(s, t, p)
  {
    var u := Goes(orders, s, p, FailReload);
    t := FindsEnded(orders, u, p);
    ContinuesTransitive(orders, s, u, t);
  }

  /** It had ended before: what is left of its outcome is published. */
  lemma FlushesEnded(orders: Orders, s: State, p: ProcessId) returns (t: State)
    requires Reachable(orders, s) && StandsAt(s, p, FailTx) && Ended(s, s.processes[p].execution)
    ensures Continues(orders, s, t) && Reachable(orders, t) && StandsAt(t, p, DeadLetter) && StillHeld(s, t, p)
  {
    var u := GoesToFlush(orders, s, p);
    t := Flushes(orders, u, p, DeadLetter, Nack);
    ContinuesTransitive(orders, s, u, t);
  }

  lemma DeadLetters(orders: Orders, s: State, p: ProcessId, c: CommandId) returns (t: State)
    requires Reachable(orders, s) && StandsAt(s, p, DeadLetter) && s.processes[p].command == Some(c) && c in s.commands
    ensures Continues(orders, s, t) && t.deadLetters == s.deadLetters + [s.commands[c]]
  {
    t := Goto(s, p, Ack).(deadLetters := s.deadLetters + [s.commands[c]]);
    Steps(orders, s, t, PublishDeadLetter(p));
  }

  /** A command that was given up can always get into the dead-letter queue, if its execution is stored. */
  lemma CanBeDeadLettered(orders: Orders, s: State, p: ProcessId, c: CommandId) returns (t: State)
    requires Reachable(orders, s) && StandsAt(s, p, FailTx) && s.processes[p].command == Some(c)
    requires s.processes[p].execution in s.status
    ensures c in s.commands && Continues(orders, s, t) && t.deadLetters == s.deadLetters + [s.commands[c]]
  {
    ReachableHasInv(orders, s);
    CurrentlyFits(orders, s, p);
    var e := s.processes[p].execution;
    var u: State;
    if Ended(s, e) {
      u := FlushesEnded(orders, s, p);
    } else {
      u := FailsExecution(orders, s, p);
    }
    t := DeadLetters(orders, u, p, c);
    ContinuesTransitive(orders, s, u, t);
  }

  // ---- Through all retries ----

  /** The waits that lie before a command on the given attempt. */
  function WaitsAhead(attempt: nat): nat
    decreases 3 - attempt
  {
    if attempt >= 3 then 0 else WaitBefore(attempt + 1) + WaitsAhead(attempt + 1)
  }

  /** A delivered command meets a database error. */
  lemma FailsAtOnce(orders: Orders, s: State, c: CommandId) returns (t: State, p: ProcessId)
    requires Reachable(orders, s) && c in s.commands && s.commands[c].place == Queued
    ensures Continues(orders, s, t) && Reachable(orders, t) && Catches(t, p, c, true)
    ensures t.commands == s.commands[c := s.commands[c].(place := Unacked(p))]
    ensures t.processes[p].execution == s.commands[c].execution && t.status == s.status
            && t.deadLetters == s.deadLetters
  {
    p := UnusedNumber(s.processes.Keys);
    var u := s.(commands := s.commands[c := s.commands[c].(place := Unacked(p))],
                processes := s.processes[p := Process(Some(c), s.commands[c].execution, Load)]);
    Steps(orders, s, u, Deliver(p, c));
    t := Goto(u, p, Catch(true));
    Steps(orders, u, t, Throw(p, true));
    ContinuesTransitive(orders, s, u, t);
  }

  /** The retry copy takes the command's place and waits for its turn. */
  lemma CopyGetsQueued(orders: Orders, s: State, p: ProcessId, c: CommandId) returns (t: State, copy: CommandId)
    requires Reachable(orders, s) && Catches(s, p, c, true) && s.commands[c].attempt < 3
    ensures Continues(orders, s, t) && Reachable(orders, t) && t.status == s.status && t.deadLetters == s.deadLetters
    ensures var held := s.commands[c];
            && copy in t.commands
            && t.commands[copy] == Command(held.execution, held.attempt + 1, held.origin, held.hops + 1,
                                           held.delayMs + WaitBefore(held.attempt + 1), Queued)
  {
    var s1: State;
    s1, copy := CanRetry(orders, s, p, c, true);
    RetryCopies(orders, s, s1, p, c, true, copy);
    Steps(orders, s, s1, PublishRetry(p, copy));
    var s2 := Acknowledged(s1, p);
    Steps(orders, s1, s2, Finish(p));
    ContinuesTransitive(orders, s, s1, s2);
    t := s2.(commands := s2.commands[copy := s2.commands[copy].(place := Queued)]);
    Steps(orders, s2, t, RetryExpires(copy));
    ContinuesTransitive(orders, s, s2, t);
  }

  lemma GivesUpLastAttempt(orders: Orders, s: State, p: ProcessId, c: CommandId) returns (t: State)
    requires Reachable(orders, s) && Catches(s, p, c, true) && s.commands[c].attempt >= 3
    requires s.processes[p].execution in s.status
    ensures Continues(orders, s, t) && t.deadLetters == s.deadLetters + [s.commands[c]]
  {
    var u := Goes(orders, s, p, FailTx);
    t := CanBeDeadLettered(orders, u, p, c);
    ContinuesTransitive(orders, s, u, t);
  }

  /** What a command has become after all its retries. */
  predicate IsLastOf(first: Command, last: Command) {
    && last.execution == first.execution && last.attempt == 3 && last.origin == first.origin
    && last.hops + first.attempt == first.hops + 3 && last.delayMs == first.delayMs + WaitsAhead(first.attempt)
  }

  lemma OneRetryEarlier(first: Command, next: Command, last: Command)
    requires first.attempt < 3 && IsLastOf(next, last)
    requires next.execution == first.execution && next.attempt == first.attempt + 1 && next.origin == first.origin
    requires next.hops == first.hops + 1 && next.delayMs == first.delayMs + WaitBefore(first.attempt + 1)
    ensures IsLastOf(first, last)
  {
  }

  /** A failing command has its retry copy queued. */
  lemma GetsRetried(orders: Orders, s: State, c: CommandId) returns (t: State, copy: CommandId)
    requires Reachable(orders, s) && c in s.commands && s.commands[c].place == Queued && s.commands[c].attempt < 3
    ensures Continues(orders, s, t) && Reachable(orders, t) && t.status == s.status && t.deadLetters == s.deadLetters
    ensures var held := s.commands[c];
            && copy in t.commands
            && t.commands[copy] == Command(held.execution, held.attempt + 1, held.origin, held.hops + 1,
                                           held.delayMs + WaitBefore(held.attempt + 1), Queued)
  {
    var u, p := FailsAtOnce(orders, s, c);
    t, copy := CopyGetsQueued(orders, u, p, c);
    ContinuesTransitive(orders, s, u, t);
  }

  /**
   * A queued command that fails again and again is retried up to the third retry, with all
   * waits, and then dead-lettered.
   */
  lemma {:induction false} RetriesThenDeadLetters(orders: Orders, s: State, c: CommandId) returns (t: State)
    requires Reachable(orders, s) && c in s.commands && s.commands[c].place == Queued && s.commands[c].attempt <= 3
    requires s.commands[c].execution in s.status
    ensures Continues(orders, s, t) && |t.deadLetters| == |s.deadLetters| + 1
    ensures IsLastOf(s.commands[c], t.deadLetters[|s.deadLetters|])
    decreases 3 - s.commands[c].attempt
  {
    if s.commands[c].attempt < 3 {
      var u, copy := GetsRetried(orders, s, c);
      t := RetriesThenDeadLetters(orders, u, copy);
      ContinuesTransitive(orders, s, u, t);
      OneRetryEarlier(s.commands[c], u.commands[copy], t.deadLetters[|s.deadLetters|]);
    } else {
      var u, p := FailsAtOnce(orders, s, c);
      t := GivesUpLastAttempt(orders, u, p, c);
      ContinuesTransitive(orders, s, u, t);
    }
  }

  /**
   * A request without a retry header can go through three retries, with 370 seconds of
   * waits, into the dead-letter queue.
   */
  lemma RequestCanGoThroughAllRetries(orders: Orders, s: State, e: ExecutionId, c: CommandId, header: Header)
    returns (t: State)
    requires Reachable(orders, s) && e in s.status && c !in s.commands && header.Absent?
    ensures Continues(orders, s, t) && |t.deadLetters| == |s.deadLetters| + 1
    ensures var last := t.deadLetters[|s.deadLetters|];
            && last.execution == e && last.attempt == 3 && last.origin == 0 && last.hops == 3 && last.delayMs == 370_000
  {
    var u := s.(requested := s.requested + {e}, commands := s.commands[c := Command(e, 0, 0, 0, 0, Queued)]);
    Steps(orders, s, u, RequestExecution(e, c, header));
    t := RetriesThenDeadLetters(orders, u, c);
    ContinuesTransitive(orders, s, u, t);
    assert WaitsAhead(2) == 300_000 && WaitsAhead(1) == 360_000;
  }

  // ---- Failures with a flag of their own ----

  lemma StoresNodeFailure(orders: Orders, s: State, p: ProcessId, k: nat, retryable: bool)
    returns (t: State, row: OutboxRow)
    requires Reachable(orders, s) && StandsAt(s, p, PersistNodeFailed(k, retryable))
             && k < |orders(s.processes[p].execution)|
    ensures Continues(orders, s, t) && Reachable(orders, t) && StandsAt(t, p, Send(row, Catch(retryable), Catch(true)))
    ensures StillHeld(s, t, p) && NodeFailed(s.processes[p].execution, orders(s.processes[p].execution)[k]) in t.outbox
  {
    var key := NodeFailed(s.processes[p].execution, orders(s.processes[p].execution)[k]);
    var id := UnusedEventId(s);
    var rows := Upserted(s.outbox, Message(id, key, ""));
    row := rows[key];
    t := Goto(s, p, Send(row, Catch(retryable), Catch(true))).(outbox := rows);
    Steps(orders, s, t, Persist(p, id, ""));
  }

  lemma RunningNodeIsOrdered(orders: Orders, s: State, p: ProcessId, k: nat)
    requires Reachable(orders, s) && StandsAt(s, p, ExecuteNode(k))
    ensures k < |orders(s.processes[p].execution)|
  {
    ReachableHasInv(orders, s);
    CurrentlyFits(orders, s, p);
  }

  /** A node's failure reaches the retry decision with the flag it was raised with, its event stored and dispatched. */
  lemma NodeFailureIsThrownOn(orders: Orders, s: State, p: ProcessId, k: nat, retryable: bool) returns (t: State)
    requires Reachable(orders, s) && StandsAt(s, p, ExecuteNode(k))
    ensures Continues(orders, s, t) && StandsAt(t, p, Catch(retryable)) && StillHeld(s, t, p)
    ensures k < |orders(s.processes[p].execution)|
    ensures NodeFailed(s.processes[p].execution, orders(s.processes[p].execution)[k]) in t.outbox
  {
    RunningNodeIsOrdered(orders, s, p, k);
    var u := Goes(orders, s, p, PersistNodeFailed(k, retryable));
    var v, row := StoresNodeFailure(orders, u, p, k, retryable);
    ContinuesTransitive(orders, s, u, v);
    t := PassesHeld(orders, v, p, row, Catch(retryable), Catch(true));
    ContinuesTransitive(orders, s, v, t);
  }
}
