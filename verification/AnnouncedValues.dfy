/** When the events announce the values that every worker computes with, and which values those are. */
module AnnouncedValues {
  import opened Wrappers
  import opened WorkflowDefinitions
  import opened LifecycleEvents
  import opened Outbox
  import opened RetryPolicy
  import opened ExecutionProtocol
  import opened ProtocolInvariant
  import opened ProtocolSteps
  import opened ProtocolTheorems
  import opened Recovery
  import opened JsonRecords
  import opened DagSemantics
  import opened Interpreter
  import opened NodeContents

  // ---- Agreement ----

  /** A stored event about one of the nodes p has run, or about the next one, says what p has computed. */
  ghost predicate AgreesOn(w: World, c: Computing, p: ProcessId, key: EventKey, n: nat) {
    p in c.s.processes && key in c.s.outbox && key.execution == c.s.processes[p].execution ==>
      var run := NodesRun(|w.schedule(key.execution)|, c.s.processes[p].pc);
      run.Some? && n <= run.value && n <= |ValuesOf(c, p)| ==>
        BodySays(w, key, c.s.outbox[key].message.body, ValuesOf(c, p)[..n])
  }

  ghost predicate Agrees(w: World, c: Computing) {
    forall p, key, n {:trigger AgreesOn(w, c, p, key, n)} :: AgreesOn(w, c, p, key, n)
  }

  ghost predicate AlwaysAgrees(w: World) {
    forall c {:trigger Computed(w, c)} :: Computed(w, c) ==> Agrees(w, c)
  }

  lemma SameFrontSameLast<T>(a: seq<T>, b: seq<T>, n: nat)
    requires |a| == |b| == n + 1 && a[..n] == b[..n] && a[n] == b[n]
    ensures a == b
  {
    assert a == a[..n] + [a[n]] && b == b[..n] + [b[n]];
  }

  lemma {:induction false} AttemptsAgree(w: World, e: ExecutionId, a: seq<Record>, b: seq<Record>)
    requires Functional(w) && Possible(w, e, a) && Possible(w, e, b) && |a| == |b|
    ensures a == b
    decreases |a|
  {
    if a != [] {
      var n := |a| - 1;
      PossiblePrefix(w, e, a, n);
      PossiblePrefix(w, e, b, n);
      AttemptsAgree(w, e, a[..n], b[..n]);
      assert MayCompute(w, e, a[..n], a[n]) && MayCompute(w, e, a[..n], b[n]);
      SameFrontSameLast(a, b, n);
    }
  }

  lemma OnePosition(w: World, key: EventKey, m: nat, n: nat)
    requires IsScheduled(w, key.execution) && AnnouncedAfter(w, key, m) && AnnouncedAfter(w, key, n)
    ensures m == n
  {
    var ids := IdsOf(w.schedule(key.execution));
    if key.NodeStarted? {
      assert ids[m] == ids[n];
    } else if key.NodeCompleted? {
      assert ids[m - 1] == ids[n - 1];
    }
  }

  lemma FunctionalAgrees(w: World, c: Computing)
    requires AllScheduled(w) && Functional(w) && Computed(w, c)
    ensures Agrees(w, c)
  {
    ComputedFits(w, c);
    forall p, key, n: nat ensures AgreesOn(w, c, p, key, n) {
      assert WorkerFits(w, c, p) && RowSays(w, c, key) && IsScheduled(w, key.execution);
      if p in c.s.processes && key in c.s.outbox && key.execution == c.s.processes[p].execution
         && NodesRun(|w.schedule(key.execution)|, c.s.processes[p].pc).Some? && n <= |ValuesOf(c, p)|
         && AnnouncedAfter(w, key, n) {
        SaidAgrees(w, key, c.s.outbox[key].message.body, ValuesOf(c, p), n);
      }
    }
  }

  lemma SaidAgrees(w: World, key: EventKey, body: string, values: seq<Record>, n: nat)
    requires Functional(w) && IsScheduled(w, key.execution) && IsSaid(w, key, body)
    requires Possible(w, key.execution, values) && n <= |values| && AnnouncedAfter(w, key, n)
    ensures BodySays(w, key, body, values[..n])
  {
    var said :| Possible(w, key.execution, said) && AnnouncedAfter(w, key, |said|)
                && w.contentIn(key, body) == ContentAfter(w, key, said);
    OnePosition(w, key, |said|, n);
    PossiblePrefix(w, key.execution, values, n);
    AttemptsAgree(w, key.execution, said, values[..n]);
  }

  // ---- Any possible attempt can be made ----

  ghost predicate CanBeSaid(w: World, key: EventKey, values: seq<Record>) {
    exists body :: BodySays(w, key, body, values)
  }

  /** Whatever an attempt may have computed can be written into an event's body. */
  ghost predicate AllCanBeSaid(w: World) {
    forall key: EventKey, values {:trigger CanBeSaid(w, key, values)} :: Possible(w, key.execution, values) ==>
        CanBeSaid(w, key, values)
  }

  ghost predicate WorkerAt(w: World, c: Computing, e: ExecutionId, p: ProcessId, pc: Pc, values: seq<Record>) {
    Computed(w, c) && At(c.s, e, p, StatusRunning, pc) && ValuesOf(c, p) == values
  }

  ghost predicate Later(c: Computing, d: Computing) {
    Extends(c.s, d.s) && d.s.commands == c.s.commands
  }

  lemma ComputationExtended(w: World, run: seq<Computing>, d: Computing)
    requires IsComputation(w, run) && ComputingNext(w, run[|run| - 1], d)
    ensures IsComputation(w, run + [d])
  {
    forall i: nat ensures ComputingAt(w, run + [d], i) {
      assert ComputingAt(w, run, i);
    }
  }

  lemma ComputedHasInv(w: World, c: Computing)
    requires Computed(w, c)
    ensures Inv(OrdersOf(w), c.s)
  {
    ComputedIsReachable(w, c);
    ReachableHasInv(OrdersOf(w), c.s);
  }

  lemma NextIsComputed(w: World, c: Computing, d: Computing)
    requires Computed(w, c) && ComputingNext(w, c, d)
    ensures Computed(w, d)
  {
    var run :| IsComputation(w, run) && run[|run| - 1] == c;
    ComputationExtended(w, run, d);
    assert (run + [d])[|run|] == d;
  }

  lemma Goes(w: World, c: Computing, d: Computing, step: Step)
    requires Computed(w, c) && ComputingStep(w, c, d, step)
    ensures Computed(w, d) && Extends(c.s, d.s)
  {
    assert ComputingNext(w, c, d);
    NextIsComputed(w, c, d);
    ComputedHasInv(w, c);
    StepKeepsInv(OrdersOf(w), c.s, d.s, step);
  }

  lemma LaterStill(c: Computing, d: Computing, f: Computing)
    requires Later(c, d) && Later(d, f)
    ensures Later(c, f)
  {
    ExtendsTransitive(c.s, d.s, f.s);
  }

  /** A step that neither writes nor computes. */
  lemma Walks(w: World, c: Computing, p: ProcessId, next: Pc)
    requires Computed(w, c) && p in c.s.processes && !c.s.processes[p].pc.Reload? && !c.s.processes[p].pc.ExecuteNode?
    requires var e := c.s.processes[p].execution;
             Moves(OrdersOf(w)(e), StatusOf(c.s, e), AttemptOf(c.s, p), c.s.processes[p].pc, next)
    ensures Computed(w, c.(s := Goto(c.s, p, next))) && Extends(c.s, Goto(c.s, p, next))
  {
    Goes(w, c, c.(s := Goto(c.s, p, next)), Move(p, next));
  }

  lemma WorkerMoves(w: World, c: Computing, e: ExecutionId, p: ProcessId, pc: Pc, values: seq<Record>, next: Pc)
    returns (d: Computing)
    requires WorkerAt(w, c, e, p, pc, values) && !pc.Reload? && !pc.ExecuteNode?
    requires Moves(OrdersOf(w)(e), Some(StatusRunning), AttemptOf(c.s, p), pc, next)
    ensures WorkerAt(w, d, e, p, next, values) && Later(c, d)
  {
    d := c.(s := Goto(c.s, p, next));
    Walks(w, c, p, next);
  }

  lemma WorkerComputes(w: World, c: Computing, e: ExecutionId, p: ProcessId, k: nat, values: seq<Record>,
                       output: Record) returns (d: Computing)
    requires WorkerAt(w, c, e, p, ExecuteNode(k), values) && MayCompute(w, e, values, output)
    ensures WorkerAt(w, d, e, p, PersistNodeCompleted(k), values + [output]) && Later(c, d)
  {
    d := Computing(Goto(c.s, p, PersistNodeCompleted(k)), c.values[p := values + [output]]);
    assert Computes(w, c, d, p);
    Goes(w, c, d, Move(p, PersistNodeCompleted(k)));
  }

  lemma SomeBody(w: World, key: EventKey, values: seq<Record>) returns (body: string)
    requires AllCanBeSaid(w) && (AnnouncedAfter(w, key, |values|) ==> Possible(w, key.execution, values))
    ensures BodySays(w, key, body, values)
  {
    if AnnouncedAfter(w, key, |values|) {
      assert CanBeSaid(w, key, values);
      body :| BodySays(w, key, body, values);
    } else {
      body := "";
    }
  }

  lemma NodePlacesArePossible(w: World, c: Computing, e: ExecutionId, p: ProcessId, pc: Pc, values: seq<Record>)
    requires WorkerAt(w, c, e, p, pc, values)
    ensures NodesRun(|w.schedule(e)|, pc).Some? ==> Possible(w, e, values)
  {
    ComputedFits(w, c);
    assert WorkerFits(w, c, p);
  }

  /** The state after p has written its event's row. */
  function Written(w: World, c: Computing, p: ProcessId, id: EventId, body: string): Computing
    requires p in c.s.processes
    requires PersistedKey(OrdersOf(w)(c.s.processes[p].execution), c.s.processes[p].execution,
                          c.s.processes[p].pc).Some?
  {
    var e, pc := c.s.processes[p].execution, c.s.processes[p].pc;
    var key := PersistedKey(OrdersOf(w)(e), e, pc).value;
    var rows := Upserted(c.s.outbox, Message(id, key, body));
    Computing(Goto(c.s, p, DispatchAfter(pc, rows[key])).(outbox := rows, status := StatusAfter(c.s.status, e, pc)),
              if pc.BeginTx? || pc.PersistStarted? then c.values[p := []] else c.values)
  }

  lemma Writes(w: World, c: Computing, p: ProcessId, id: EventId, body: string)
    requires Computed(w, c) && p in c.s.processes && FreshEventId(c.s, id)
    requires MayPersist(StatusOf(c.s, c.s.processes[p].execution), c.s.processes[p].pc)
    requires var e := c.s.processes[p].execution;
             var key := PersistedKey(OrdersOf(w)(e), e, c.s.processes[p].pc);
             key.Some? && BodySays(w, key.value, body, ValuesOf(c, p))
    ensures Computed(w, Written(w, c, p, id, body)) && Extends(c.s, Written(w, c, p, id, body).s)
  {
    Goes(w, c, Written(w, c, p, id, body), Persist(p, id, body));
  }

  lemma WorkerWrites(w: World, c: Computing, e: ExecutionId, p: ProcessId, pc: Pc, values: seq<Record>)
    returns (d: Computing, row: OutboxRow)
    requires AllCanBeSaid(w) && WorkerAt(w, c, e, p, pc, values)
    requires pc.PersistStarted? || pc.PersistNodeStarted? || pc.PersistNodeCompleted?
    requires PersistedKey(OrdersOf(w)(e), e, pc).Some?
    ensures WorkerAt(w, d, e, p, DispatchAfter(pc, row), if pc.PersistStarted? then [] else values) && Later(c, d)
  {
    var key := PersistedKey(OrdersOf(w)(e), e, pc).value;
    var id := UnusedEventId(c.s);
    NodePlacesArePossible(w, c, e, p, pc, values);
    var body := SomeBody(w, key, values);
    Writes(w, c, p, id, body);
    d := Written(w, c, p, id, body);
    row := d.s.outbox[key];
  }

  lemma WorkerRecords(w: World, c: Computing, e: ExecutionId, p: ProcessId, row: OutboxRow, after: Pc, onThrow: Pc,
                      values: seq<Record>)
    returns (d: Computing)
    requires WorkerAt(w, c, e, p, Mark(row, true, after, onThrow), values)
    ensures WorkerAt(w, d, e, p, after, values) && Later(c, d)
  {
    ComputedHasInv(w, c);
    SentIsStored(OrdersOf(w), c.s, p);
    d := c.(s := Goto(c.s, p, after).(outbox := MarkedPublished(c.s.outbox, row.message.key)));
    Goes(w, c, d, RecordPublish(p));
  }

  lemma WorkerHandsOver(w: World, c: Computing, e: ExecutionId, p: ProcessId, row: OutboxRow, after: Pc, onThrow: Pc,
                        values: seq<Record>)
    returns (d: Computing)
    requires WorkerAt(w, c, e, p, Send(row, after, onThrow), values) && row.status != PUBLISHED
    ensures WorkerAt(w, d, e, p, Mark(row, true, after, onThrow), values) && Later(c, d)
  {
    d := c.(s := HandOver(Goto(c.s, p, Mark(row, true, after, onThrow)), row.message, true));
    Goes(w, c, d, Publish(p, Delivered, true, true));
  }

  lemma WorkerDispatches(w: World, c: Computing, e: ExecutionId, p: ProcessId, row: OutboxRow, after: Pc, onThrow: Pc,
                         values: seq<Record>)
    returns (d: Computing)
    requires WorkerAt(w, c, e, p, Send(row, after, onThrow), values)
    ensures WorkerAt(w, d, e, p, after, values) && Later(c, d)
  {
    if row.status == PUBLISHED {
      d := WorkerMoves(w, c, e, p, Send(row, after, onThrow), values, after);
    } else {
      var u := WorkerHandsOver(w, c, e, p, row, after, onThrow, values);
      d := WorkerRecords(w, u, e, p, row, after, onThrow, values);
      LaterStill(c, u, d);
    }
  }

  lemma WorkerAnnounces(w: World, c: Computing, e: ExecutionId, p: ProcessId, pc: Pc, values: seq<Record>)
    returns (d: Computing)
    requires AllCanBeSaid(w) && WorkerAt(w, c, e, p, pc, values)
    requires pc.PersistStarted? || pc.PersistNodeStarted? || pc.PersistNodeCompleted?
    requires PersistedKey(OrdersOf(w)(e), e, pc).Some?
    ensures WorkerAt(w, d, e, p, AfterDispatch(pc), if pc.PersistStarted? then [] else values) && Later(c, d)
  {
    var u, row := WorkerWrites(w, c, e, p, pc, values);
    var send := DispatchAfter(pc, row);
    d := WorkerDispatches(w, u, e, p, row, send.after, send.onThrow, if pc.PersistStarted? then [] else values);
    LaterStill(c, u, d);
  }

  lemma WorkerStartsNode(w: World, c: Computing, e: ExecutionId, p: ProcessId, k: nat, values: seq<Record>)
    returns (d: Computing)
    requires AllCanBeSaid(w) && WorkerAt(w, c, e, p, RunNodes(k), values) && k < |w.schedule(e)|
    ensures WorkerAt(w, d, e, p, ExecuteNode(k), values) && Later(c, d)
  {
    var u := WorkerMoves(w, c, e, p, RunNodes(k), values, PersistNodeStarted(k));
    d := WorkerAnnounces(w, u, e, p, PersistNodeStarted(k), values);
    LaterStill(c, u, d);
  }

  lemma NodeHasKeys(w: World, e: ExecutionId, k: nat)
    requires k < |w.schedule(e)|
    ensures PersistedKey(OrdersOf(w)(e), e, PersistNodeStarted(k)).Some?
    ensures PersistedKey(OrdersOf(w)(e), e, PersistNodeCompleted(k)).Some?
  {
  }

  lemma WorkerAnnouncesCompletion(w: World, c: Computing, e: ExecutionId, p: ProcessId, k: nat, values: seq<Record>)
    returns (d: Computing)
    requires AllCanBeSaid(w) && WorkerAt(w, c, e, p, PersistNodeCompleted(k), values) && k < |w.schedule(e)|
    ensures WorkerAt(w, d, e, p, RunNodes(k + 1), values) && Later(c, d)
  {
    NodeHasKeys(w, e, k);
    d := WorkerAnnounces(w, c, e, p, PersistNodeCompleted(k), values);
  }

  lemma WorkerCompletesNode(w: World, c: Computing, e: ExecutionId, p: ProcessId, k: nat, values: seq<Record>,
                            output: Record) returns (d: Computing)
    requires AllCanBeSaid(w) && WorkerAt(w, c, e, p, ExecuteNode(k), values) && |values| == k
             && MayCompute(w, e, values, output)
    ensures WorkerAt(w, d, e, p, RunNodes(k + 1), values + [output]) && Later(c, d)
  {
    var u := WorkerComputes(w, c, e, p, k, values, output);
    d := WorkerAnnouncesCompletion(w, u, e, p, k, values + [output]);
    LaterStill(c, u, d);
  }

  lemma WorkerRunsNode(w: World, c: Computing, e: ExecutionId, p: ProcessId, k: nat, values: seq<Record>,
                       output: Record) returns (d: Computing)
    requires AllCanBeSaid(w) && WorkerAt(w, c, e, p, RunNodes(k), values) && |values| == k
             && MayCompute(w, e, values, output)
    ensures WorkerAt(w, d, e, p, RunNodes(k + 1), values + [output]) && Later(c, d)
  {
    var u := WorkerStartsNode(w, c, e, p, k, values);
    d := WorkerCompletesNode(w, u, e, p, k, values, output);
    LaterStill(c, u, d);
  }

  lemma OneMore<T>(s: seq<T>, k: nat)
    requires k < |s|
    ensures s[..k] + [s[k]] == s[..k + 1]
  {
  }

  lemma {:induction false} WorkerRunsNodes(w: World, c: Computing, e: ExecutionId, p: ProcessId, values: seq<Record>,
                                           k: nat)
    returns (d: Computing)
    requires AllCanBeSaid(w) && k <= |values| && WorkerAt(w, c, e, p, RunNodes(k), values[..k])
             && Possible(w, e, values)
    ensures WorkerAt(w, d, e, p, RunNodes(|values|), values) && Later(c, d)
    decreases |values| - k
  {
    if k == |values| {
      d := c;
      assert values[..k] == values;
    } else {
      var u := WorkerRunsNode(w, c, e, p, k, values[..k], values[k]);
      OneMore(values, k);
      d := WorkerRunsNodes(w, u, e, p, values, k + 1);
      LaterStill(c, u, d);
    }
  }

  // ---- Two attempts at one execution ----

  lemma RequestedTwice(w: World, e: ExecutionId) returns (c: Computing)
    ensures Computed(w, c) && StatusOf(c.s, e) == Some(StatusPending)
    ensures IsQueuedFor(c.s, e, 0) && IsQueuedFor(c.s, e, 1)
  {
    var c0 := Computing(State(map[], {}, map[], [], multiset{}, {}, {}, map[], map[], [], map[]), map[]);
    assert IsComputation(w, [c0]);
    var c1 := c0.(s := c0.s.(status := map[e := StatusPending]));
    Goes(w, c0, c1, CreateExecution(e));
    var c2 := c1.(s := c1.s.(requested := {e}, commands := map[0 := Command(e, 0, 0, 0, 0, Queued)]));
    Goes(w, c1, c2, RequestExecution(e, 0, Absent));
    c := c2.(s := c2.s.(commands := c2.s.commands[1 := Command(e, 0, 0, 0, 0, Queued)]));
    assert c2.s.requested + {e} == {e};
    Goes(w, c2, c, RequestExecution(e, 1, Absent));
  }

  lemma Loads(w: World, c: Computing, e: ExecutionId, command: CommandId) returns (d: Computing, p: ProcessId)
    requires Computed(w, c) && IsQueuedFor(c.s, e, command) && e in c.s.status
    ensures Computed(w, d) && At(d.s, e, p, c.s.status[e], Load) && Extends(c.s, d.s)
    ensures forall other :: other != command && IsQueuedFor(c.s, e, other) ==> IsQueuedFor(d.s, e, other)
  {
    p := UnusedNumber(c.s.processes.Keys);
    d := c.(s := c.s.(commands := c.s.commands[command := c.s.commands[command].(place := Unacked(p))],
                      processes := c.s.processes[p := Process(Some(command), e, Load)]));
    Goes(w, c, d, Deliver(p, command));
  }

  lemma BeginsTransaction(w: World, c: Computing, e: ExecutionId, p: ProcessId) returns (d: Computing)
    requires Computed(w, c) && At(c.s, e, p, StatusPending, Load)
    ensures Computed(w, d) && At(d.s, e, p, StatusPending, BeginTx) && Later(c, d)
  {
    d := c.(s := Goto(c.s, p, BeginTx));
    Walks(w, c, p, BeginTx);
  }

  lemma CommitsStart(w: World, c: Computing, e: ExecutionId, p: ProcessId) returns (d: Computing, row: OutboxRow)
    requires Computed(w, c) && At(c.s, e, p, StatusPending, BeginTx)
    ensures WorkerAt(w, d, e, p, DispatchAfter(BeginTx, row), []) && Later(c, d)
  {
    var id := UnusedEventId(c.s);
    Writes(w, c, p, id, "");
    d := Written(w, c, p, id, "");
    row := d.s.outbox[WorkflowStarted(e)];
  }

  /** The first worker begins the execution. */
  lemma Begins(w: World, c: Computing, e: ExecutionId, p: ProcessId) returns (d: Computing)
    requires Computed(w, c) && At(c.s, e, p, StatusPending, Load)
    ensures WorkerAt(w, d, e, p, RunNodes(0), []) && Later(c, d)
  {
    var c1 := BeginsTransaction(w, c, e, p);
    var c2, row := CommitsStart(w, c1, e, p);
    LaterStill(c, c1, c2);
    d := WorkerDispatches(w, c2, e, p, row, RunNodes(0), Catch(true), []);
    LaterStill(c, c2, d);
  }

  /** A later worker takes the execution up again. */
  lemma TakesUp(w: World, c: Computing, e: ExecutionId, p: ProcessId) returns (d: Computing)
    requires AllCanBeSaid(w) && Computed(w, c) && At(c.s, e, p, StatusRunning, Load)
    ensures WorkerAt(w, d, e, p, RunNodes(0), []) && Later(c, d)
  {
    var u := WorkerMoves(w, c, e, p, Load, ValuesOf(c, p), PersistStarted);
    d := WorkerAnnounces(w, u, e, p, PersistStarted, ValuesOf(u, p));
    LaterStill(c, u, d);
  }

  /** A waiting request is delivered and its worker runs the first nodes with the given outputs. */
  lemma Attempts(w: World, c: Computing, e: ExecutionId, command: CommandId, values: seq<Record>)
    returns (d: Computing, p: ProcessId)
    requires AllCanBeSaid(w) && Computed(w, c) && IsQueuedFor(c.s, e, command) && Possible(w, e, values)
    requires StatusOf(c.s, e) == Some(StatusPending) || StatusOf(c.s, e) == Some(StatusRunning)
    ensures WorkerAt(w, d, e, p, RunNodes(|values|), values) && Extends(c.s, d.s)
    ensures forall other :: other != command && IsQueuedFor(c.s, e, other) ==> IsQueuedFor(d.s, e, other)
  {
    var c1: Computing;
    c1, p := Loads(w, c, e, command);
    var c2: Computing;
    if c.s.status[e].StatusPending? {
      c2 := Begins(w, c1, e, p);
    } else {
      c2 := TakesUp(w, c1, e, p);
    }
    assert values[..0] == [];
    d := WorkerRunsNodes(w, c2, e, p, values, 0);
    LaterStill(c1, c2, d);
    ExtendsTransitive(c.s, c1.s, d.s);
  }

  lemma LastCompletionIsOut(w: World, c: Computing, e: ExecutionId, p: ProcessId, values: seq<Record>)
    requires WorkerAt(w, c, e, p, RunNodes(|values|), values) && 0 < |values| <= |w.schedule(e)|
    ensures var key := NodeCompleted(e, w.schedule(e)[|values| - 1].id);
            key in PublishedKeys(c.s.log) && key in c.s.outbox
  {
    var key := NodeCompleted(e, w.schedule(e)[|values| - 1].id);
    ComputedHasInv(w, c);
    CurrentlyFits(OrdersOf(w), c.s, p);
    assert key == NodeCompleted(e, OrdersOf(w)(e)[|values| - 1]);
    PublishedIsStored(OrdersOf(w), c.s, key);
  }

  /** p goes on with an output other than the one its node's published completion shows. */
  ghost predicate GoesOnWithAnother(w: World, c: Computing, e: ExecutionId, p: ProcessId, values: seq<Record>) {
    && WorkerAt(w, c, e, p, RunNodes(|values|), values) && 0 < |values| <= |w.schedule(e)|
    && var key := NodeCompleted(e, w.schedule(e)[|values| - 1].id);
       && key in PublishedKeys(c.s.log) && key in c.s.outbox
       && w.contentIn(key, c.s.outbox[key].message.body) != values[|values| - 1]
  }

  lemma ThenDisagrees(w: World, c: Computing, e: ExecutionId, p: ProcessId, values: seq<Record>)
    requires GoesOnWithAnother(w, c, e, p, values)
    ensures !Agrees(w, c)
  {
    var key := NodeCompleted(e, w.schedule(e)[|values| - 1].id);
    assert values[..|values|] == values;
    assert !AgreesOn(w, c, p, key, |values|);
  }

  /**
   * If a node an attempt can come to has two outputs, a second attempt can run
   * its successors on one while the published completion shows the other.
   */
  lemma PublishedOutputCanDiffer(w: World, e: ExecutionId, values: seq<Record>, a: Record, b: Record)
    returns (c: Computing, p: ProcessId, output: Record)
    requires AllCanBeSaid(w) && a != b
    requires Possible(w, e, values) && MayCompute(w, e, values, a) && MayCompute(w, e, values, b)
    ensures GoesOnWithAnother(w, c, e, p, values + [output])
  {
    var key := NodeCompleted(e, w.schedule(e)[|values|].id);
    PossibleExtended(w, e, values, a);
    PossibleExtended(w, e, values, b);
    var start := RequestedTwice(w, e);
    c, p := Attempts(w, start, e, 0, values + [a]);
    output := a;
    LastCompletionIsOut(w, c, e, p, values + [a]);
    if w.contentIn(key, c.s.outbox[key].message.body) == a {
      c, p := Attempts(w, c, e, 1, values + [b]);
      output := b;
      LastCompletionIsOut(w, c, e, p, values + [b]);
    }
  }

  lemma AgreementIsFunctional(w: World, e: ExecutionId, values: seq<Record>, a: Record, b: Record)
    requires AllCanBeSaid(w) && AlwaysAgrees(w)
    requires Possible(w, e, values) && MayCompute(w, e, values, a) && MayCompute(w, e, values, b)
    ensures a == b
  {
    if a != b {
      var c, p, output := PublishedOutputCanDiffer(w, e, values, a, b);
      ThenDisagrees(w, c, e, p, values + [output]);
    }
  }

  /**
   * In every run every stored event shows what every worker of the execution
   * has computed, exactly when no node an attempt can come to has two outputs.
   */
  lemma AgreesIffFunctional(w: World)
    requires AllScheduled(w) && AllCanBeSaid(w)
    ensures AlwaysAgrees(w) <==> Functional(w)
  {
    if AlwaysAgrees(w) {
      forall e, values, a, b | Possible(w, e, values) && MayCompute(w, e, values, a) && MayCompute(w, e, values, b)
        ensures a == b {
        AgreementIsFunctional(w, e, values, a, b);
      }
    }
    if Functional(w) {
      forall c {:trigger Computed(w, c)} | Computed(w, c) ensures Agrees(w, c) {
        FunctionalAgrees(w, c);
      }
    }
  }

  // ---- Which values these are ----

  /** The outputs are decided by a behaviour. */
  ghost predicate Follows(w: World, run: Behaviour) {
    forall node, input, output :: w.possible(node, input, output) <==> run(node, input) == Ok(output)
  }

  /** In an attempt that follows a behaviour every output is its node's meaning. */
  lemma {:induction false} AttemptsMean(w: World, run: Behaviour, e: ExecutionId, values: seq<Record>)
    requires IsScheduled(w, e) && Follows(w, run) && Possible(w, e, values)
    ensures LoopState(DagOf(w.definition(e)), run, w.request(e), IdsOf(w.schedule(e)), |values|,
                      OutputsAfter(w.schedule(e), values), CarriedAfter(w, e, values))
    decreases |values|
  {
    if values != [] {
      var n := |values| - 1;
      PossiblePrefix(w, e, values, n);
      AttemptsMean(w, run, e, values[..n]);
      OutputMeans(w, run, e, values[..n], values[n]);
      LoopStateStep(DagOf(w.definition(e)), run, w.request(e), IdsOf(w.schedule(e)), n,
                    OutputsAfter(w.schedule(e), values[..n]), CarriedAfter(w, e, values[..n]), values[n]);
    }
  }

  lemma InputMeans(w: World, run: Behaviour, e: ExecutionId, values: seq<Record>)
    requires IsScheduled(w, e) && |values| < |w.schedule(e)|
    requires LoopState(DagOf(w.definition(e)), run, w.request(e), IdsOf(w.schedule(e)), |values|,
                       OutputsAfter(w.schedule(e), values), CarriedAfter(w, e, values))
    ensures var v := w.schedule(e)[|values|];
            var r := RunNode(run, v, InputAfter(w, e, values));
            && InputAfter(w, e, values) == EvalInput(DagOf(w.definition(e)), run, w.request(e), v.id)
            && Eval(DagOf(w.definition(e)), run, w.request(e), v.id) == if r.Ok? then Some(r.value) else None
  {
    var env := Environment(run, (v, phase) => true, (v, phase) => true);
    LoopInput(w.definition(e), env, w.request(e), w.schedule(e), |values|, OutputsAfter(w.schedule(e), values),
              CarriedAfter(w, e, values));
  }

  lemma OutputMeans(w: World, run: Behaviour, e: ExecutionId, values: seq<Record>, output: Record)
    requires IsScheduled(w, e) && Follows(w, run) && MayCompute(w, e, values, output)
    requires LoopState(DagOf(w.definition(e)), run, w.request(e), IdsOf(w.schedule(e)), |values|,
                       OutputsAfter(w.schedule(e), values), CarriedAfter(w, e, values))
    ensures Eval(DagOf(w.definition(e)), run, w.request(e), w.schedule(e)[|values|].id) == Some(output)
  {
    InputMeans(w, run, e, values);
  }

  /** The event shows its node's meaning: the input, the output, or that of a node that nothing follows. */
  ghost predicate ShowsMeaning(w: World, run: Behaviour, key: EventKey, body: string)
    requires IsScheduled(w, key.execution)
  {
    var d, content := w.definition(key.execution), w.contentIn(key, body);
    match key
    case NodeStarted(e, v) => v in NodeIds(d) && content == EvalInput(DagOf(d), run, w.request(e), v)
    case NodeCompleted(e, v) => v in NodeIds(d) && Eval(DagOf(d), run, w.request(e), v) == Some(content)
    case WorkflowCompleted(e) => exists v :: IsSink(d, v) && Eval(DagOf(d), run, w.request(e), v) == Some(content)
    case _ => true
  }

  lemma NodesAreScheduled(w: World, e: ExecutionId, i: nat)
    requires IsScheduled(w, e) && i < |w.schedule(e)|
    ensures w.schedule(e)[i].id in NodeIds(w.definition(e))
  {
    assert w.schedule(e)[i] in w.schedule(e);
  }

  lemma ScheduleIsNotEmpty(w: World, e: ExecutionId)
    requires IsScheduled(w, e)
    ensures w.schedule(e) != []
  {
  }

  /** What is carried on after a node is that node's meaning. */
  lemma LastOutputMeans(w: World, run: Behaviour, e: ExecutionId, values: seq<Record>)
    requires IsScheduled(w, e) && Follows(w, run) && Possible(w, e, values) && values != []
    ensures var v := w.schedule(e)[|values| - 1].id;
            v in NodeIds(w.definition(e))
            && Eval(DagOf(w.definition(e)), run, w.request(e), v) == Some(CarriedAfter(w, e, values))
  {
    AttemptsMean(w, run, e, values);
    NodesAreScheduled(w, e, |values| - 1);
    assert IdsOf(w.schedule(e))[|values| - 1] == w.schedule(e)[|values| - 1].id;
  }

  lemma StartShowsMeaning(w: World, run: Behaviour, key: EventKey, body: string, values: seq<Record>)
    requires IsScheduled(w, key.execution) && Follows(w, run) && Possible(w, key.execution, values) && key.NodeStarted?
    requires AnnouncedAfter(w, key, |values|) && w.contentIn(key, body) == ContentAfter(w, key, values)
    ensures ShowsMeaning(w, run, key, body)
  {
    AttemptsMean(w, run, key.execution, values);
    InputMeans(w, run, key.execution, values);
    NodesAreScheduled(w, key.execution, |values|);
  }

  lemma CompletionShowsMeaning(w: World, run: Behaviour, key: EventKey, body: string, values: seq<Record>)
    requires IsScheduled(w, key.execution) && Follows(w, run) && Possible(w, key.execution, values) && !key.NodeStarted?
    requires AnnouncedAfter(w, key, |values|) && w.contentIn(key, body) == ContentAfter(w, key, values)
    ensures ShowsMeaning(w, run, key, body)
  {
    ScheduleIsNotEmpty(w, key.execution);
    LastOutputMeans(w, run, key.execution, values);
    if key.WorkflowCompleted? {
      LastIsSink(w.definition(key.execution), w.schedule(key.execution));
    }
  }

  lemma SaidShowsMeaning(w: World, run: Behaviour, key: EventKey, body: string)
    requires IsScheduled(w, key.execution) && Follows(w, run) && IsSaid(w, key, body)
    ensures ShowsMeaning(w, run, key, body)
  {
    var values :| Possible(w, key.execution, values) && AnnouncedAfter(w, key, |values|)
                  && w.contentIn(key, body) == ContentAfter(w, key, values);
    if key.NodeStarted? {
      StartShowsMeaning(w, run, key, body, values);
    } else {
      CompletionShowsMeaning(w, run, key, body, values);
    }
  }

  /**
   * With a behaviour that is a function, every stored event, in every run and
   * after any number of retries, shows what its node means; so does every
   * entry of the timeline.
   */
  lemma EventsShowMeanings(w: World, run: Behaviour, c: Computing, key: EventKey)
    requires AllScheduled(w) && Follows(w, run) && Computed(w, c) && key in c.s.outbox
    ensures IsScheduled(w, key.execution) && ShowsMeaning(w, run, key, c.s.outbox[key].message.body)
  {
    assert IsScheduled(w, key.execution);
    if HasContent(key) {
      ComputedFits(w, c);
      assert RowSays(w, c, key);
      SaidShowsMeaning(w, run, key, c.s.outbox[key].message.body);
    }
  }

  lemma TimelineShowsMeanings(w: World, run: Behaviour, c: Computing, id: EventId)
    requires AllScheduled(w) && Follows(w, run) && Computed(w, c) && id in c.s.timeline
    ensures var m := c.s.timeline[id]; IsScheduled(w, m.key.execution) && ShowsMeaning(w, run, m.key, m.body)
  {
    ComputedIsReachable(w, c);
    TimelineHasEachEventOnce(OrdersOf(w), c.s, id);
    EventsShowMeanings(w, run, c, c.s.timeline[id].key);
  }
}
