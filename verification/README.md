# FlowPilot: workflow graphs, their execution, and the events it produces

FlowPilot lets users draw workflows as directed graphs, checks them, and runs
them through a message queue that may deliver a command more than once, with a
transactional outbox for the lifecycle events. This project models three
connected parts of it and proves what they guarantee.

**Graphs.** `DefinitionSchema` is the schema's graph check: a pass over the
nodes, a pass over the edges, a breadth-first reachability search and a
depth-first cycle search that keeps two mutable sets. It reports exactly the
issues that are warranted, and accepts exactly the well-formed definitions.
`NodeOrder` is the worker's own ordering loop over the same graph; it succeeds
exactly when both searches of the schema would, and `ReleaseOrder` fixes which
of the possible orders it gives. `DagSemantics` says what a workflow computes
without any schedule, and `Interpreter` proves that the worker's sequential loop
computes it; `AttemptRecords` says the same of the rows an attempt leaves, with
the edges and the nodes' behaviour alone. `CanvasLayout` and `EdgeDrafts` are
the editor's layering loop and its edge edits.

**Execution protocol.** `ExecutionProtocol` is a state machine for any number of
executions, commands, workers and outbox dispatchers. A worker is the program of
`handleDelivery` and everything it calls, cut at every database statement,
publish and acknowledgement; its program counter also holds where each call
returns to, normally and by throwing. Between any two steps any other process
may run, and any process may crash. An error thrown at any statement may or may
not be retryable. `ProtocolInvariant` holds the invariant, `ProtocolSteps`
proves that each step keeps it, and `ProtocolTheorems` states what follows for
all runs. `StepEffects` spells out what single steps read, write and lead to.
`FailureHandling` and `ErrorRoutes` follow a failure: to a retry copy, to the
dead-letter queue, or back into the queue. `Recovery` shows that from every
reachable state an unfinished execution can still succeed. `StartOrder`,
`StaleCopies`, `LingeringCopies` and `GivingUp` settle three guarantees that
hold only under a condition. `NodeContents` adds the values that workers compute
to the protocol, and `AnnouncedValues` and `DifferingOutputs` settle when the
events show the values that the workers go on with.

**Outbox, timeline, history.** `Outbox` is the row-level model of the outbox
(also used, function by function, by the protocol) and of a single dispatcher's
cycles; `EventTimeline` is the consumer that stores events by event id;
`RetryPolicy` reads the retry header and picks retry queues; `VersionHistory` is
the append-only version history under interleaved callers.

## Assumptions

- Values of `randomUUID` are fresh; execution ids, being UUIDs, contain no colon.
- A database statement or transaction is atomic, and unique keys are enforced.
- A publish to the retry or dead-letter exchange that does not throw enqueues
  the message. A publish of a lifecycle event need not: backpressure may or may
  not have handed it over, and a message handed over may be lost.
- An unacknowledged delivery goes back to its queue when its worker crashes. An
  acknowledgement that throws means that the channel is gone, which counts as a crash.
- Executions are never deleted while commands or events for them are around.
- What a node computes is an arbitrary function of the node and its input,
  except that a manual trigger returns its input. In `NodeContents` it may be one of
  several outputs, chosen again in each attempt.
- All requests for an execution carry the same input.
- Numbers are unbounded; blanks before a number in a header are spaces, tabs and line ends.

## Where the code does less than one might expect

- PUBLISHED is not final: a dispatcher that copied an outbox row before it was
  published may record a failure afterwards. `StaleCopies.PublishedIsLeftIff`
  shows that this is the only step that takes a row out of PUBLISHED; the row is
  then PENDING if the copy had attempts left and FAILED otherwise.
  `StaleCopies.PublishedBecomesPending` is a run in which it happens. From a given
  state on it can still happen if and only if some process holds a copy that was not
  yet marked published, as one it is sending, one waiting in its list, or one whose
  failure it is about to record (`LingeringCopies.PublishedCanBeLeftIff`). A publish
  can therefore be repeated; the timeline still has one entry.
- A stored event keeps its first message, while a retried execution computes its nodes
  again. So a published completion can show an output other than the one the node's
  successors were run on: the two agree in every run if and only if no node that an
  attempt can come to has two possible outputs for its input
  (`AnnouncedValues.AgreesIffFunctional`). `DifferingOutputs.AnswersDiffer` is a run
  in which a prompt's completion shows one answer and a worker goes on with another.
- An accepted edit of an edge gives a graph that keeps every graph rule, provided that
  no other edge shares its id (`EdgeDrafts.EditKeepsRulesIff`), but the schema accepts
  the edited definition if and only if the generated edge id has at most 80
  characters: source and target ids together at most 76, or less by the length of a
  numeric suffix when one is needed (`EdgeDrafts.AcceptedEditIsValidIff`;
  `EdgeDrafts.AcceptedEditCanBeRefusedLater` is a refused edit).
- An edge already named `validation-edge` blocks every new edge
  (`EdgeDrafts.PlaceholderBlocksNewEdges`, with an accepted definition in
  `EdgeDrafts.PlaceholderIsTakenSomewhere`).
- The layering loop ends if and only if no cycle among listed nodes can be reached
  from where it starts (`CanvasLayout.DrainsIffOffCycles`; `CanvasLayout.LoopDiverges`
  is a definition on which it does not end). Accepted definitions have no cycle.
- `docs/contracts/events.md` (line 173) asks consumers to acknowledge after
  database writes, trace persistence or event publication have succeeded. A command
  may be acknowledged when its execution's outcome is stored but was never
  published: exactly when the outbox has given that row up.
  `ProtocolTheorems.AcknowledgedAfterPublication` and
  `GivingUp.UnpublishedCanBeAcknowledged` are the two halves, and
  `GivingUp.AcknowledgedUnpublished` is a run.
- The start of an execution is always stored before its node events are
  published (`ProtocolTheorems.StartIsStoredBeforeNodeEvents`), but it may be
  published after them: exactly when a worker that finds the execution begun by
  another one goes on to the nodes before that start is out. Without such a
  takeover the start comes first (`StartOrder.StartIsPublishedFirst`), every
  takeover of an execution with nodes opens the gap (`StartOrder.EarlyTakeoverLags`),
  and `ProtocolRuns.StartCanLag` is a run in which it does.

## Model

| member | source | states |
|---|---|---|
| DefinitionSchema.CheckNodes | packages/contracts/src/workflow-definition.ts:46-71 | collects all node ids and triggers and reports exactly the repeated ids and a missing trigger |
| DefinitionSchema.CheckEdges | packages/contracts/src/workflow-definition.ts:73-128 | reports, for each edge of any definition, exactly the warranted issues: repeated id, missing endpoints, self-loop, repeated pair text |
| DefinitionSchema.PairKeyIsInjective | packages/contracts/src/workflow-definition.ts:113-122 | for valid ids the text of a pair determines the pair, so comparing texts is comparing pairs |
| DefinitionSchema.CheckTriggers | packages/contracts/src/workflow-definition.ts:130-138 | reports exactly the triggers that some edge points to |
| DefinitionSchema.Spread | packages/contracts/src/workflow-definition.ts:165-180 | the breadth-first loop ends with a set that holds the named starts, is closed under edges between named nodes, and lies in every such set |
| DefinitionSchema.ValidateReachability | packages/contracts/src/workflow-definition.ts:159-192 | raises its issue if and only if some listed node is not found from a trigger, where the search passes over empty ids |
| DefinitionSchema.ShapedSearch | packages/contracts/src/workflow-definition.ts:168-180 | among valid ids the search finds every node if and only if every node is reachable from a trigger |
| DefinitionSchema.CycleSearch.Visit | packages/contracts/src/workflow-definition.ts:202-222 | nodes being visited form a path, visited nodes are closed under successors and free of cycles, failure means a cycle lies ahead; terminates |
| DefinitionSchema.ValidateAcyclicGraph | packages/contracts/src/workflow-definition.ts:194-234 | raises its issue if and only if a cycle can be reached from a listed node |
| DefinitionSchema.CycleRuleIsExact | packages/contracts/src/workflow-definition.ts:194-234 | when all endpoints exist the cycle rule is violated if and only if the graph has a cycle |
| DefinitionSchema.NoIssueIffAccepted | packages/contracts/src/workflow-definition.ts:39-142 | a definition is well formed if and only if no issue is warranted |
| DefinitionSchema.SafeParse | packages/contracts/src/workflow-definition.ts:39-142 | the whole check: for every definition, whatever its sizes and ids, the issues reported are exactly the warranted ones, and there are none if and only if it is accepted; the field issue is raised unless there are 1 to 100 nodes, at most 200 edges, and every id has at most 80 of the allowed characters |
| WorkflowDefinitions.CollectEdges | packages/contracts/src/workflow-definition.ts:123-127 | the maps built edge by edge hold each node's targets, in order and with repetitions, and add its in-degree to its count |
| OrderFreeRules.AcceptedIff | packages/contracts/src/workflow-definition.ts:39-142 | acceptance depends only on the field checks, the number of distinct ids and pairs, and the set of arcs |
| NodeOrder.OrderWorkflowNodes | apps/execution-worker/src/index.ts:734-792 | succeeds if and only if every node is reachable from a trigger and the graph is acyclic; then lists each node once, sources before targets, triggers first, in the order in which a first-come, first-served queue releases them |
| NodeOrder.HandleHead | apps/execution-worker/src/index.ts:757-781 | one round keeps the schedule so far correct, the counts exact and the queue complete, and either schedules a new node or shortens the queue |
| NodeOrder.ReleaseTargets | apps/execution-worker/src/index.ts:773-780 | every edge out of a finished node lowers its target's count by one, and exactly the targets that reach zero are released, in the order of the last edges to them |
| NodeOrder.LeftOverMeansInvalid | apps/execution-worker/src/index.ts:757-789 | if the loop ends with nodes left over, some node is unreachable or on a cycle |
| NodeOrder.CompleteMeansValid | apps/execution-worker/src/index.ts:757-792 | if the loop lists every node, all are reachable and there is no cycle |
| NodeOrder.OrderIsDetermined | apps/execution-worker/src/index.ts:751-792 | only one schedule is in that order, so the loop's result is fixed by the definition |
| NodeOrder.TriggersLead | apps/execution-worker/src/index.ts:751-753 | triggers run before every other node, and among themselves in the order in which they are listed |
| ReleaseOrder.StepKeepsOrder | apps/execution-worker/src/index.ts:768-780 | running the head of the queue and appending what it releases keeps nodes in the order of the last edge consumed into each |
| ReleaseOrder.NotBothWays | apps/execution-worker/src/index.ts:773-780 | of two nodes with an edge into one of them, the same nodes run so far cannot release each before the other |
| DagSemantics.SoleInput | apps/execution-worker/src/index.ts:806-808 | a node with one predecessor is given exactly that predecessor's value |
| DagSemantics.JoinInput | apps/execution-worker/src/index.ts:810-812 | a join is given one entry for each predecessor and no other, holding its value |
| DagSemantics.ReorderedIsAcceptedAlike | packages/contracts/src/workflow-definition.ts:39-142 | permuting nodes and edges does not change whether the schema accepts |
| DagSemantics.ReorderedEvaluatesAlike | apps/execution-worker/src/index.ts:601-656 | permuting nodes and edges does not change any node's value |
| Interpreter.IncomingSources | apps/execution-worker/src/index.ts:800-812 | in a graph without repeated pairs, incoming edges and predecessors correspond one to one |
| Interpreter.GatheredInput | apps/execution-worker/src/index.ts:794-813 | with all predecessors' outputs recorded, the gathered input is the meaningful one, so neither default is ever used |
| Interpreter.TriggersComeFirst | apps/execution-worker/src/index.ts:751-757 | in a schedule only triggers stand before a trigger |
| Interpreter.TriggerEvaluatesToRequest | apps/execution-worker/src/nodes/manual-trigger.ts:7-10 | every trigger's value is the request's input |
| Interpreter.OnlyTriggersStart | packages/contracts/src/workflow-definition.ts:130-141 | in an accepted definition the nodes without predecessors are exactly the triggers |
| Interpreter.FallbackIsRequest | apps/execution-worker/src/index.ts:599-604 | whenever the loop falls back on the carried input, that is still the request |
| Interpreter.LoopInput | apps/execution-worker/src/index.ts:603-604 | at every loop step the gathered input is the one the node's value is defined from |
| Interpreter.NodeExecutionTable.UpsertRunning | apps/execution-worker/src/index.ts:1095-1128 | the row is running with its input and nothing left over from earlier attempts; other rows unchanged |
| Interpreter.NodeExecutionTable.Complete | apps/execution-worker/src/index.ts:1130-1147 | the row succeeded with its output and no error, its input kept |
| Interpreter.NodeExecutionTable.Fail | apps/execution-worker/src/index.ts:1149-1165 | the row failed with its error, input and any output kept |
| Interpreter.RunScheduledNode | apps/execution-worker/src/index.ts:603-687 | one loop step: succeeds if and only if the node does, its two row updates go through and its two events get published; states the row left behind (none, running, succeeded or failed) and the error thrown in each other case |
| Interpreter.RunSchedule | apps/execution-worker/src/index.ts:598-695 | the loop: stopped after k nodes, exactly the first k succeeded with their values, node k has the row its failure leaves behind, or is untouched when it could not be marked running, and other rows are untouched |
| Interpreter.ExecuteWorkflowNodes | apps/execution-worker/src/index.ts:589-695 | one attempt with parsing and ordering: an accepted definition always gets ordered, and the attempt ends as described; any other leaves all rows alone |
| Interpreter.ParseWorkflowDefinition | apps/execution-worker/src/index.ts:719-732 | succeeds if and only if the definition is accepted |
| Interpreter.AttemptSucceedsIff | apps/execution-worker/src/index.ts:603-695 | an attempt succeeds if and only if every node has a value, its row updates go through and its events get published; then every row holds its node's value |
| Interpreter.LastIsSink | apps/execution-worker/src/index.ts:655-656 | nothing follows the last scheduled node |
| Interpreter.SingleSinkOutput | apps/execution-worker/src/index.ts:689-694 | with one sink the reported output is that sink's value, whatever schedule was followed |
| AttemptRecords.NodesHaveRun | apps/execution-worker/src/index.ts:603-656 | every node before the stopping place, and every node of a successful attempt, ran on the input made from the rows of the nodes that feed it, and its row holds the output its behaviour gave |
| AttemptRecords.FailingNodeStopsAttempt | apps/execution-worker/src/index.ts:657-685 | an action whose behaviour fails on its input makes the attempt fail, and no row after it is touched |
| AttemptRecords.ReportsLastOutput | apps/execution-worker/src/index.ts:689-694 | a successful attempt reports the number of nodes and the output in the last node's row |
| AttemptRecords.UnstartedNode | apps/execution-worker/src/index.ts:605-620 | when the start cannot be stored the row is untouched, when it cannot be published the row is running; the error is the generic retryable one |
| AttemptRecords.FailingNode | apps/execution-worker/src/index.ts:657-685 | a failed action leaves a failed row with its error, or a running row if that cannot be stored, and its own error is thrown on once its event is published |
| AttemptRecords.UnfinishedNode | apps/execution-worker/src/index.ts:622-685 | a node whose output cannot be stored or published is marked failed, keeping an output that was stored; states the row when that fails too |
| AttemptRecords.StoppedNodeIsRecorded | apps/execution-worker/src/index.ts:603-687 | an attempt stops only where an update, a publish or an action failed, at a node whose input was made from its feeders' rows, with the row and error of the three members above |
| AttemptRecords.ActionFailureIsRecorded | apps/execution-worker/src/index.ts:657-685 | an attempt stopped by a failing action has its error in the node's failed row and ends with it |
| CanvasLayout.RoundLessensWork | apps/web/src/features/workflow-canvas/workflow-canvas.tsx:478-495 | every round, which enqueues only targets that are listed nodes, lowers the number of walks starting in the queue by exactly one |
| CanvasLayout.DrainsIffOffCycles | apps/web/src/features/workflow-canvas/workflow-canvas.tsx:478-495 | on any definition the loop ends if and only if no cycle can be reached from its queue along edges into listed nodes |
| CanvasLayout.LoopDiverges | apps/web/src/features/workflow-canvas/workflow-canvas.tsx:478-495 | a concrete cyclic definition on which the loop never ends |
| CanvasLayout.MissingLoopDrains | apps/web/src/features/workflow-canvas/workflow-canvas.tsx:489-493 | with the nodes of that cycle missing from the list, the loop ends |
| CanvasLayout.RelaxTargets | apps/web/src/features/workflow-canvas/workflow-canvas.tsx:485-494 | every target is raised to at least the next level, exactly the listed ones are enqueued, other levels stay |
| CanvasLayout.Round | apps/web/src/features/workflow-canvas/workflow-canvas.tsx:479-494 | a round keeps every level the length of a walk out of listed nodes, and every listed node off the queue below its targets |
| CanvasLayout.GetNodeLevels | apps/web/src/features/workflow-canvas/workflow-canvas.tsx:458-498 | terminates whenever no cycle of listed nodes lies ahead, gives each node reached the length of a longest walk from a start: 0 without incoming edges, else one more than the highest source |
| CanvasLayout.AcceptedNodesAreLevelled | apps/web/src/features/workflow-canvas/workflow-canvas.tsx:386-390 | in accepted definitions every edge counts, the loop's requirement is met, and every node gets a level |
| CanvasLayout.PlaceNodes | apps/web/src/features/workflow-canvas/workflow-canvas.tsx:386-400 | stored positions are kept, and a node without one stands 300 to the right for each level, and 130 down for each node listed before it in the same column, so no two coincide |
| FreshIds.FirstFreeId | apps/web/src/features/workflows/workflow-detail-page.tsx:1601-1616 | terminates with an unused id: the base id if free, else the one with the least free suffix from 2 |
| FreshIds.CreateNodeId | apps/web/src/features/workflows/nodes/shared.ts:5-19 | likewise for nodes; adding a node under the id keeps node ids unique |
| FreshIds.ReadBack | apps/web/src/features/workflows/nodes/shared.ts:13-18 | a number is recovered from its decimal digits |
| FreshIds.DecimalDigits | apps/web/src/features/workflows/nodes/shared.ts:13-18 | digits stand in the usual order, the units last |
| FreshIds.SuffixesDiffer | apps/web/src/features/workflows/nodes/shared.ts:13-18 | different suffixes give different ids, which is why the search ends |
| EdgeDrafts.ValidateEdgeDraft | apps/web/src/features/workflows/workflow-definition-validation.ts:51-104 | raises no error if and only if the schema accepts the drafted definition; the quick checks never reject anything else, and which error is raised follows from the first check that fails |
| EdgeDrafts.DraftAcceptedIff | apps/web/src/features/workflows/workflow-definition-validation.ts:90-103 | exactly when a draft that replaces an edge is accepted: fitting endpoints, everything still reachable, and no way back from target to source |
| EdgeDrafts.NewEdgeAcceptedIff | apps/web/src/features/workflows/workflow-definition-validation.ts:90-103 | a new edge that fits is accepted if and only if its target does not already reach its source |
| EdgeDrafts.AcceptedEditIsValidIff | apps/web/src/features/workflows/workflow-detail-page.tsx:398-421 | replacing the edge in place after the check keeps every graph rule; the schema accepts the result if and only if the endpoints' ids, and the least free suffix if one is needed, are short enough |
| EdgeDrafts.EditedIdFitsIff | apps/web/src/features/workflows/workflow-detail-page.tsx:403-406 | the generated id has at most 80 characters if and only if the two ids have at most 76, or 75 less the digits of the least free suffix |
| EdgeDrafts.PlaceholderBlocksNewEdges | apps/web/src/features/workflows/workflow-definition-validation.ts:90-103 | while an edge is named like the placeholder, every new edge is refused |
| EdgeDrafts.PlaceholderIsTakenSomewhere | apps/web/src/features/workflows/workflow-definition-validation.ts:94-98 | an accepted definition in which that happens, and the same one under another edge id, where the new edge is accepted |
| EdgeDrafts.AcceptedEditCanBeRefusedLater | apps/web/src/features/workflows/workflow-detail-page.tsx:403-406 | a concrete accepted edit whose result the schema refuses |
| EdgeDrafts.EditKeepsRulesIff | apps/web/src/features/workflows/workflow-detail-page.tsx:398-421 | an accepted edit keeps the graph rules if and only if the selected id occurs exactly once, or not at all and every node was reachable before; the schema accepts the result if and only if, besides, the ids of an edge really replaced are short enough |
| EdgeDrafts.UpdateSelectedEdge | apps/web/src/features/workflows/workflow-detail-page.tsx:385-423 | a refused edit changes nothing; an accepted one replaces the selected edge under its own id or a fresh one built from source and target in this order; states exactly when the result keeps the graph rules and when the schema accepts it, however often the selected id occurs |
| LifecycleEvents.KeyTextIsInjective | apps/execution-worker/src/index.ts:1405-1409 | different lifecycle events never share a stored idempotency key |
| LifecycleEvents.KeyTextIs | apps/execution-worker/src/index.ts:514-1312 | the idempotency key of each of the six events, spelled out |
| Outbox.DispatchKeepsAttemptsFit | apps/execution-worker/src/index.ts:1430-1480 | whatever the age of the copy dispatched, PENDING rows keep fewer than five attempts and FAILED rows at least five |
| StaleCopies.PublishedIsLeftIff | apps/execution-worker/src/index.ts:1562-1571 | in every interleaving a published row stays published in every step but one, a failure recorded from an earlier copy; it is then pending exactly while the copy had attempts left |
| StaleCopies.PublishedCanBecomePending | apps/execution-worker/src/index.ts:1435-1480 | from any reachable state, a pending row with two attempts left can be published and become pending again |
| StaleCopies.PublishedBecomesPending | apps/execution-worker/src/index.ts:1562-1571 | a run in which a published row becomes pending again |
| LingeringCopies.StepStaysSafe | apps/execution-worker/src/index.ts:1430-1480 | every step of every process keeps a published row published and free of copies that are not marked published |
| LingeringCopies.CopyCanUnpublish | apps/execution-worker/src/index.ts:1435-1468 | whoever holds such a copy, at whatever place in a dispatch, a flush or what comes after it, can come to record its failure, which takes the row out of PUBLISHED |
| LingeringCopies.PublishedCanBeLeftIff | apps/execution-worker/src/index.ts:1435-1480 | from any reachable state with the row PUBLISHED, some continuation takes it out of PUBLISHED if and only if some process holds a copy of it that is not marked published |
| Outbox.FiveCyclesClearBatch | apps/execution-worker/src/index.ts:1488-1529 | after five cycles of a lone dispatcher, a whole batch has left PENDING, or nothing is pending |
| Outbox.CycleUsesAttempts | apps/execution-worker/src/index.ts:1504-1522 | each cycle lowers the attempts left over all pending rows by at least the number of rows fetched |
| Outbox.DrainBoundIsCeiling | apps/execution-worker/src/index.ts:1488-1502 | the bound on cycles is five times the number of batches, rounded up |
| Outbox.DrainsWithinBound | apps/execution-worker/src/index.ts:1488-1529 | with no arrivals and one dispatcher, no row is pending after that many cycles, whatever the publish results |
| Outbox.OutboxTable.constructor | apps/api/prisma/schema.prisma:167-185 | an empty outbox is valid |
| Outbox.OutboxTable.PersistOutboxEvent | apps/execution-worker/src/index.ts:1405-1428 | creates the row unless its key exists; an existing row keeps its first message |
| Outbox.OutboxTable.DispatchOutboxEvent | apps/execution-worker/src/index.ts:1430-1486 | the whole effect of dispatching a possibly stale copy: the row's status and attempts after each publish result, other rows unchanged, and what the channel accepted |
| Outbox.OutboxTable.FindPending | apps/execution-worker/src/index.ts:1493-1502 | exactly the pending rows with fewer older pending ones than the batch size, each once, older ones first |
| Outbox.OutboxTable.DispatchBatch | apps/execution-worker/src/index.ts:1507-1522 | the loop dispatches each row of a batch once and goes on after failures; the channel gets exactly the delivered messages in order, and the counts tally delivered and failed rows |
| Outbox.OutboxTable.DispatchPendingOutboxMessages | apps/execution-worker/src/index.ts:1488-1529 | a cycle gives exactly the due rows one attempt more and the status their result calls for, hands over the delivered messages of due rows in order of creation, counts those as published and the rest as failed, and fetched is the sum |
| Outbox.DueIffInBatch | apps/execution-worker/src/index.ts:1493-1502 | being in the batch means being pending with fewer older pending rows than the batch size |
| Outbox.CycleChanges | apps/execution-worker/src/index.ts:1507-1522 | what a cycle does to each row, due or not, for each publish result |
| Outbox.CycleDelivers | apps/execution-worker/src/index.ts:1507-1522 | a cycle delivers exactly the messages of due rows whose publish succeeds, in order of creation |
| RetryPolicy.AttemptRoundTrips | apps/execution-worker/src/index.ts:1733-1749 | an attempt written into a header is read back, as a number or as text |
| RetryPolicy.DecimalParses | apps/execution-worker/src/index.ts:1740-1745 | parsing a decimal text gives the number back |
| RetryPolicy.NumberIsFound | apps/execution-worker/src/index.ts:1740-1745 | a number in a text is read whatever blanks stand before it and whatever follows it |
| RetryPolicy.SignIsRead | apps/execution-worker/src/index.ts:1740-1745 | a sign right before the number counts |
| RetryPolicy.NoNumberIsFound | apps/execution-worker/src/index.ts:1740-1745 | a text without digits after blanks and sign holds no number |
| RetryPolicy.HeaderHolds | apps/execution-worker/src/index.ts:1733-1749 | a header holds the attempt it reads as; missing, fractional, negative and other headers stand for the first attempt |
| RetryPolicy.RetryHasQueue | apps/execution-worker/src/index.ts:231-235 | a failure is retried if and only if it is retryable and fewer than three retries came before, by the next attempt, which waits 10 seconds, 1 minute or 5 minutes in its own queue |
| RetryPolicy.DelayIsBounded | apps/execution-worker/src/index.ts:46-62 | whatever attempt a command starts with, the delays scheduled for it sum to at most 370 seconds |
| EventTimeline.RecordedOnce | apps/workflow-service/src/index.ts:104-124 | after any deliveries, old entries stay, each delivered id has an entry, and new entries are delivered messages |
| EventTimeline.IngestionIsOrderFree | apps/workflow-service/src/index.ts:104-124 | the same messages in any order and with any repetitions leave the same table |
| EventTimeline.IngestionIsIdempotent | apps/workflow-service/src/index.ts:104-124 | delivering everything again changes nothing |
| EventTimeline.EventStore.constructor | apps/api/prisma/schema.prisma:187-205 | an empty event table |
| EventTimeline.EventStore.PersistWorkflowExecutionEvent | apps/workflow-service/src/index.ts:104-124 | records an event of a stored execution unless its id is there; otherwise leaves the table alone |
| EventTimeline.EventStore.HandleDelivery | apps/workflow-service/src/index.ts:75-102 | acknowledges only what is in the table afterwards, requeues exactly on an outage, and discards the rest |
| ProtocolSteps.MoveFits | apps/execution-worker/src/index.ts:254-444 | wherever a worker goes without writing, what it may rely on there is justified by what it knew and by the status it read |
| ProtocolSteps.HandlerFits | apps/execution-worker/src/index.ts:202-252 | the same for every throw and the place that catches it |
| ProtocolSteps.PersistedInOrder | apps/execution-worker/src/index.ts:603-656 | when a row is written, every event that must come before its event has been published |
| ProtocolSteps.PersistKeepsOutcomes | apps/execution-worker/src/index.ts:287-315 | a transaction changes the status and adds the outcome row together, so the two always agree |
| ProtocolSteps.PersistKeepsInv | apps/execution-worker/src/index.ts:1338-1367 | writing a row, with or without a status change, keeps the invariant |
| ProtocolSteps.FetchSettles | apps/execution-worker/src/index.ts:1531-1555 | flushing an ended execution's pending rows covers its outcome, unless that was published or given up |
| ProtocolSteps.PublishKeepsInv | apps/execution-worker/src/index.ts:1435-1468 | handing a message over, or failing to, keeps the invariant |
| ProtocolSteps.RecordKeepsInv | apps/execution-worker/src/index.ts:1470-1480 | recording the result of a publish from a possibly stale copy keeps the invariant |
| ProtocolSteps.RetryKeepsInv | apps/execution-worker/src/index.ts:231-235 | sending a retry copy keeps the invariant: the copy is live before the held command counts as replaced |
| ProtocolSteps.DeadLetterKeepsInv | apps/execution-worker/src/index.ts:237-240 | dead-lettering a command keeps the invariant |
| ProtocolSteps.AckKeepsInv | apps/execution-worker/src/index.ts:219-240 | acknowledging removes only commands of ended executions and replaced commands |
| ProtocolSteps.ReleaseKeepsInv | apps/execution-worker/src/index.ts:241-250 | a negative acknowledgement, or a crash, puts the command back |
| ProtocolSteps.NothingToReject | apps/workflow-service/src/index.ts:92-101 | every event in flight belongs to a stored execution |
| ProtocolSteps.StepKeepsInv | apps/execution-worker/src/index.ts:202-444 | every step of every process keeps the whole invariant and undoes nothing stored, published or recorded |
| ProtocolTheorems.RunKeepsInv | apps/execution-worker/src/index.ts:202-444 | the invariant holds in every state of every run |
| ProtocolTheorems.RunExtends | apps/execution-worker/src/index.ts:1405-1428 | over a run, executions, terminal statuses, row messages, the log and the timeline only grow |
| ProtocolTheorems.NoExecutionIsOrphaned | apps/execution-worker/src/index.ts:202-252 | a requested execution that has not ended, or does not exist, always has a command queued, delayed, or held by a worker that has not passed it on |
| ProtocolTheorems.AcknowledgedAfterPublication | apps/execution-worker/src/index.ts:218-240 | a command is acknowledged without a retry copy only when its execution ended and its outcome was published or given up by the outbox |
| ProtocolTheorems.TerminalStatusIsFinal | apps/execution-worker/src/index.ts:1338-1354 | a terminal status never changes again |
| ProtocolTheorems.OutcomeRowsMatchStatus | apps/execution-worker/src/index.ts:375-404 | a completed row exists if and only if the status is SUCCEEDED, a failed row if and only if FAILED; RUNNING and SUCCEEDED have a started row |
| ProtocolTheorems.OneOutcomeIsPublished | apps/execution-worker/src/index.ts:1338-1392 | a published outcome is the execution's status, so a run never publishes both |
| ProtocolTheorems.ArcsPublishInOrder | apps/execution-worker/src/index.ts:603-656 | in every interleaving, and for any order that puts sources first, a node's start is published only after the completions of all its predecessors |
| ProtocolTheorems.EdgesPublishInOrder | apps/execution-worker/src/index.ts:598-656 | the same for every edge of a definition whose execution follows a schedule |
| ProtocolTheorems.StartPublishedBeforeOutcome | apps/execution-worker/src/index.ts:1167-1224 | a node's completion or failure is published only after its start |
| ProtocolTheorems.CompletionIsPublishedLast | apps/execution-worker/src/index.ts:361-438 | an execution's completion is published only after the completion of every node in its order, which a schedule fills with all nodes |
| ProtocolTheorems.StartIsStoredBeforeNodeEvents | apps/execution-worker/src/index.ts:284-359 | when a node event is published, the execution's start is stored |
| ProtocolTheorems.OutboxRowsAreHonest | apps/execution-worker/src/index.ts:1430-1480 | with stale copies and any interleaving: messages never change, PENDING has attempts left, FAILED has none, PUBLISHED was handed to the channel |
| ProtocolTheorems.RetriesAreBounded | apps/execution-worker/src/index.ts:1591-1604 | whatever the redeliveries and crashes, no command goes through more than three retries or 370 seconds of scheduled delay |
| ProtocolTheorems.DeadLetteredExecutionsHaveEnded | apps/execution-worker/src/index.ts:1369-1391 | a dead-lettered command belongs to an execution that has ended |
| ProtocolTheorems.TimelineHasEachEventOnce | apps/workflow-service/src/index.ts:104-124 | at most one timeline entry for each event, equal to the message fixed when its outbox row was created |
| ProtocolTheorems.TimelineIsComplete | apps/workflow-service/src/index.ts:104-124 | when nothing is in flight and nothing was lost, a row's event is in the timeline, with the row's message, if and only if it was ever handed to the channel |
| ProtocolTheorems.TimelineEntriesStay | apps/workflow-service/src/index.ts:104-111 | a timeline entry is never changed or removed |
| ProtocolTheorems.NoEventIsRejected | apps/workflow-service/src/index.ts:92-101 | the consumer never discards an event for want of its execution |
| FailureHandling.RetriedIff | apps/execution-worker/src/index.ts:231-235 | a worker that caught a failure can send a retry copy if and only if the failure is retryable and the command is on one of its first three attempts |
| FailureHandling.RetryCopies | apps/execution-worker/src/index.ts:1591-1640 | the retry copy is the next attempt of the same request, with its wait added, and nothing else changes |
| FailureHandling.GivenUpIff | apps/execution-worker/src/index.ts:231-240 | otherwise, and only then, the worker goes on to fail the execution |
| FailureHandling.GivenUpIsSettled | apps/execution-worker/src/index.ts:236-250 | a command that was given up stays with its worker until it is dead-lettered, or put back as it was |
| FailureHandling.CanBeDeadLettered | apps/execution-worker/src/index.ts:236-240 | from every reachable state, a command that was given up can get into the dead-letter queue if its execution is stored |
| FailureHandling.RetriesThenDeadLetters | apps/execution-worker/src/index.ts:224-252 | a queued command of a stored execution can fail through all its retries, with all their waits, into the dead-letter queue |
| FailureHandling.RequestCanGoThroughAllRetries | apps/execution-worker/src/index.ts:46-62 | a request without a retry header can go through three retries and 370 seconds of waits into the dead-letter queue |
| FailureHandling.NodeFailureIsThrownOn | apps/execution-worker/src/index.ts:657-685 | a node's failure can reach the retry decision with its own flag, its event stored |
| ErrorRoutes.StepKeepsExits | apps/execution-worker/src/index.ts:202-444 | every step keeps each dispatch, however deep in a flush, returning to the place that handles its error |
| ErrorRoutes.FailedDispatchLeads | apps/execution-worker/src/index.ts:1430-1468 | in every reachable state an error in a dispatch makes the node fail retryably, puts a given-up command back, stops a dispatcher, or is a retryable failure, by what the dispatch was for |
| ErrorRoutes.RecordedPublishLeads | apps/execution-worker/src/index.ts:1435-1480 | a publish that failed leads there once recorded, one that went well leads on |
| ErrorRoutes.ErrorsLead | apps/execution-worker/src/index.ts:202-252 | where an error at any other statement leads, with which flag |
| StepEffects.LookupsLead | apps/execution-worker/src/index.ts:254-359 | where a worker goes after each lookup of its execution, for every status it can find |
| StepEffects.WorkLeads | apps/execution-worker/src/index.ts:598-695 | where a worker goes between the statements of the node loop, and when a conditional update changes nothing |
| StepEffects.TransactionsWrite | apps/execution-worker/src/index.ts:287-315 | each transaction changes the status it asks for together with its row, and its row is dispatched next, with the place that follows |
| StepEffects.EventsWrite | apps/execution-worker/src/index.ts:1167-1224 | every other event writes its own row if that is missing and nothing else, and the stored row is dispatched next |
| StepEffects.DeliveriesEnd | apps/execution-worker/src/index.ts:219-250 | an acknowledgement removes the command, a negative one or a crash puts it back, and nothing else ends a delivery |
| StepEffects.FetchGetsPending | apps/execution-worker/src/index.ts:1531-1555 | a flush fetches exactly the pending rows of its execution's own three events |
| StepEffects.PublishHandsOver | apps/execution-worker/src/index.ts:1435-1468 | an accepted message is handed over and one whose publish threw is not |
| StepEffects.EveryOutcomeIsPossible | apps/execution-worker/src/index.ts:1435-1468 | each outcome of a publish is possible, and backpressure with and without the message handed over |
| StartOrder.MovesAmongNodes | apps/execution-worker/src/index.ts:254-359 | a worker gets among the nodes without the start being out only by taking over an execution begun by another |
| StartOrder.StepKeepsLead | apps/execution-worker/src/index.ts:202-444 | every step but an early takeover keeps the start ahead of all workers among the nodes, all node rows and all published node events |
| StartOrder.StartIsPublishedFirst | apps/execution-worker/src/index.ts:284-359 | in runs without an early takeover an execution's start is published before any of its node events |
| StartOrder.EarlyTakeoverLags | apps/execution-worker/src/index.ts:317-336 | after any early takeover, from a reachable state, of an execution with nodes, a node event can be published while the start is not out |
| ProtocolRuns.EarlyTakeoverHappens | apps/execution-worker/src/index.ts:317-336 | a concrete reachable state with two workers has an early takeover as its next step |
| ProtocolRuns.StartCanLag | apps/execution-worker/src/index.ts:317-336 | a reachable state has a node event published and the execution's start not |
| Recovery.DispatchesWell | apps/execution-worker/src/index.ts:1430-1480 | wherever a worker is about to dispatch a row, fresh or stale, it can return normally with the event published |
| Recovery.RunsToTheEnd | apps/execution-worker/src/index.ts:361-438 | from any node on, a worker can run the remaining nodes and end with the execution succeeded and its completion published |
| Recovery.GetsQueued | apps/execution-worker/src/index.ts:202-252 | a live command, delayed or held, can come back to its queue with no status changed |
| Recovery.CanStillSucceed | apps/execution-worker/src/index.ts:202-444 | from every reachable state, whatever went wrong, a requested execution that has not ended can still succeed with its completion published |
| GivingUp.RowGetsGivenUp | apps/execution-worker/src/index.ts:1557-1580 | any pending row can use up its attempts: it is then marked failed and recorded as given up, and every other part of the state, with every other row and the log, is as before |
| GivingUp.UnpublishedCanBeAcknowledged | apps/execution-worker/src/index.ts:270-277 | once an execution has ended, a queued command for it can come to be acknowledged with nothing more published; an outcome that was not published before has then been given up |
| GivingUp.FailsUnpublished | apps/execution-worker/src/index.ts:1338-1394 | a worker can fail an execution and crash before publishing that, which puts its command back in the queue |
| GivingUp.AcknowledgedUnpublished | apps/execution-worker/src/index.ts:237-240 | a run in which the only command of a failed execution is about to be acknowledged and nothing was ever published |
| NodeContents.StepKeepsContents | apps/execution-worker/src/index.ts:598-656 | every step keeps each worker among the nodes in possession of outputs that one attempt may have, one for each node run so far, and each stored event about a node or the whole execution saying what some attempt may have computed |
| NodeContents.ComputedIsReachable | apps/execution-worker/src/index.ts:598-656 | forgetting the values, every state reached with them is a reachable state of the protocol, so all its theorems apply |
| AnnouncedValues.PublishedOutputCanDiffer | apps/execution-worker/src/index.ts:1405-1428 | if a node that an attempt can come to has two possible outputs, a reachable worker goes on with one while the published completion shows another |
| AnnouncedValues.AgreesIffFunctional | apps/execution-worker/src/index.ts:626-656 | in every run every stored event shows what every worker of its execution has computed, if and only if no node that an attempt can come to has two possible outputs |
| AnnouncedValues.AttemptsMean | apps/execution-worker/src/index.ts:598-656 | when outputs follow a behaviour, the outputs of every possible attempt are the values of its nodes |
| AnnouncedValues.EventsShowMeanings | apps/execution-worker/src/index.ts:1226-1287 | when outputs follow a behaviour, in every run and after any retries, a stored start shows the node's input, a stored completion its value, and the execution's completion the value of a node that nothing follows |
| AnnouncedValues.TimelineShowsMeanings | apps/workflow-service/src/index.ts:104-124 | the same for every entry of the timeline |
| DifferingOutputs.AnswersDiffer | apps/execution-worker/src/index.ts:1411-1416 | a concrete definition and a run in which the published completion of a prompt shows one answer and a worker goes on with another |
| VersionHistory.DefaultIsAccepted | packages/contracts/src/workflow-definition.ts:147-157 | the default definition is accepted by the schema |
| VersionHistory.StepKeepsNumbers | apps/api/src/modules/workflows/workflows.service.ts:138-223 | every step of every call keeps the versions consecutive and unique, and changes nothing stored |
| VersionHistory.StepKeepsAccepted | apps/api/src/modules/workflows/workflows.service.ts:30-223 | every step keeps all stored definitions, and those about to be stored, accepted |
| VersionHistory.HistoryIsAppendOnly | apps/api/src/modules/workflows/workflows.service.ts:138-223 | over a run versions and executions are only ever added |
| VersionHistory.VersionsAreConsecutive | apps/api/prisma/schema.prisma:107 | in every interleaving a workflow's versions are numbered exactly 1 to the current one, each number once |
| VersionHistory.SameReadOnlyOneWins | apps/api/src/modules/workflows/workflows.service.ts:156-172 | of the calls that read the same current version, at most one adds a version |
| VersionHistory.RestoreCopiesSource | apps/api/src/modules/workflows/workflows.service.ts:190-220 | a restored version is a new one with the definition of its source, which is unchanged |
| VersionHistory.CreatedVersionIsInput | apps/api/src/modules/workflows/workflows.service.ts:138-175 | a version added by a call holds the definition the call was given, under the number after the one it read, ever after |
| VersionHistory.RestoredVersionIsSource | apps/api/src/modules/workflows/workflows.service.ts:177-223 | a restored version holds the definition of the version named, which belongs to the same workflow, under the number after the one read |
| VersionHistory.FirstVersionIsGiven | apps/api/src/modules/workflows/workflows.service.ts:30-64 | a new workflow has version 1 with the definition given, or with a lone manual trigger when none is given |
| VersionHistory.ExecutionKeepsVersion | apps/api/src/modules/workflows/workflows.service.ts:225-265 | an execution refers for ever to the version that was current when its request looked it up |
| VersionHistory.InsertableIff | apps/api/src/modules/workflows/workflows.service.ts:156-172 | a call can add its version if and only if no version of the workflow has a higher number than the one it read |
| VersionHistory.CallStays | apps/api/src/modules/workflows/workflows.service.ts:138-265 | what a call has read stays with it until it ends or finds its source |
| VersionHistory.CanAddVersion | apps/api/src/modules/workflows/workflows.service.ts:138-175 | from every state of every run a version with any accepted definition can be added to any stored workflow |
| VersionHistory.CanRestoreVersion | apps/api/src/modules/workflows/workflows.service.ts:177-223 | so can a copy of any of its versions |
| VersionHistory.CanRequestExecution | apps/api/src/modules/workflows/workflows.service.ts:225-265 | and an execution of its current version can be created |
| VersionHistory.ExecutionsAreOrderable | apps/api/src/modules/workflows/workflows.service.ts:225-265 | every execution refers to a stored version whose definition is accepted and can be put in order |

## Left out

- Delivery handling and transitions as methods: `handleDelivery`, `processWorkflowExecution` and `failWorkflowExecution` are steps of a state machine, because what matters about them is what happens between their statements; the outbox, the timeline and the node rows are classes.
- Liveness: the protocol says what never happens, what stays true and what can still happen, not that a run goes on.
- Node rows in the protocol: `Interpreter` describes them for one attempt with no other worker on the execution; concurrent attempts may overwrite each other's node rows.
- Message contents other than the inputs and outputs of `NodeContents`: bodies are opaque texts, failure events are not tied to the errors they report, and parsing of commands and events is not modelled beyond its result.
- The bodies of HTTP, condition, transform and AI prompt nodes: arbitrary functions.
- AI traces, the AI orchestrator, token and cost estimates: best effort, with errors swallowed.
- The simulated failure hook in the worker (`apps/execution-worker/src/index.ts:697-717`): off outside demonstrations.
- Malformed deliveries in the worker: dead-lettered and acknowledged without touching any state of the model.
- The background dispatcher's batches in the protocol: each row of a batch is a dispatcher process of its own, which allows more interleavings than the loop does; the batches themselves are in `Outbox`.
- Order and wording of schema issues across nodes and edges, and node configuration checks: issues are compared as sets. Fields of a wrong type and unknown fields, on which the schema stops before its graph rules, cannot be written down in the model.
- Workspaces, slugs, metadata, access control and everything else in the API: separate from the version history.
- The React user interface apart from the functions named above.
- VersionHistory.SameReadOnlyOneWins: speaks about calls that have reached their insert; how the losing call reports its conflict is not modelled.
