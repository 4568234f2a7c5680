/**
 * The version history of workflows as a state machine: callers first read the
 * current version and later insert its successor, in any interleaving, under
 * the unique key of workflow and version number.
 */
module VersionHistory {
  import opened Wrappers
  import opened Digraph
  import opened WorkflowDefinitions
  import opened NodeOrder

  type WorkflowId = string
  type VersionId = string
  type RunId = string
  type CallerId = nat

  const DEFAULT_WORKFLOW_DEFINITION :=
      WorkflowDefinition([WorkflowNode("manual-trigger", ManualTrigger, "Manual Trigger", None)], [])

  datatype Version = Version(workflow: WorkflowId, number: int, definition: WorkflowDefinition)

  /** A call between its database statements, with what it has read so far. */
  datatype Call =
    | Restoring(workflow: WorkflowId, current: int, source: VersionId)
    | Adding(workflow: WorkflowId, current: int, definition: WorkflowDefinition)
    | Requesting(version: VersionId)

  datatype History = History(versions: map<VersionId, Version>, executions: map<RunId, VersionId>,
                             calls: map<CallerId, Call>)

  predicate HasNumber(h: History, w: WorkflowId, k: int) {
    exists id :: id in h.versions && h.versions[id].workflow == w && h.versions[id].number == k
  }

  /** The version a descending sort by number lists first. */
  predicate IsCurrent(h: History, w: WorkflowId, id: VersionId) {
    && id in h.versions && h.versions[id].workflow == w
    && forall other :: other in h.versions && h.versions[other].workflow == w ==>
        h.versions[other].number <= h.versions[id].number
  }

  datatype Step =
    | Create(w: WorkflowId, id: VersionId, initial: Option<WorkflowDefinition>)
    | ReadForCreate(p: CallerId, w: WorkflowId, current: VersionId, input: WorkflowDefinition)
    | ReadForRestore(p: CallerId, w: WorkflowId, current: VersionId, source: VersionId)
    | FindSource(p: CallerId)
    | Insert(p: CallerId, id: VersionId)
    | ReadForRequest(p: CallerId, w: WorkflowId, current: VersionId)
    | CreateExecution(p: CallerId, run: RunId)
    | End(p: CallerId)

  /**
   * Definitions given by clients have passed the schema; new ids are fresh; a taken version
   * number makes the insert fail.
   */
  ghost predicate NextStep(h: History, g: History, step: Step) {
    match step
    case Create(w, id, initial) =>
      && (forall other :: other in h.versions ==> h.versions[other].workflow != w)
      && id !in h.versions && (initial.Some? ==> Accepted(initial.value))
      && g == h.(versions :=
                 h.versions[id := Version(w, 1, if initial.Some? then initial.value else DEFAULT_WORKFLOW_DEFINITION)])
    case ReadForCreate(p, w, current, input) =>
      && p !in h.calls && IsCurrent(h, w, current) && Accepted(input)
      && g == h.(calls := h.calls[p := Adding(w, h.versions[current].number, input)])
    case ReadForRestore(p, w, current, source) =>
      && p !in h.calls && IsCurrent(h, w, current)
      && g == h.(calls := h.calls[p := Restoring(w, h.versions[current].number, source)])
    case FindSource(p) =>
      && p in h.calls && h.calls[p].Restoring?
      && var call := h.calls[p];
         call.source in h.versions && h.versions[call.source].workflow == call.workflow
         && g == h.(calls := h.calls[p := Adding(call.workflow, call.current, h.versions[call.source].definition)])
    case Insert(p, id) =>
      && p in h.calls && h.calls[p].Adding? && id !in h.versions
      && var call := h.calls[p];
         !HasNumber(h, call.workflow, call.current + 1)
         && g == h.(versions := h.versions[id := Version(call.workflow, call.current + 1, call.definition)],
                    calls := h.calls - {p})
    case ReadForRequest(p, w, current) =>
      && p !in h.calls && IsCurrent(h, w, current)
      && g == h.(calls := h.calls[p := Requesting(current)])
    case CreateExecution(p, run) =>
      && p in h.calls && h.calls[p].Requesting? && run !in h.executions
      && g == h.(executions := h.executions[run := h.calls[p].version], calls := h.calls - {p})
    case End(p) => p in h.calls && g == h.(calls := h.calls - {p})
  }

  ghost predicate Init(h: History) {
    h == History(map[], map[], map[])
  }

  ghost predicate Next(h: History, g: History) {
    exists step :: NextStep(h, g, step)
  }

  /** The i-th step of a run, if the run is that long. */
  ghost predicate NextAt(run: seq<History>, i: nat) {
    i + 1 < |run| ==> Next(run[i], run[i + 1])
  }

  ghost predicate IsRun(run: seq<History>) {
    && |run| > 0 && Init(run[0])
    && forall i: nat :: NextAt(run, i)
  }

  // ---- The invariant ----

  predicate SameNumber(a: Version, b: Version) {
    a.workflow == b.workflow && a.number == b.number
  }

  ghost predicate NumberedOnce(h: History) {
    forall a, b :: a in h.versions && b in h.versions && SameNumber(h.versions[a], h.versions[b]) ==> a == b
  }

  /** Workflow w has every version from the first up to n. */
  ghost predicate FromOneTo(h: History, w: WorkflowId, n: int) {
    n >= 1 && forall k :: 1 <= k <= n ==> HasNumber(h, w, k)
  }

  ghost predicate NumberedFromOne(h: History) {
    forall id :: id in h.versions ==> FromOneTo(h, h.versions[id].workflow, h.versions[id].number)
  }

  ghost predicate CallFits(h: History, call: Call) {
    match call
    case Restoring(w, current, _) => HasNumber(h, w, current)
    case Adding(w, current, _) => HasNumber(h, w, current)
    case Requesting(version) => version in h.versions
  }

  ghost predicate Numbered(h: History) {
    && NumberedOnce(h) && NumberedFromOne(h)
    && (forall p :: p in h.calls ==> CallFits(h, h.calls[p]))
    && (forall run :: run in h.executions ==> h.executions[run] in h.versions)
  }

  /** The stored definitions and those about to be stored. */
  ghost predicate AllAccepted(h: History) {
    && (forall id :: id in h.versions ==> Accepted(h.versions[id].definition))
    && (forall p :: p in h.calls && h.calls[p].Adding? ==> Accepted(h.calls[p].definition))
  }

  /** Versions and executions are only ever added. */
  ghost predicate Extends(h: History, g: History) {
    && (forall id :: id in h.versions ==> id in g.versions && g.versions[id] == h.versions[id])
    && (forall run :: run in h.executions ==> run in g.executions && g.executions[run] == h.executions[run])
  }

  lemma NumbersStay(h: History, g: History, w: WorkflowId, k: int)
    requires Extends(h, g) && HasNumber(h, w, k)
    ensures HasNumber(g, w, k)
  {
    var id :| id in h.versions && h.versions[id].workflow == w && h.versions[id].number == k;
    assert id in g.versions;
  }

  lemma CallStillFits(h: History, g: History, call: Call)
    requires Extends(h, g) && CallFits(h, call)
    ensures CallFits(g, call)
  {
    if !call.Requesting? {
      NumbersStay(h, g, call.workflow, call.current);
    }
  }

  lemma CallsStillFit(h: History, g: History, p: CallerId)
    requires Numbered(h) && Extends(h, g) && (p in g.calls ==> CallFits(g, g.calls[p]))
    requires forall q :: q in g.calls && q != p ==> q in h.calls && g.calls[q] == h.calls[q]
    ensures forall q :: q in g.calls ==> CallFits(g, g.calls[q])
  {
    forall q | q in g.calls && q != p ensures CallFits(g, g.calls[q]) {
      CallStillFits(h, g, h.calls[q]);
    }
  }

  lemma FromOneStays(h: History, g: History, w: WorkflowId, n: int)
    requires Extends(h, g) && FromOneTo(h, w, n)
    ensures FromOneTo(g, w, n)
  {
    forall k | 1 <= k <= n ensures HasNumber(g, w, k) {
      NumbersStay(h, g, w, k);
    }
  }

  lemma NumberKnown(h: History, w: WorkflowId, k: int)
    requires NumberedFromOne(h) && HasNumber(h, w, k)
    ensures FromOneTo(h, w, k)
  {
    var id :| id in h.versions && h.versions[id].workflow == w && h.versions[id].number == k;
  }

  /** A new version directly follows an existing one, or is the first. */
  lemma VersionAdded(h: History, g: History, id: VersionId, version: Version)
    requires NumberedOnce(h) && NumberedFromOne(h) && id !in h.versions && g.versions == h.versions[id := version]
             && Extends(h, g)
    requires !HasNumber(h, version.workflow, version.number)
    requires version.number == 1 || HasNumber(h, version.workflow, version.number - 1)
    ensures NumberedOnce(g) && NumberedFromOne(g)
  {
    assert id in g.versions && HasNumber(g, version.workflow, version.number);
    if version.number != 1 {
      NumberKnown(h, version.workflow, version.number - 1);
      FromOneStays(h, g, version.workflow, version.number - 1);
    }
    assert FromOneTo(g, version.workflow, version.number);
    forall other | other in h.versions ensures FromOneTo(g, g.versions[other].workflow, g.versions[other].number) {
      FromOneStays(h, g, h.versions[other].workflow, h.versions[other].number);
    }
  }

  lemma DefaultIsAccepted()
    ensures Accepted(DEFAULT_WORKFLOW_DEFINITION)
  {
    var d := DEFAULT_WORKFLOW_DEFINITION;
    var id := "manual-trigger";
    assert d.nodes[0].id == id && d.nodes[0] in d.nodes;
    assert NodeIds(d) == {id} && TriggerIds(d) == {id};
    assert ArcsOf(d.edges) == {};
    assert Walk(ArcsOf(d.edges), id, id, 0);
    assert ReachableFromTrigger(d, id);
    forall v ensures !OnCycle(ArcsOf(d.edges), v) {
    }
    assert forall i :: 0 <= i < |id| ==> IsIdChar(id[i]);
  }

  // ---- Every step keeps the invariant ----

  lemma NumberingKept(h: History, g: History)
    requires NumberedFromOne(h) && g.versions == h.versions && Extends(h, g)
    ensures NumberedFromOne(g)
  {
    forall id | id in g.versions ensures FromOneTo(g, g.versions[id].workflow, g.versions[id].number) {
      FromOneStays(h, g, h.versions[id].workflow, h.versions[id].number);
    }
  }

  lemma VersionStored(h: History, g: History, id: VersionId, version: Version)
    requires Numbered(h) && id !in h.versions && g.versions == h.versions[id := version] && g.executions == h.executions
    requires forall q :: q in g.calls ==> q in h.calls && g.calls[q] == h.calls[q]
    requires !HasNumber(h, version.workflow, version.number)
    requires version.number == 1 || HasNumber(h, version.workflow, version.number - 1)
    ensures Numbered(g) && Extends(h, g)
  {
    VersionAdded(h, g, id, version);
    forall q | q in g.calls ensures CallFits(g, g.calls[q]) {
      CallStillFits(h, g, h.calls[q]);
    }
  }

  lemma CallStarted(h: History, g: History, p: CallerId, call: Call)
    requires Numbered(h) && g == h.(calls := h.calls[p := call]) && CallFits(h, call)
    ensures Numbered(g) && Extends(h, g)
  {
    CallStillFits(h, g, call);
    CallsStillFit(h, g, p);
    NumberingKept(h, g);
  }

  lemma CallEnded(h: History, g: History, p: CallerId)
    requires Numbered(h) && g.versions == h.versions && g.calls == h.calls - {p}
    requires forall run :: run in h.executions ==> run in g.executions && g.executions[run] == h.executions[run]
    requires forall run :: run in g.executions && run !in h.executions ==> g.executions[run] in h.versions
    ensures Numbered(g) && Extends(h, g)
  {
    CallsStillFit(h, g, p);
    NumberingKept(h, g);
  }

  lemma CreateKeepsNumbers(h: History, g: History, w: WorkflowId, id: VersionId, initial: Option<WorkflowDefinition>)
    requires Numbered(h) && NextStep(h, g, Create(w, id, initial))
    ensures Numbered(g) && Extends(h, g)
  {
    VersionStored(h, g, id, g.versions[id]);
  }

  lemma AddKeepsNumbers(h: History, g: History, p: CallerId, id: VersionId)
    requires Numbered(h) && NextStep(h, g, Insert(p, id))
    ensures Numbered(g) && Extends(h, g)
  {
    assert CallFits(h, h.calls[p]);
    VersionStored(h, g, id, g.versions[id]);
  }

  /** What a call has read stays true. */
  lemma ReadKeepsNumbers(h: History, g: History, step: Step)
    requires Numbered(h) && NextStep(h, g, step)
    requires step.ReadForCreate? || step.ReadForRestore? || step.FindSource? || step.ReadForRequest?
    ensures Numbered(g) && Extends(h, g)
  {
    if step.FindSource? {
      assert CallFits(h, h.calls[step.p]);
    } else {
      assert HasNumber(h, step.w, h.versions[step.current].number);
    }
    CallStarted(h, g, step.p, g.calls[step.p]);
  }

  lemma EndKeepsNumbers(h: History, g: History, step: Step)
    requires Numbered(h) && NextStep(h, g, step) && (step.CreateExecution? || step.End?)
    ensures Numbered(g) && Extends(h, g)
  {
    assert CallFits(h, h.calls[step.p]);
    CallEnded(h, g, step.p);
  }

  lemma StepKeepsNumbers(h: History, g: History, step: Step)
    requires Numbered(h) && NextStep(h, g, step)
    ensures Numbered(g) && Extends(h, g)
  {
    match step
    case Create(w, id, initial) => CreateKeepsNumbers(h, g, w, id, initial);
    case Insert(p, id) => AddKeepsNumbers(h, g, p, id);
    case CreateExecution(_, _) => EndKeepsNumbers(h, g, step);
    case End(_) => EndKeepsNumbers(h, g, step);
    case _ => ReadKeepsNumbers(h, g, step);
  }

  lemma StepKeepsAccepted(h: History, g: History, step: Step)
    requires AllAccepted(h) && NextStep(h, g, step)
    ensures AllAccepted(g)
  {
    DefaultIsAccepted();
  }

  lemma NumbersOfNext(run: seq<History>, i: nat)
    requires IsRun(run) && i + 1 < |run| && Numbered(run[i])
    ensures Numbered(run[i + 1]) && Extends(run[i], run[i + 1])
  {
    assert NextAt(run, i);
    var step :| NextStep(run[i], run[i + 1], step);
    StepKeepsNumbers(run[i], run[i + 1], step);
  }

  lemma DefinitionsOfNext(run: seq<History>, i: nat)
    requires IsRun(run) && i + 1 < |run| && AllAccepted(run[i])
    ensures AllAccepted(run[i + 1])
  {
    assert NextAt(run, i);
    var step :| NextStep(run[i], run[i + 1], step);
    StepKeepsAccepted(run[i], run[i + 1], step);
  }

  lemma {:induction false} RunKeepsNumbers(run: seq<History>, i: nat)
    requires IsRun(run) && i < |run|
    ensures Numbered(run[i])
    decreases i
  {
    if i > 0 {
      RunKeepsNumbers(run, i - 1);
      NumbersOfNext(run, i - 1);
    }
  }

  lemma {:induction false} RunKeepsAccepted(run: seq<History>, i: nat)
    requires IsRun(run) && i < |run|
    ensures AllAccepted(run[i])
    decreases i
  {
    if i > 0 {
      RunKeepsAccepted(run, i - 1);
      DefinitionsOfNext(run, i - 1);
    }
  }

  // ---- What holds in every run ----

  lemma ExtendsTransitive(f: History, g: History, h: History)
    requires Extends(f, g) && Extends(g, h)
    ensures Extends(f, h)
  {
  }

  lemma NextExtends(run: seq<History>, i: nat)
    requires IsRun(run) && i + 1 < |run|
    ensures Extends(run[i], run[i + 1])
  {
    RunKeepsNumbers(run, i);
    NumbersOfNext(run, i);
  }

  /** Nothing stored is ever changed or removed. */
  lemma {:induction false} HistoryIsAppendOnly(run: seq<History>, i: nat, j: nat)
    requires IsRun(run) && i <= j < |run|
    ensures Extends(run[i], run[j])
    decreases j
  {
    if i < j {
      HistoryIsAppendOnly(run, i, j - 1);
      NextExtends(run, j - 1);
      ExtendsTransitive(run[i], run[j - 1], run[j]);
    }
  }

  /** A workflow's versions are numbered 1 to that of the current one, each number once. */
  lemma VersionsAreConsecutive(run: seq<History>, i: nat, w: WorkflowId, current: VersionId, k: int)
    requires IsRun(run) && i < |run| && IsCurrent(run[i], w, current)
    ensures HasNumber(run[i], w, k) <==> 1 <= k <= run[i].versions[current].number
    ensures forall a, b ::
              a in run[i].versions && b in run[i].versions && SameNumber(run[i].versions[a], run[i].versions[b]) ==>
                a == b
  {
    var h := run[i];
    RunKeepsNumbers(run, i);
    assert FromOneTo(h, w, h.versions[current].number);
    if HasNumber(h, w, k) {
      NumberKnown(h, w, k);
      var id :| id in h.versions && h.versions[id].workflow == w && h.versions[id].number == k;
    }
  }

  /** Of the calls that read the same current version, at most one adds a version. */
  lemma SameReadOnlyOneWins(run: seq<History>, i: nat, j: nat, p: CallerId, q: CallerId, id: VersionId, next: History)
    requires IsRun(run) && i < j < |run|
    requires p in run[i].calls && run[i].calls[p].Adding? && NextStep(run[i], run[i + 1], Insert(p, id))
    requires q in run[j].calls && run[j].calls[q].Adding?
    requires run[j].calls[q].workflow == run[i].calls[p].workflow && run[j].calls[q].current == run[i].calls[p].current
    ensures forall other :: !NextStep(run[j], next, Insert(q, other))
  {
    var call := run[i].calls[p];
    assert run[i + 1].versions[id].number == call.current + 1;
    HistoryIsAppendOnly(run, i + 1, j);
    NumbersStay(run[i + 1], run[j], call.workflow, call.current + 1);
  }

  /** A restored version has the definition its source had when it was looked up, and still has. */
  lemma RestoreCopiesSource(run: seq<History>, i: nat, j: nat, p: CallerId, id: VersionId)
    requires IsRun(run) && i < j && j + 1 < |run|
    requires NextStep(run[i], run[i + 1], FindSource(p)) && NextStep(run[j], run[j + 1], Insert(p, id))
    requires run[j].calls[p] == run[i + 1].calls[p]
    ensures var source := run[i].calls[p].source;
            && source in run[j + 1].versions && source != id
            && run[j + 1].versions[id].definition == run[j + 1].versions[source].definition
            && run[j + 1].versions[id].workflow == run[j + 1].versions[source].workflow
  {
    HistoryIsAppendOnly(run, i, j);
    HistoryIsAppendOnly(run, i, j + 1);
  }

  /** A version added by a call holds what the call was given, under the number after the one it read, ever after. */
  lemma CreatedVersionIsInput(run: seq<History>, i: nat, j: nat, k: nat, p: CallerId, w: WorkflowId, current: VersionId,
                              input: WorkflowDefinition, id: VersionId)
    requires IsRun(run) && i < j < k < |run|
    requires NextStep(run[i], run[i + 1], ReadForCreate(p, w, current, input))
    requires NextStep(run[j], run[j + 1], Insert(p, id)) && run[j].calls[p] == run[i + 1].calls[p]
    ensures current in run[i].versions && id !in run[i].versions
    ensures id in run[k].versions
    ensures run[k].versions[id] == Version(w, run[i].versions[current].number + 1, input)
  {
    HistoryIsAppendOnly(run, i, j);
    HistoryIsAppendOnly(run, j + 1, k);
  }

  /** A restoring call adds the definition of the version it names, under the number after the one it read. */
  lemma RestoredVersionIsSource(run: seq<History>, h: nat, i: nat, j: nat, k: nat, p: CallerId, w: WorkflowId,
                                current: VersionId, source: VersionId, id: VersionId)
    requires IsRun(run) && h < i < j < k < |run|
    requires NextStep(run[h], run[h + 1], ReadForRestore(p, w, current, source))
    requires NextStep(run[i], run[i + 1], FindSource(p)) && p in run[i].calls && run[i].calls[p] == run[h + 1].calls[p]
    requires NextStep(run[j], run[j + 1], Insert(p, id)) && run[j].calls[p] == run[i + 1].calls[p]
    ensures current in run[h].versions && source in run[i].versions && run[i].versions[source].workflow == w
    ensures id in run[k].versions
    ensures run[k].versions[id] == Version(w, run[h].versions[current].number + 1, run[i].versions[source].definition)
  {
    HistoryIsAppendOnly(run, j + 1, k);
  }

  /** A new workflow starts with the definition given for it, or with a lone trigger when none is given. */
  lemma FirstVersionIsGiven(run: seq<History>, i: nat, k: nat, w: WorkflowId, id: VersionId,
                            initial: Option<WorkflowDefinition>)
    requires IsRun(run) && i < k < |run| && NextStep(run[i], run[i + 1], Create(w, id, initial))
    ensures id in run[k].versions && run[k].versions[id].workflow == w && run[k].versions[id].number == 1
    ensures initial.Some? ==> run[k].versions[id].definition == initial.value
    ensures initial.None? ==>
              run[k].versions[id].definition ==
                WorkflowDefinition([WorkflowNode("manual-trigger", ManualTrigger, "Manual Trigger", None)], [])
  {
    HistoryIsAppendOnly(run, i + 1, k);
  }

  /** An execution refers, ever after, to the version that was the current one when its request looked it up. */
  lemma ExecutionKeepsVersion(run: seq<History>, i: nat, j: nat, k: nat, p: CallerId, w: WorkflowId, current: VersionId,
                              execution: RunId)
    requires IsRun(run) && i < j < k < |run|
    requires NextStep(run[i], run[i + 1], ReadForRequest(p, w, current))
    requires NextStep(run[j], run[j + 1], CreateExecution(p, execution)) && run[j].calls[p] == run[i + 1].calls[p]
    ensures execution in run[k].executions && run[k].executions[execution] == current
    ensures current in run[i].versions && run[i].versions[current].workflow == w
    ensures forall other :: other in run[i].versions && run[i].versions[other].workflow == w ==>
              run[i].versions[other].number <= run[i].versions[current].number
  {
    HistoryIsAppendOnly(run, j + 1, k);
  }

  /** A call can add its version exactly while no version of the workflow has a higher number than the one it read. */
  lemma InsertableIff(run: seq<History>, i: nat, p: CallerId, id: VersionId)
    requires IsRun(run) && i < |run| && p in run[i].calls && run[i].calls[p].Adding? && id !in run[i].versions
    ensures var h, call := run[i], run[i].calls[p];
            (exists g :: NextStep(h, g, Insert(p, id))) <==>
              forall other :: other in h.versions && h.versions[other].workflow == call.workflow ==>
                h.versions[other].number <= call.current
  {
    RunKeepsNumbers(run, i);
    var h, call := run[i], run[i].calls[p];
    var version := Version(call.workflow, call.current + 1, call.definition);
    var g := h.(versions := h.versions[id := version], calls := h.calls - {p});
    assert !HasNumber(h, call.workflow, call.current + 1) ==> NextStep(h, g, Insert(p, id));
    if other :| other in h.versions && h.versions[other].workflow == call.workflow
                && h.versions[other].number > call.current
    {
      HigherNumberTakesNext(h, p, other);
    }
  }

  lemma HigherNumberTakesNext(h: History, p: CallerId, other: VersionId)
    requires Numbered(h) && p in h.calls && h.calls[p].Adding? && other in h.versions
    requires h.versions[other].workflow == h.calls[p].workflow && h.versions[other].number > h.calls[p].current
    ensures HasNumber(h, h.calls[p].workflow, h.calls[p].current + 1)
  {
    assert CallFits(h, h.calls[p]);
    NumberKnown(h, h.calls[p].workflow, h.calls[p].current);
    assert FromOneTo(h, h.calls[p].workflow, h.versions[other].number);
  }

  /** Every definition an execution was created with is accepted by the schema, and so it can be put in order. */
  lemma ExecutionsAreOrderable(run: seq<History>, i: nat, execution: RunId)
    requires IsRun(run) && i < |run| && execution in run[i].executions
    ensures run[i].executions[execution] in run[i].versions
    ensures var d := run[i].versions[run[i].executions[execution]].definition;
            Accepted(d) && Orderable(d) && AllReachable(d) && Acyclic(ArcsOf(d.edges))
  {
    RunKeepsNumbers(run, i);
    RunKeepsAccepted(run, i);
  }

  // ---- What can be done ----

  /** A call keeps what it has read until it ends, or looks up the version to restore. */
  lemma CallStays(h: History, g: History, step: Step, p: CallerId)
    requires NextStep(h, g, step) && p in h.calls
    ensures (p in g.calls && g.calls[p] == h.calls[p])
         || (step == FindSource(p) && h.calls[p].Restoring?) || (step.Insert? && step.p == p)
         || (step.CreateExecution? && step.p == p) || step == End(p)
  {
  }

  lemma {:induction false} HighestOf(h: History, w: WorkflowId, ids: set<VersionId>) returns (highest: VersionId)
    requires ids != {} && forall id :: id in ids ==> id in h.versions && h.versions[id].workflow == w
    ensures highest in ids && forall id :: id in ids ==> h.versions[id].number <= h.versions[highest].number
    decreases |ids|
  {
    var some :| some in ids;
    var rest := ids - {some};
    highest := some;
    if rest != {} {
      var other := HighestOf(h, w, rest);
      if h.versions[other].number > h.versions[some].number {
        highest := other;
      }
    }
  }

  /** Every stored workflow has a current version. */
  lemma HasCurrent(h: History, w: WorkflowId) returns (current: VersionId)
    requires exists id :: id in h.versions && h.versions[id].workflow == w
    ensures IsCurrent(h, w, current)
  {
    var id :| id in h.versions && h.versions[id].workflow == w;
    var ids := set id | id in h.versions && h.versions[id].workflow == w;
    assert id in ids;
    current := HighestOf(h, w, ids);
  }

  /** From every state of every run, a version with any accepted definition can be added to any stored workflow. */
  lemma CanAddVersion(run: seq<History>, i: nat, w: WorkflowId, input: WorkflowDefinition, p: CallerId, id: VersionId)
    returns (current: VersionId, read: History, added: History)
    requires IsRun(run) && i < |run| && Accepted(input) && p !in run[i].calls && id !in run[i].versions
    requires exists other :: other in run[i].versions && run[i].versions[other].workflow == w
    ensures NextStep(run[i], read, ReadForCreate(p, w, current, input)) && NextStep(read, added, Insert(p, id))
    ensures current in run[i].versions && id in added.versions
    ensures added.versions[id] == Version(w, run[i].versions[current].number + 1, input)
  {
    var h := run[i];
    current := HasCurrent(h, w);
    var number := h.versions[current].number;
    read := h.(calls := h.calls[p := Adding(w, number, input)]);
    assert !HasNumber(read, w, number + 1);
    added := read.(versions := read.versions[id := Version(w, number + 1, input)], calls := read.calls - {p});
  }

  /** So can a copy of any of its versions. */
  lemma CanRestoreVersion(run: seq<History>, i: nat, w: WorkflowId, source: VersionId, p: CallerId, id: VersionId)
    returns (current: VersionId, read: History, found: History, added: History)
    requires IsRun(run) && i < |run| && p !in run[i].calls && id !in run[i].versions
    requires source in run[i].versions && run[i].versions[source].workflow == w
    ensures NextStep(run[i], read, ReadForRestore(p, w, current, source)) && NextStep(read, found, FindSource(p))
    ensures NextStep(found, added, Insert(p, id))
    ensures current in run[i].versions && id in added.versions
    ensures added.versions[id] == Version(w, run[i].versions[current].number + 1, run[i].versions[source].definition)
  {
    var h := run[i];
    current := HasCurrent(h, w);
    var number := h.versions[current].number;
    read := h.(calls := h.calls[p := Restoring(w, number, source)]);
    found := h.(calls := read.calls[p := Adding(w, number, h.versions[source].definition)]);
    assert !HasNumber(found, w, number + 1);
    added := found.(versions := found.versions[id := Version(w, number + 1, h.versions[source].definition)],
                    calls := found.calls - {p});
  }

  /** And an execution of its current version can be requested. */
  lemma CanRequestExecution(run: seq<History>, i: nat, w: WorkflowId, p: CallerId, execution: RunId)
    returns (current: VersionId, read: History, created: History)
    requires IsRun(run) && i < |run| && p !in run[i].calls && execution !in run[i].executions
    requires exists other :: other in run[i].versions && run[i].versions[other].workflow == w
    ensures NextStep(run[i], read, ReadForRequest(p, w, current))
            && NextStep(read, created, CreateExecution(p, execution))
    ensures execution in created.executions && created.executions[execution] == current
    ensures forall other :: other in run[i].versions && run[i].versions[other].workflow == w ==>
              current in run[i].versions && run[i].versions[other].number <= run[i].versions[current].number
  {
    var h := run[i];
    current := HasCurrent(h, w);
    read := h.(calls := h.calls[p := Requesting(current)]);
    created := read.(executions := read.executions[execution := current], calls := read.calls - {p});
  }
}
