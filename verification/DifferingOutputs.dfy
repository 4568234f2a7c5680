/** A concrete execution whose timeline shows one answer while its worker goes on with another. */
module DifferingOutputs {
  import opened Wrappers
  import opened Digraph
  import opened WorkflowDefinitions
  import opened OrderFreeRules
  import opened NodeOrder
  import opened LifecycleEvents
  import opened ExecutionProtocol
  import opened JsonRecords
  import opened Interpreter
  import opened NodeContents
  import opened AnnouncedValues

  /** A trigger followed by a prompt. */
  const QUESTION := WorkflowDefinition([WorkflowNode("t", ManualTrigger, "", None),
                                        WorkflowNode("ai", AiPromptAction, "", None)],
                                       [WorkflowEdge("e", "t", "ai")])

  const ANSWER: Record := map["text" := JString("yes")]

  /** Every execution runs that definition on the empty input, and the prompt is answered in one of two ways. */
  const TWO_ANSWERS := World(e => QUESTION, e => QUESTION.nodes, e => map[],
                             (node, input, output) => output == map[] || output == ANSWER,
                             (key, body) => if body == "" then map[] else ANSWER)

  lemma QuestionSets()
    ensures NodeIds(QUESTION) == {"t", "ai"} && TriggerIds(QUESTION) == {"t"}
    ensures ArcsOf(QUESTION.edges) == {("t", "ai")} && EdgeIdSet(QUESTION.edges) == {"e"}
  {
    assert forall n :: n in QUESTION.nodes <==> n == QUESTION.nodes[0] || n == QUESTION.nodes[1];
  }

  lemma QuestionGraph(ids: set<NodeId>, triggers: set<NodeId>, arcs: Arcs)
    requires ids == {"t", "ai"} && triggers == {"t"} && arcs == {("t", "ai")}
    ensures GraphRules(ids, triggers, arcs)
  {
    RankedIsAcyclic(arcs, map["t" := 0, "ai" := 1]);
    ReachesSelf(arcs, "t");
    ReachesStep(arcs, "t", "t", "ai");
    assert forall v :: v in ids ==> "t" in triggers && Reaches(arcs, "t", v);
  }

  lemma QuestionShape()
    ensures ShapeValid(QUESTION)
  {
    assert ValidId("t") && ValidId("ai") && ValidId("e");
    assert forall n :: n in QUESTION.nodes <==> n == QUESTION.nodes[0] || n == QUESTION.nodes[1];
  }

  lemma QuestionFollowsRules(d: WorkflowDefinition)
    requires |d.nodes| == 2 && NodeIds(d) == {"t", "ai"} && TriggerIds(d) == {"t"}
    requires |d.edges| == 1 && ArcsOf(d.edges) == {("t", "ai")} && EdgeIdSet(d.edges) == {"e"}
    ensures OrderFree(d)
  {
    assert NodeIds(d) - {"t"} == {"ai"};
    QuestionGraph(NodeIds(d), TriggerIds(d), ArcsOf(d.edges));
  }

  lemma QuestionIsAccepted()
    ensures Accepted(QUESTION)
  {
    QuestionSets();
    QuestionFollowsRules(QUESTION);
    QuestionShape();
    AcceptedIff(QUESTION);
  }

  lemma QuestionIds()
    ensures IdsOf(QUESTION.nodes) == ["t", "ai"] && TriggersOf(QUESTION.nodes) == ["t"]
  {
    var rest := QUESTION.nodes[1..];
    assert rest[1..] == [];
    assert TriggersOf(rest) == [];
  }

  lemma QuestionIsOrdered()
    ensures IsSchedule(QUESTION, QUESTION.nodes)
  {
    QuestionSets();
    QuestionIds();
    IdsInOrder(ArcsOf(QUESTION.edges), IdsOf(QUESTION.nodes));
  }

  lemma IdsInOrder(arcs: Arcs, ids: seq<NodeId>)
    requires arcs == {("t", "ai")} && ids == ["t", "ai"]
    ensures PredecessorsFirst(arcs, ids)
  {
    assert ids[..1] == ["t"];
  }

  lemma QuestionIsScheduled(e: ExecutionId)
    ensures IsScheduled(TWO_ANSWERS, e)
  {
    QuestionIsAccepted();
    QuestionIsOrdered();
  }

  lemma QuestionInputs(e: ExecutionId, values: seq<Record>)
    requires |values| < 2 && (values == [] || values[0] == map[])
    ensures InputAfter(TWO_ANSWERS, e, values) == map[]
  {
    var edges := QUESTION.edges;
    assert edges[1..] == [];
    assert IncomingEdges(edges, "t") == [] && IncomingEdges(edges, "ai") == edges;
  }

  lemma FewAnswers(key: EventKey, values: seq<Record>)
    requires Possible(TWO_ANSWERS, key.execution, values)
    ensures CanBeSaid(TWO_ANSWERS, key, values)
  {
    var w, e := TWO_ANSWERS, key.execution;
    if values != [] {
      assert MayCompute(w, e, values[..0], values[0]);
      QuestionInputs(e, values[..0]);
    }
    if |values| == 2 {
      assert MayCompute(w, e, values[..1], values[1]);
    } else {
      QuestionInputs(e, values);
    }
    if AnnouncedAfter(w, key, |values|) && ContentAfter(w, key, values) == ANSWER {
      assert BodySays(w, key, "yes", values);
    } else {
      assert BodySays(w, key, "", values);
    }
  }

  lemma BothAnswersArePossible(e: ExecutionId)
    ensures Possible(TWO_ANSWERS, e, [map[]])
    ensures MayCompute(TWO_ANSWERS, e, [map[]], map[]) && MayCompute(TWO_ANSWERS, e, [map[]], ANSWER)
  {
    QuestionInputs(e, []);
    QuestionInputs(e, [map[]]);
    assert Possible(TWO_ANSWERS, e, []);
    PossibleExtended(TWO_ANSWERS, e, [], map[]);
  }

  lemma AnswersAreTwo()
    ensures ANSWER != map[]
  {
    assert "text" in ANSWER;
  }

  lemma AnswersCanBeSaid()
    ensures AllScheduled(TWO_ANSWERS) && AllCanBeSaid(TWO_ANSWERS)
  {
    forall e {:trigger IsScheduled(TWO_ANSWERS, e)} ensures IsScheduled(TWO_ANSWERS, e) {
      QuestionIsScheduled(e);
    }
    forall key: EventKey, values {:trigger CanBeSaid(TWO_ANSWERS, key, values)}
        | Possible(TWO_ANSWERS, key.execution, values)
      ensures CanBeSaid(TWO_ANSWERS, key, values)
    {
      FewAnswers(key, values);
    }
  }

  /** There are runs in which the prompt's published completion shows one answer and a worker goes on with the other. */
  lemma AnswersDiffer() returns (c: Computing, p: ProcessId, output: Record)
    ensures AllScheduled(TWO_ANSWERS) && AllCanBeSaid(TWO_ANSWERS)
    ensures GoesOnWithAnother(TWO_ANSWERS, c, "e", p, [map[]] + [output])
  {
    AnswersCanBeSaid();
    BothAnswersArePossible("e");
    AnswersAreTwo();
    c, p, output := PublishedOutputCanDiffer(TWO_ANSWERS, "e", [map[]], map[], ANSWER);
  }
}
