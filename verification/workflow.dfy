/** The answer graph: its node and edge table, one step of a run, and runs
    of any length. Every call to the retriever, the relevance classifier, the language
    model, the two checkers and the search service is an input of the run: a
    `Visit` carries what those services answered during one node visit. The
    graph has no retry ceiling, so a run is measured by the visits it is
    given rather than run to completion. */
module Workflow {
  import opened State
  import Grading
  import Search
  import Nodes
  import Routing

  datatype Node = RetrieveDocuments | GradeDocuments | GenerateAnswer | SearchOnline | End

  /** The entry point. */
  const Entry: Node := RetrieveDocuments

  /** The unconditional edges. */
  const Edges: map<Node, Node> := map[RetrieveDocuments := GradeDocuments, SearchOnline := GenerateAnswer]

  /** The conditional edges out of "Grade Documents", keyed by router label. */
  const GradeRoutes: map<string, Node> :=
    map[Routing.SearchOnlineLabel := SearchOnline, Routing.GenerateAnswerLabel := GenerateAnswer]

  /** The conditional edges out of "Generate Answer", keyed by router label. */
  const GenerateRoutes: map<string, Node> :=
    map[Routing.HallucinationsDetected := GenerateAnswer,
        Routing.AnswersQuestion := End,
        Routing.QuestionNotAddressed := SearchOnline]

  /** Where a run is: the node about to execute and the query state. */
  datatype Config = Config(node: Node, state: GraphState)

  /** What the external services answer during one node visit. */
  datatype Visit =
    | RetrieverResult(documents: seq<Document>)
    | RelevanceVerdicts(verdicts: seq<string>)
    | GeneratorResult(solution: string, grounded: bool, addressed: bool)
    | SearchResponse(results: seq<Search.SearchResult>)

  /** The run's start for a question: only the question is given. */
  function Start(question: string): Config {
    Config(Entry, GraphState(question, "", false, None))
  }

  /** One step: execute the current node with the services' answers, then
      follow its edge. `None` when the visit does not fit the node, when the
      relevance classifier gave a verdict count other than the document count, when the
      grading node finds no document list, or at the end. */
  function Next(c: Config, visit: Visit): Option<Config> {
    match visit
    case RetrieverResult(documents) =>
      if c.node == RetrieveDocuments then
        Some(Config(Edges[RetrieveDocuments], Nodes.Retrieve(c.state, documents)))
      else None
    case RelevanceVerdicts(verdicts) =>
      if c.node == GradeDocuments && c.state.documents.Some? && |verdicts| == |c.state.documents.value| then
        var graded := Grading.GradedState(c.state, verdicts);
        Some(Config(GradeRoutes[Routing.AnyDocIrrelevant(graded)], graded))
      else None
    case GeneratorResult(solution, grounded, addressed) =>
      if c.node == GenerateAnswer then
        Some(Config(GenerateRoutes[Routing.Hallucinations(grounded, addressed)],
                    Nodes.GenerateAnswer(c.state, solution)))
      else None
    case SearchResponse(results) =>
      if c.node == SearchOnline then
        Some(Config(Edges[SearchOnline], Search.SearchedState(c.state, results)))
      else None
  }

  /** Take one step per visit, in order; `None` if a step is impossible. */
  function Run(c: Config, visits: seq<Visit>): Option<Config>
    decreases |visits|
  {
    if visits == [] then Some(c)
    else
      match Next(c, visits[0])
      case None => None
      case Some(c') => Run(c', visits[1..])
  }

  /** The table: the entry is Retrieve, Retrieve goes to Grade, Search goes
      to Generate, and each router label has an edge. */
  lemma TableShape()
    ensures Entry == RetrieveDocuments
    ensures Edges.Keys == {RetrieveDocuments, SearchOnline}
    ensures Edges[RetrieveDocuments] == GradeDocuments && Edges[SearchOnline] == GenerateAnswer
    ensures forall s: GraphState :: Routing.AnyDocIrrelevant(s) in GradeRoutes
    ensures forall g: bool, a: bool :: Routing.Hallucinations(g, a) in GenerateRoutes
  {
  }

  /** The end is reached only through the "Answers Question" label. */
  lemma EndOnlyByAnswer()
    ensures End !in Edges.Values && End !in GradeRoutes.Values
    ensures forall route :: route in GenerateRoutes && GenerateRoutes[route] == End <==>
      route == Routing.AnswersQuestion
  {
  }

  /** Retrieval replaces the documents and goes to grading. */
  lemma RetrieveStep(c: Config, documents: seq<Document>)
    requires c.node == RetrieveDocuments
    ensures Next(c, RetrieverResult(documents)) ==
      Some(Config(GradeDocuments, c.state.(documents := Some(documents))))
  {
  }

  /** Grading goes to the search exactly when a document was rejected, and
      otherwise to generation. */
  lemma GradeStep(c: Config, verdicts: seq<string>)
    requires c.node == GradeDocuments && c.state.documents.Some?
    requires |verdicts| == |c.state.documents.value|
    ensures Next(c, RelevanceVerdicts(verdicts)).Some?
    ensures Next(c, RelevanceVerdicts(verdicts)).value.node ==
      if Grading.AnyRejected(verdicts) then SearchOnline else GenerateAnswer
    ensures Next(c, RelevanceVerdicts(verdicts)).value.state == Grading.GradedState(c.state, verdicts)
  {
  }

  /** Generation: an ungrounded answer regenerates with the same question and
      documents; a grounded, adequate one ends the run; a grounded but
      inadequate one goes to the search. */
  lemma GenerateStep(c: Config, solution: string, grounded: bool, addressed: bool)
    requires c.node == GenerateAnswer
    ensures var next := Next(c, GeneratorResult(solution, grounded, addressed));
      next.Some? &&
      next.value.state.question == c.state.question &&
      next.value.state.documents == c.state.documents &&
      next.value.state.solution == solution &&
      next.value.node == (if !grounded then GenerateAnswer
                          else if addressed then End
                          else SearchOnline)
  {
  }

  /** The search appends one document and goes to generation. */
  lemma SearchStep(c: Config, results: seq<Search.SearchResult>)
    requires c.node == SearchOnline
    ensures var next := Next(c, SearchResponse(results));
      next.Some? && next.value.node == GenerateAnswer &&
      next.value.state.question == c.state.question &&
      next.value.state.documents == Some(DocumentsOrEmpty(c.state) + [Search.SearchDocument(results)])
  {
  }

  /** Nothing follows the end. */
  lemma EndIsFinal(c: Config, visit: Visit)
    requires c.node == End
    ensures Next(c, visit).None?
  {
  }

  /** What holds in every reachable configuration of a run for `question`. */
  ghost predicate Consistent(c: Config, question: string) {
    c.state.question == question &&
    (c.node != RetrieveDocuments ==> c.state.documents.Some?)
  }

  lemma NextConsistent(c: Config, visit: Visit, question: string)
    requires Consistent(c, question) && Next(c, visit).Some?
    ensures Consistent(Next(c, visit).value, question)
  {
  }

  /** Every step keeps the question, and once retrieval has run there is
      always a document list, so grading never meets a missing one. */
  lemma {:induction false} RunConsistent(c: Config, visits: seq<Visit>, question: string)
    requires Consistent(c, question) && Run(c, visits).Some?
    ensures Consistent(Run(c, visits).value, question)
    decreases |visits|
  {
    if visits != [] {
      NextConsistent(c, visits[0], question);
      RunConsistent(Next(c, visits[0]).value, visits[1..], question);
    }
  }

  /** Running `visits` then `visit` is one more step after running `visits`. */
  lemma {:induction false} RunSnoc(c: Config, visits: seq<Visit>, visit: Visit)
    ensures Run(c, visits + [visit]) ==
      if Run(c, visits).Some? then Next(Run(c, visits).value, visit) else None
    decreases |visits|
  {
    if visits == [] {
      assert [] + [visit] == [visit];
    } else {
      assert (visits + [visit])[0] == visits[0];
      assert (visits + [visit])[1..] == visits[1..] + [visit];
      if Next(c, visits[0]).Some? {
        RunSnoc(Next(c, visits[0]).value, visits[1..], visit);
      }
    }
  }

  /** A step into the end comes from generation with both checks passing,
      and keeps the answer that was generated. */
  lemma StepToEnd(c: Config, visit: Visit)
    requires Next(c, visit).Some? && Next(c, visit).value.node == End
    ensures c.node == GenerateAnswer
    ensures visit.GeneratorResult? && visit.grounded && visit.addressed
    ensures Next(c, visit).value.state == c.state.(solution := visit.solution)
  {
  }

  /** A run from the start ends at the end node only if its last visit was a
      generation whose answer passed both checks; that answer is the result. */
  lemma {:induction false} RunEndsOnlyByAcceptance(question: string, visits: seq<Visit>)
    requires Run(Start(question), visits).Some? && Run(Start(question), visits).value.node == End
    ensures visits != []
    ensures var last := visits[|visits| - 1];
      last.GeneratorResult? && last.grounded && last.addressed &&
      Run(Start(question), visits).value.state.solution == last.solution
    ensures var before := Run(Start(question), visits[..|visits| - 1]);
      before.Some? && before.value.node == GenerateAnswer
  {
    var n := |visits| - 1;
    assert visits[..n] + [visits[n]] == visits;
    RunSnoc(Start(question), visits[..n], visits[n]);
    StepToEnd(Run(Start(question), visits[..n]).value, visits[n]);
  }

  /** Conversely, once a run has reached generation, a visit whose answer
      passes both checks ends it with that answer. */
  lemma AcceptanceEnds(question: string, visits: seq<Visit>, solution: string)
    requires Run(Start(question), visits).Some? && Run(Start(question), visits).value.node == GenerateAnswer
    ensures Run(Start(question), visits + [GeneratorResult(solution, true, true)]) ==
      Some(Config(End, Run(Start(question), visits).value.state.(solution := solution)))
  {
    RunSnoc(Start(question), visits, GeneratorResult(solution, true, true));
  }
}
