/** The two routers of the graph: functions of the state (and of the
    checkers' verdicts) that name the route of the next edge. */
module Routing {
  import opened State

  const SearchOnlineLabel: string := "Search Online"
  const GenerateAnswerLabel: string := "Generate Answer"
  const HallucinationsDetected: string := "Hallucinations detected"
  const AnswersQuestion: string := "Answers Question"
  const QuestionNotAddressed: string := "Question not addressed"

  /** After grading: search online exactly when the grading flag is set. */
  function AnyDocIrrelevant(state: GraphState): (route: string)
    ensures route == SearchOnlineLabel || route == GenerateAnswerLabel
    ensures route == SearchOnlineLabel <==> state.onlineSearch
  {
    if state.onlineSearch then SearchOnlineLabel else GenerateAnswerLabel
  }

  /** After generation. `grounded` is the groundedness checker's verdict on
      (documents, solution); `addressed` is the adequacy checker's verdict on
      (question, solution), which is asked only for a grounded answer. */
  function Hallucinations(grounded: bool, addressed: bool): (route: string)
    ensures route == HallucinationsDetected <==> !grounded
    ensures route == AnswersQuestion <==> grounded && addressed
    ensures route == QuestionNotAddressed <==> grounded && !addressed
  {
    if grounded then
      if addressed then AnswersQuestion else QuestionNotAddressed
    else
      HallucinationsDetected
  }

  /** An ungrounded answer is routed the same way whatever the adequacy
      checker would have said: its verdict is not needed. */
  lemma UngroundedIgnoresAdequacy(addressed: bool, other: bool)
    ensures Hallucinations(false, addressed) == Hallucinations(false, other) == HallucinationsDetected
  {
  }

  /** For every verdict pair exactly one of the three labels is produced. */
  lemma HallucinationsExclusive(grounded: bool, addressed: bool)
    ensures var route := Hallucinations(grounded, addressed);
      route in {HallucinationsDetected, AnswersQuestion, QuestionNotAddressed}
    ensures HallucinationsDetected != AnswersQuestion
    ensures HallucinationsDetected != QuestionNotAddressed
    ensures AnswersQuestion != QuestionNotAddressed
  {
  }
}
