/** The two pass-through nodes. Each carries the question forward and sets
    one entry from an external service's answer: the retriever's documents,
    or the language model's answer. */
module Nodes {
  import opened State

  /** The "Retrieve Documents" node; `retrieved` is the vector store's answer
      to the question. */
  function Retrieve(state: GraphState, retrieved: seq<Document>): (update: GraphState)
    ensures update.question == state.question
    ensures update.documents == Some(retrieved)
    ensures update.solution == state.solution && update.onlineSearch == state.onlineSearch
  {
    state.(documents := Some(retrieved))
  }

  /** The "Generate Answer" node; `solution` is the language model's answer
      given the question and the current documents. */
  function GenerateAnswer(state: GraphState, solution: string): (update: GraphState)
    ensures update.question == state.question && update.documents == state.documents
    ensures update.solution == solution && update.onlineSearch == state.onlineSearch
  {
    state.(solution := solution)
  }
}
