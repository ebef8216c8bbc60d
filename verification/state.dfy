/** The query record that flows through the answer graph (the `GraphState`
    typed dictionary), and the values stored in it. */
module State {

  datatype Option<T> = None | Some(value: T)

  /** A retrieved chunk of text. The graph only ever reads its page content,
      so a document is represented by that string. */
  datatype Document = Document(pageContent: string)

  /** One question's state. `documents` is `None` until the retriever (or a
      web search) has produced a list. */
  datatype GraphState = GraphState(
    question: string,
    solution: string,
    onlineSearch: bool,
    documents: Option<seq<Document>>)

  /** The document list, reading an absent list as the empty one. */
  function DocumentsOrEmpty(state: GraphState): seq<Document> {
    if state.documents.Some? then state.documents.value else []
  }
}
