/** The "Search Online" node: the question is sent to a web search service
    and the contents of its results, joined by newlines, become one new
    document appended to the context. */
module Search {
  import opened State

  /** One search hit; only its `content` entry is read. */
  datatype SearchResult = SearchResult(content: string)

  /** `"\n".join(parts)`. */
  function JoinLines(parts: seq<string>): string {
    if |parts| == 0 then ""
    else if |parts| == 1 then parts[0]
    else parts[0] + "\n" + JoinLines(parts[1..])
  }

  /** The position of the first newline of `text`, or `|text|` if none. */
  function FirstNewline(text: string): (i: nat)
    ensures i <= |text|
    ensures i < |text| ==> text[i] == '\n'
    ensures forall k :: 0 <= k < i ==> text[k] != '\n'
  {
    if text == [] then 0
    else if text[0] == '\n' then 0
    else 1 + FirstNewline(text[1..])
  }

  /** `text.split("\n")`: the reference against which joining is checked. */
  function SplitLines(text: string): (parts: seq<string>)
    decreases |text|
  {
    var i := FirstNewline(text);
    if i == |text| then [text] else [text[..i]] + SplitLines(text[i + 1..])
  }

  /** Joining with newlines loses nothing when no part holds a newline:
      splitting the joined text gives back the parts, in order. */
  lemma {:induction false} SplitJoinLines(parts: seq<string>)
    requires |parts| >= 1
    requires forall p :: p in parts ==> '\n' !in p
    ensures SplitLines(JoinLines(parts)) == parts
  {
    var head := parts[0];
    assert '\n' !in head;
    assert FirstNewline(head) == |head|;
    if |parts| > 1 {
      var rest := JoinLines(parts[1..]);
      var text := head + "\n" + rest;
      assert FirstNewline(text) == |head| by {
        assert text[|head|] == '\n';
        assert forall k :: 0 <= k < |head| ==> text[k] == head[k];
      }
      assert text[..|head|] == head;
      assert text[|head| + 1..] == rest;
      SplitJoinLines(parts[1..]);
      assert [head] + parts[1..] == parts;
    }
  }

  /** The `content` of each result, in result order. */
  function Contents(response: seq<SearchResult>): seq<string> {
    seq(|response|, i requires 0 <= i < |response| => response[i].content)
  }

  /** The one document a search contributes. */
  function SearchDocument(response: seq<SearchResult>): Document {
    Document(JoinLines(Contents(response)))
  }

  /** The result contents can be read back from the new document, in order,
      as long as none of them holds a newline. */
  lemma SearchDocumentKeepsResults(response: seq<SearchResult>)
    requires |response| >= 1
    requires forall i :: 0 <= i < |response| ==> '\n' !in response[i].content
    ensures SplitLines(SearchDocument(response).pageContent) == Contents(response)
  {
    SplitJoinLines(Contents(response));
  }

  /** The state after a search: the search document is appended to the list,
      which is created if there was none. */
  function SearchedState(state: GraphState, response: seq<SearchResult>): GraphState {
    state.(documents := Some(DocumentsOrEmpty(state) + [SearchDocument(response)]))
  }

  /** The search node. `response` is the search service's answer to the
      question. */
  method SearchOnline(state: GraphState, response: seq<SearchResult>) returns (update: GraphState)
    ensures update == SearchedState(state, response)
    ensures update.question == state.question && update.documents.Some?
    ensures var before := DocumentsOrEmpty(state);
      |update.documents.value| == |before| + 1 &&
      update.documents.value[..|before|] == before &&
      update.documents.value[|before|].pageContent == JoinLines(Contents(response))
    ensures state.documents.None? ==> update.documents.value == [SearchDocument(response)]
  {
    var question := state.question;
    var documents := state.documents;
    var results := JoinLines(Contents(response));
    var document := Document(results);
    if documents.Some? {
      documents := Some(documents.value + [document]);
    } else {
      documents := Some([document]);
      assert [] + [document] == [document];
    }
    update := state.(question := question, documents := documents);
  }

  /** Searching twice for the same question appends two documents: there is
      no de-duplication against the existing context. */
  lemma SearchTwiceAppendsTwice(state: GraphState, first: seq<SearchResult>, second: seq<SearchResult>)
    ensures DocumentsOrEmpty(SearchedState(SearchedState(state, first), second)) ==
      DocumentsOrEmpty(state) + [SearchDocument(first), SearchDocument(second)]
  {
  }
}
