# Advanced RAG answer graph, modelled in Dafny

This project models the query orchestration of a retrieval-augmented
question-answering app. One question runs through a small graph of four
nodes: "Retrieve Documents", "Grade Documents", "Generate Answer" and
"Search Online". The nodes share one query record (`GraphState`: question,
solution, online-search flag, documents).

- Grading keeps the documents whose relevance verdict lower-cases to "yes".
  It sets the search flag when any document is dropped.
- The first router sends a flagged state to the web search, and any other state to generation.
- The second router combines two verdicts: "is the answer grounded in the
  documents?" and "does it address the question?". It chooses between
  regenerating, finishing and searching.
- The search joins the contents of the search results with newlines into one new document. It appends that document to the context.

Every call to the retriever, the language model, the three classifiers and
the search service is an input of the model. A `Workflow.Visit` carries what
those services answered during one node visit. A run (`Workflow.Run`) takes
one step per visit. The graph has no retry ceiling, so the number of visits
is the run's fuel. The model does not claim that a run terminates.

Files, one module each:

- `state.dfy` (`State`): the query record and the document value.
- `grading.dfy` (`Grading`): the grading node. `Evaluate` is the loop. `GradedState` is the function it is proved against.
- `search.dfy` (`Search`): the search node. `SearchOnline` builds the new list. `SearchedState` is its specification. Newline joining comes with its inverse, splitting.
- `nodes.dfy` (`Nodes`): the retrieval and generation pass-through nodes.
- `routing.dfy` (`Routing`): the two routers and their labels.
- `workflow.dfy` (`Workflow`): the node and edge table, the one-step function `Next`, runs, and the lemmas about them.

Node functions return the whole new state. The graph executor writes each key a node returns into the state and leaves the other keys unchanged. The model applies that merge inside each node function.

## Model

| member | source | states |
|---|---|---|
| `Grading.IsYesSpelling` | app.py:185 | a verdict keeps its document iff it is three letters spelling "yes" in any mix of upper and lower case |
| `Grading.YesPositionsExact` | app.py:182-188 | the kept positions are increasing and in range, and a position is kept iff its verdict is "yes" |
| `Grading.KeptIsSubsequence` | app.py:180-186 | the filtered list is the input at exactly the "yes" positions, in their original order: it is a subsequence of the input |
| `Grading.KeptLength` | app.py:180-188 | the filtered list is never longer than the input; it has the same length iff no verdict rejected, and is then the input itself; an empty input rejects nothing |
| `Grading.AllRejectedKeepsNothing` | app.py:182-188 | when every verdict rejects, nothing is kept, and a non-empty input then sets the flag |
| `Grading.Evaluate` | app.py:173-190 | the loop computes the graded state: relevant documents kept, question unchanged, never more documents, flag set iff some verdict is not "yes" iff a document was dropped |
| `Search.SplitJoinLines` | app.py:213 | splitting the newline-joined text at newlines gives back the parts in order, when no part holds a newline |
| `Search.SearchDocumentKeepsResults` | app.py:213-214 | the new document's content holds the result contents in result order, recoverable by splitting when none holds a newline |
| `Search.SearchOnline` | app.py:205-219 | exactly one document is appended at the end: prior documents kept in order, length grows by one, a missing list becomes a singleton, the new content is the contents joined by newlines, the question unchanged |
| `Search.SearchTwiceAppendsTwice` | app.py:215-216 | two searches append two documents; nothing is de-duplicated |
| `Nodes.Retrieve` | app.py:164-170 | retrieval carries the question, sets the documents to the retrieved list and leaves the other entries alone |
| `Nodes.GenerateAnswer` | app.py:193-201 | generation carries the question and documents unchanged and records the new solution |
| `Routing.AnyDocIrrelevant` | app.py:132-139 | the router returns "Search Online" iff the flag is set, and "Generate Answer" otherwise |
| `Routing.Hallucinations` | app.py:142-161 | ungrounded gives "Hallucinations detected"; grounded and adequate gives "Answers Question"; grounded and inadequate gives "Question not addressed" (each iff) |
| `Routing.UngroundedIgnoresAdequacy` | app.py:150-161 | an ungrounded answer is routed the same way whatever the adequacy verdict, which is never needed |
| `Routing.HallucinationsExclusive` | app.py:154-161 | every verdict pair yields one of the three labels, and the three labels are distinct |
| `Workflow.TableShape` | app.py:101-121 | the entry is Retrieve; Retrieve goes to Grade; Search goes to Generate; every label either router can produce has an edge |
| `Workflow.EndOnlyByAnswer` | app.py:102-121 | no unconditional edge and no grading route leads to the end; of the generation routes exactly "Answers Question" does |
| `Workflow.RetrieveStep` | app.py:101-102 | a retrieval step installs the retrieved documents and moves to grading |
| `Workflow.GradeStep` | app.py:103-110 | a grading step always succeeds on a present list and moves to the search iff some document was rejected, otherwise to generation |
| `Workflow.GenerateStep` | app.py:112-120 | a generation step regenerates on an ungrounded answer with question and documents unchanged, ends on a grounded adequate one, and searches otherwise |
| `Workflow.SearchStep` | app.py:121 | a search step appends the search document and moves to generation |
| `Workflow.EndIsFinal` | app.py:117 | no step leaves the end |
| `Workflow.RunConsistent` | app.py:164-219 | every run keeps the question, and once retrieval has run a document list is always present (so grading never meets a missing one) |
| `Workflow.StepToEnd` | app.py:112-120 | a step into the end comes from generation with both checks passing and keeps the generated answer |
| `Workflow.RunEndsOnlyByAcceptance` | app.py:112-120 | a run from the start reaches the end only if its last visit was a generation whose answer passed both checks in that visit; that answer is the final solution |
| `Workflow.AcceptanceEnds` | app.py:154-157 | conversely, a run at generation ends with the answer of a visit that passes both checks |

## Left out

- The Streamlit page, the question box and `main` (app.py:34-60, 222-237) are left out as presentation and I/O. The process-wide `retriever` handle is left out too.
- The upload handler (app.py:63-85) is left out: token-based splitting, embeddings and the vector store are library calls. The retrieved list is an input of the run.
- The prompt chains under `chains/` are left out; `chains/generate_answer.py` is not part of this model. The relevance classifier's verdict is a string per document. The two checkers' verdicts are booleans. The generated answer is a string. All of these are run inputs.
- The web search client is left out. Its response is an input: a list of results with a `content` string. The client's `k=2` setting is not modelled, so the number of results is unconstrained.
- Service failures (exceptions from any external call) are not modelled. `Workflow.Next` returns `None` only for a visit that does not fit the node, for a relevance verdict count different from the document count, and at the end.
- `draw_mermaid_png` (app.py:127) is left out because it only writes a file.
- The unconditional edge from "Generate Answer" to the end (app.py:122) is not modelled. It sits beside the conditional edges out of the same node. What the executor does with both is not visible in this code, so only the conditional map is modelled. With the extra edge, a run could also end after an ungrounded or inadequate answer.
- `Document` is used at app.py:214 without being imported. The model ignores this and builds the document anyway.
- `state.py` declares `documents` as a list of strings, but app.py:183 reads `page_content`. The model follows app.py: a document is a record holding its content string.
- Termination of a run is not modelled, because the regeneration loop has no ceiling. Runs are bounded by the number of visits they are given.
- At the start only the question is given. The keys not yet written are modelled as `""`, `false` and `None`. `Workflow.RunConsistent` shows that the document list is present wherever grading reads it. The flag and the solution are written by the node just before the router that reads them.
- `Grading.IsYes`: `lower()` is modelled on ASCII letters only. Other characters are kept as they are.
- `Search.SearchOnline`: the in-place `append` is modelled as a new list value. The identity of the list object, and other references that would see the change, are not modelled. Within the graph the state holds the same list, so the state after the step is the same.
- `Routing.Hallucinations`: the model takes the two checker verdicts, not the state. That the adequacy checker is called only for a grounded answer is stated as the result not depending on its verdict (`Routing.UngroundedIgnoresAdequacy`). The call itself is not modelled.
