/** The "Grade Documents" node: every retrieved document is shown to a
    relevance classifier, the ones graded "yes" are kept, and one rejection is
    enough to ask for a web search. */
module Grading {
  import opened State

  /** Python's `str.lower()` on one character, for the ASCII letters. */
  function LowerChar(c: char): char {
    if 'A' <= c <= 'Z' then (c as int - 'A' as int + 'a' as int) as char else c
  }

  function Lower(s: string): string {
    seq(|s|, i requires 0 <= i < |s| => LowerChar(s[i]))
  }

  /** the relevance classifier's verdict counts as relevant when it lower-cases to "yes". */
  predicate IsYes(verdict: string) {
    Lower(verdict) == "yes"
  }

  /** The verdicts that keep a document are exactly the eight spellings of
      "yes" in upper and lower case. */
  lemma IsYesSpelling(verdict: string)
    ensures IsYes(verdict) <==>
      |verdict| == 3 && verdict[0] in "yY" && verdict[1] in "eE" && verdict[2] in "sS"
  {
    if IsYes(verdict) {
      assert |verdict| == 3;
      assert LowerChar(verdict[0]) == Lower(verdict)[0] == 'y';
      assert LowerChar(verdict[1]) == Lower(verdict)[1] == 'e';
      assert LowerChar(verdict[2]) == Lower(verdict)[2] == 's';
    }
    if |verdict| == 3 && verdict[0] in "yY" && verdict[1] in "eE" && verdict[2] in "sS" {
      var lowered := Lower(verdict);
      assert lowered[0] == 'y' && lowered[1] == 'e' && lowered[2] == 's';
      assert lowered == "yes";
    }
  }

  /** Some document was graded irrelevant. */
  predicate AnyRejected(verdicts: seq<string>) {
    exists i :: 0 <= i < |verdicts| && !IsYes(verdicts[i])
  }

  /** The documents graded relevant, in the order the loop appends them. */
  function Kept(documents: seq<Document>, verdicts: seq<string>): seq<Document>
    requires |verdicts| == |documents|
  {
    if documents == [] then []
    else
      var n := |documents| - 1;
      Kept(documents[..n], verdicts[..n]) + (if IsYes(verdicts[n]) then [documents[n]] else [])
  }

  /** The positions whose verdict is "yes", in increasing order. */
  function YesPositions(verdicts: seq<string>): seq<nat> {
    if verdicts == [] then []
    else
      var n := |verdicts| - 1;
      YesPositions(verdicts[..n]) + (if IsYes(verdicts[n]) then [n] else [])
  }

  /** `picked` is the subsequence of `source` at the strictly increasing
      positions `at`. */
  ghost predicate PickedAt<T>(picked: seq<T>, source: seq<T>, at: seq<nat>) {
    |at| == |picked| &&
    (forall j :: 0 <= j < |at| ==> at[j] < |source| && picked[j] == source[at[j]]) &&
    (forall j, k :: 0 <= j < k < |at| ==> at[j] < at[k])
  }

  /** A position is listed exactly when its verdict is "yes"; the list is
      increasing and within bounds. */
  lemma {:induction false} YesPositionsExact(verdicts: seq<string>)
    ensures forall j :: 0 <= j < |YesPositions(verdicts)| ==> YesPositions(verdicts)[j] < |verdicts|
    ensures forall j, k :: 0 <= j < k < |YesPositions(verdicts)| ==>
      YesPositions(verdicts)[j] < YesPositions(verdicts)[k]
    ensures forall i :: 0 <= i < |verdicts| ==> (IsYes(verdicts[i]) <==> i in YesPositions(verdicts))
  {
    if verdicts != [] {
      var n := |verdicts| - 1;
      YesPositionsExact(verdicts[..n]);
      assert forall i :: 0 <= i < n ==> verdicts[..n][i] == verdicts[i];
    }
  }

  /** Grading keeps exactly the documents whose verdict is "yes", in their
      original relative order: the output is the input at the "yes" positions. */
  lemma {:induction false} KeptIsSubsequence(documents: seq<Document>, verdicts: seq<string>)
    requires |verdicts| == |documents|
    ensures PickedAt(Kept(documents, verdicts), documents, YesPositions(verdicts))
    ensures forall i :: 0 <= i < |documents| ==> (IsYes(verdicts[i]) <==> i in YesPositions(verdicts))
  {
    YesPositionsExact(verdicts);
    if documents != [] {
      var n := |documents| - 1;
      KeptIsSubsequence(documents[..n], verdicts[..n]);
      YesPositionsExact(verdicts[..n]);
    }
  }

  /** Grading never adds documents, and it keeps them all exactly when no
      verdict rejected one; an empty input rejects nothing. */
  lemma {:induction false} KeptLength(documents: seq<Document>, verdicts: seq<string>)
    requires |verdicts| == |documents|
    ensures |Kept(documents, verdicts)| <= |documents|
    ensures |Kept(documents, verdicts)| == |documents| <==> !AnyRejected(verdicts)
    ensures !AnyRejected(verdicts) ==> Kept(documents, verdicts) == documents
    ensures documents == [] ==> !AnyRejected(verdicts)
  {
    if documents != [] {
      var n := |documents| - 1;
      KeptLength(documents[..n], verdicts[..n]);
      assert AnyRejected(verdicts) <==> AnyRejected(verdicts[..n]) || !IsYes(verdicts[n]) by {
        if AnyRejected(verdicts) {
          var i :| 0 <= i < |verdicts| && !IsYes(verdicts[i]);
          if i < n { assert verdicts[..n][i] == verdicts[i]; }
        }
        if AnyRejected(verdicts[..n]) {
          var i :| 0 <= i < n && !IsYes(verdicts[..n][i]);
          assert verdicts[i] == verdicts[..n][i];
        }
      }
      assert documents[..n] + [documents[n]] == documents;
    }
  }

  /** When every verdict rejects, nothing is kept. */
  lemma {:induction false} AllRejectedKeepsNothing(documents: seq<Document>, verdicts: seq<string>)
    requires |verdicts| == |documents|
    requires forall i :: 0 <= i < |verdicts| ==> !IsYes(verdicts[i])
    ensures Kept(documents, verdicts) == []
    ensures documents != [] ==> AnyRejected(verdicts)
  {
    if documents != [] {
      var n := |documents| - 1;
      AllRejectedKeepsNothing(documents[..n], verdicts[..n]);
      assert !IsYes(verdicts[0]);
    }
  }

  /** The state after grading: the relevant documents and the search flag
      replace the old ones; question and solution are carried over. */
  function GradedState(state: GraphState, verdicts: seq<string>): GraphState
    requires state.documents.Some? && |verdicts| == |state.documents.value|
  {
    state.(documents := Some(Kept(state.documents.value, verdicts)),
           onlineSearch := AnyRejected(verdicts))
  }

  /** The grading node. `verdicts[i]` is the relevance classifier's answer for the i-th
      document. */
  method Evaluate(state: GraphState, verdicts: seq<string>) returns (update: GraphState)
    requires state.documents.Some? && |verdicts| == |state.documents.value|
    ensures update == GradedState(state, verdicts)
    ensures update.question == state.question
    ensures update.documents.Some? && |update.documents.value| <= |state.documents.value|
    ensures update.onlineSearch <==> |update.documents.value| < |state.documents.value|
    ensures update.onlineSearch <==> exists i :: 0 <= i < |verdicts| && !IsYes(verdicts[i])
  {
    var question := state.question;
    var documents := state.documents.value;
    var filtered: seq<Document> := [];
    var onlineSearch := false;
    var i := 0;
    while i < |documents|
      invariant 0 <= i <= |documents|
      invariant filtered == Kept(documents[..i], verdicts[..i])
      invariant onlineSearch <==> AnyRejected(verdicts[..i])
    {
      assert documents[..i + 1][..i] == documents[..i];
      assert verdicts[..i + 1][..i] == verdicts[..i];
      if IsYes(verdicts[i]) {
        filtered := filtered + [documents[i]];
      } else {
        onlineSearch := true;
        assert verdicts[..i + 1][i] == verdicts[i];
      }
      if AnyRejected(verdicts[..i]) {
        var k :| 0 <= k < i && !IsYes(verdicts[..i][k]);
        assert verdicts[..i + 1][k] == verdicts[..i][k];
      }
      if AnyRejected(verdicts[..i + 1]) && IsYes(verdicts[i]) {
        var k :| 0 <= k < i + 1 && !IsYes(verdicts[..i + 1][k]);
        assert verdicts[..i][k] == verdicts[..i + 1][k];
      }
      i := i + 1;
    }
    assert documents[..i] == documents && verdicts[..i] == verdicts;
    KeptLength(documents, verdicts);
    update := state.(question := question, documents := Some(filtered), onlineSearch := onlineSearch);
  }
}
