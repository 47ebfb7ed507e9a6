/** A practice question as the admin dashboard builds it and the practice
    components read it (src/admindash.jsx, src/mcq.jsx, src/typeanswer.jsx,
    src/voicepractice.jsx). A field the builder does not set is `None`,
    JavaScript's `undefined`. */
module PracticeQuestion {
  import opened Wrappers
  import opened Text

  datatype Question = Question(
    qtype: string,
    text: string,
    options: Option<seq<string>>,
    correctAnswer: Option<string>,
    expectedAnswer: Option<string>)

  /** `given.toLowerCase() === expected.toLowerCase()`. With no expected
      answer `toLowerCase` throws before any result exists: `None`. */
  function AnswerMatches(given: string, expected: Option<string>): (r: Option<bool>)
    ensures r.None? <==> expected.None?
    ensures r.Some? ==> (r.value <==> (|given| == |expected.value|
      && forall i :: 0 <= i < |given| ==> LowerChar(given[i]) == LowerChar(expected.value[i])))
  {
    match expected
    case None => None
    case Some(e) =>
      assert Lower(given) == Lower(e) <==> |given| == |e| && forall i :: 0 <= i < |given| ==> LowerChar(given[i]) == LowerChar(e[i]) by {
        if |given| == |e| && forall i :: 0 <= i < |given| ==> LowerChar(given[i]) == LowerChar(e[i]) {
          assert forall i :: 0 <= i < |given| ==> Lower(given)[i] == Lower(e)[i];
        }
      }
      Some(Lower(given) == Lower(e))
  }

  /** The comparison ignores letter case on either side. */
  lemma {:induction false} AnswerMatchesIgnoresCase(given: string, expected: string)
    ensures AnswerMatches(Lower(given), Some(expected)) == AnswerMatches(given, Some(expected))
    ensures AnswerMatches(given, Some(Lower(expected))) == AnswerMatches(given, Some(expected))
  {
    LowerIdempotent(given);
    LowerIdempotent(expected);
  }

  /** The comparison does not trim: an answer with a leading space never
      matches an expected answer without one. */
  lemma AnswerMatchesDoesNotTrim(given: string, expected: string)
    requires expected != [] && expected[0] != ' '
    ensures AnswerMatches(" " + given, Some(expected)) == Some(false)
  {
    assert LowerChar((" " + given)[0]) == ' ';
  }
}
