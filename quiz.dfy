/** Quiz grading shared by the lesson page (which collects the answers) and
    the backend's quiz route (which grades them): each question is correct
    when the SET of submitted answers equals the set of correct answers, and
    a quiz passes at 80%. */
module Quiz {

  /** One entry of an answer list: the index of a chosen option, or the text
      typed for a typing question. */
  datatype Answer = OptionIndex(index: int) | Typed(text: string)

  /** A stored quiz question; only its `correct_answers` list matters for
      grading. */
  datatype QuizQuestion = QuizQuestion(text: string, correctAnswers: seq<Answer>)

  /** Python's `set(xs)`. */
  function AsSet(xs: seq<Answer>): set<Answer> {
    set a | a in xs
  }

  /** `answers.get(str(i), [])`: the list submitted for question `i`, or the
      empty list when none was submitted. */
  function AnswerFor(answers: map<nat, seq<Answer>>, i: nat): seq<Answer> {
    if i in answers then answers[i] else []
  }

  /** A question counts as correct when the submitted answers and the correct
      answers form the same set: order and repetition do not matter. */
  predicate IsCorrect(q: QuizQuestion, given: seq<Answer>) {
    AsSet(given) == AsSet(q.correctAnswers)
  }

  /** Reference definition of the grade: the indices of the questions
      answered correctly. */
  function CorrectIndices(qs: seq<QuizQuestion>, answers: map<nat, seq<Answer>>, n: nat): set<nat>
    requires n <= |qs|
  {
    set i: nat | i < n && IsCorrect(qs[i], AnswerFor(answers, i))
  }

  /** The grading loop's accumulator after the first `n` questions. */
  function CountCorrect(qs: seq<QuizQuestion>, answers: map<nat, seq<Answer>>, n: nat): nat
    requires n <= |qs|
  {
    if n == 0 then 0
    else CountCorrect(qs, answers, n - 1) + (if IsCorrect(qs[n - 1], AnswerFor(answers, n - 1)) then 1 else 0)
  }

  /** The accumulated count is the number of correctly answered questions,
      hence never more than the number of questions. */
  lemma {:induction false} CountCorrectIsCardinality(qs: seq<QuizQuestion>, answers: map<nat, seq<Answer>>, n: nat)
    requires n <= |qs|
    ensures CountCorrect(qs, answers, n) == |CorrectIndices(qs, answers, n)|
    ensures CountCorrect(qs, answers, n) <= n
  {
    if n > 0 {
      CountCorrectIsCardinality(qs, answers, n - 1);
      var prev := CorrectIndices(qs, answers, n - 1);
      if IsCorrect(qs[n - 1], AnswerFor(answers, n - 1)) {
        assert CorrectIndices(qs, answers, n) == prev + {n - 1};
      } else {
        assert CorrectIndices(qs, answers, n) == prev;
      }
    }
  }

  /** A question with no submitted answer is graded as if `[]` had been
      submitted: it counts as correct exactly when it has no correct
      answers. */
  lemma MissingAnswerCountsAsEmpty(qs: seq<QuizQuestion>, answers: map<nat, seq<Answer>>, i: nat)
    requires i < |qs| && i !in answers
    ensures i in CorrectIndices(qs, answers, |qs|) <==> qs[i].correctAnswers == []
  {
    var cs := qs[i].correctAnswers;
    if cs != [] {
      assert cs[0] in AsSet(cs);
    }
  }

  /** The loop of `submit_quiz`: count the questions whose submitted answer
      set equals their correct answer set. */
  method Grade(qs: seq<QuizQuestion>, answers: map<nat, seq<Answer>>) returns (correct: nat)
    ensures correct == |CorrectIndices(qs, answers, |qs|)|
    ensures correct <= |qs|
  {
    correct := 0;
    var i := 0;
    while i < |qs|
      invariant 0 <= i <= |qs|
      invariant correct == CountCorrect(qs, answers, i)
    {
      var given := if i in answers then answers[i] else [];
      if AsSet(given) == AsSet(qs[i].correctAnswers) {
        correct := correct + 1;
      }
      i := i + 1;
    }
    CountCorrectIsCardinality(qs, answers, |qs|);
  }

  /** `score >= 80` with `score = correct / total * 100`, in integers. */
  predicate Passed(correct: int, total: int) {
    5 * correct >= 4 * total
  }

  /** The percentage the backend stores as `quiz_score`. */
  function Score(correct: nat, total: nat): real
    requires total > 0
  {
    (correct as real / total as real) * 100.0
  }

  /** The integer threshold agrees with the percentage test of the source,
      for every non-empty quiz. */
  lemma PassedIffScore(correct: nat, total: nat)
    requires total > 0
    ensures Passed(correct, total) <==> Score(correct, total) >= 80.0
  {
    var c, t := correct as real, total as real;
    assert (c / t) * 100.0 * t == c * 100.0;
    if Score(correct, total) >= 80.0 {
      assert (c / t) * 100.0 * t >= 80.0 * t;
    } else {
      assert (c / t) * 100.0 * t < 80.0 * t;
    }
  }
}
