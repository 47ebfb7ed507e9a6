/** The practice session of src/LessonPractice.jsx: the question index, the
    score, the completion flag, and the score posted when the last question
    is answered. */
module LessonPractice {
  import opened Wrappers
  import opened Text
  import opened PracticeQuestion
  import opened TypeAnswer

  /** The parent's progress state as the `updateProgress` reducer sees it;
      a missing `xp` is `None`, and a missing `lessons_completed` map is
      empty. */
  datatype PracticeProgress = PracticeProgress(xp: Option<int>, lessonsCompleted: map<string, int>)

  /** `prev.xp || 0`. */
  function XpOf(p: PracticeProgress): int {
    p.xp.GetOr(0)
  }

  /** `prev.lessons_completed?.[id] || 0`. */
  function CompletedCount(p: PracticeProgress, id: string): int {
    if id in p.lessonsCompleted then p.lessonsCompleted[id] else 0
  }

  /** The reducer passed to `updateProgress` after a successful POST. */
  function UpdateProgress(prev: PracticeProgress, id: string, score: int): (next: PracticeProgress)
    ensures XpOf(next) == XpOf(prev) + score
    ensures CompletedCount(next, id) == CompletedCount(prev, id) + 1
    ensures forall other :: other != id ==> CompletedCount(next, other) == CompletedCount(prev, other)
    ensures next.lessonsCompleted.Keys == prev.lessonsCompleted.Keys + {id}
  {
    PracticeProgress(Some(XpOf(prev) + score), prev.lessonsCompleted[id := CompletedCount(prev, id) + 1])
  }

  /** `Math.min(score, 100)`, the width of the XP bar. */
  function BarWidth(score: int): (w: int)
    ensures w <= 100 && w <= score
    ensures w == score || w == 100
  {
    if score < 100 then score else 100
  }

  /** The number of `true` entries. */
  function CountTrue(xs: seq<bool>): nat {
    if xs == [] then 0 else CountTrue(xs[..|xs| - 1]) + (if xs[|xs| - 1] then 1 else 0)
  }

  class Practice {
    /** `lesson.questions.length`. */
    const total: nat
    var currentQuestion: nat
    var score: int
    var completed: bool
    /** The `score` of the POST to /api/lessons/submit, once sent. */
    var submitted: Option<int>
    /** The answers given so far, in order. */
    ghost var answers: seq<bool>

    /** The index stays on a question; the score counts 10 per correct
        answer; the session completes after the last question, and the
        posted score misses the last answer's increment. */
    ghost predicate Valid()
      reads this
    {
      && total > 0
      && currentQuestion < total
      && score == 10 * CountTrue(answers)
      && (!completed ==> |answers| == currentQuestion && submitted.None?)
      && (completed ==> |answers| == total && currentQuestion == total - 1
                        && submitted == Some(10 * CountTrue(answers[..total - 1])))
    }

    constructor (questionCount: nat)
      requires questionCount > 0
      ensures Valid()
      ensures total == questionCount && currentQuestion == 0 && score == 0 && !completed && answers == []
    {
      total := questionCount;
      currentQuestion := 0;
      score := 0;
      completed := false;
      submitted := None;
      answers := [];
    }

    /** `handleAnswerSubmit`, reachable while a question is shown. The
        posted score is the `score` of the render that created the handler,
        which does not yet include this answer's 10 points. */
    method HandleAnswerSubmit(isCorrect: bool)
      requires Valid() && !completed
      modifies this`score, this`currentQuestion, this`completed, this`submitted, this`answers
      ensures Valid()
      ensures score == old(score) + (if isCorrect then 10 else 0)
      ensures answers == old(answers) + [isCorrect]
      ensures old(currentQuestion) < total - 1 ==>
        currentQuestion == old(currentQuestion) + 1 && !completed && submitted == None
      ensures old(currentQuestion) == total - 1 ==>
        currentQuestion == old(currentQuestion) && completed && submitted == Some(old(score))
      ensures score <= 10 * |answers|
    {
      assert (answers + [isCorrect])[..|answers|] == answers;
      var closureScore := score;
      if isCorrect {
        score := score + 10;
      }
      answers := answers + [isCorrect];
      if currentQuestion < total - 1 {
        currentQuestion := currentQuestion + 1;
      } else {
        completed := true;
        submitted := Some(closureScore);
      }
      CountTrueBound(answers);
    }
  }

  /** At most one point in ten per answer. */
  lemma {:induction false} CountTrueBound(xs: seq<bool>)
    ensures CountTrue(xs) <= |xs|
  {
    if xs != [] {
      CountTrueBound(xs[..|xs| - 1]);
    }
  }

  /** A whole session: with the answers given in order, the screen shows 10
      points per correct answer and the posted score leaves out the last
      answer's points. */
  method RunSession(answers: seq<bool>) returns (displayed: int, posted: int)
    requires |answers| > 0
    ensures displayed == 10 * CountTrue(answers)
    ensures posted == 10 * CountTrue(answers[..|answers| - 1])
    ensures displayed == posted + (if answers[|answers| - 1] then 10 else 0)
  {
    var p := new Practice(|answers|);
    var i := 0;
    while i < |answers|
      invariant 0 <= i <= |answers|
      invariant p.Valid() && p.total == |answers|
      invariant p.answers == answers[..i]
      invariant p.completed <==> i == |answers|
    {
      assert answers[..i + 1] == answers[..i] + [answers[i]];
      p.HandleAnswerSubmit(answers[i]);
      i := i + 1;
    }
    assert answers[..i] == answers;
    displayed := p.score;
    posted := p.submitted.value;
  }

  /** Typing `a` into a mounted typed question and pressing Submit; a new
      `onSubmit` call goes to the session's `handleAnswerSubmit`. */
  method TypeAndSubmit(p: Practice, view: TypeAnswerQuestion, a: string) returns (report: Option<bool>)
    requires p.Valid() && !p.completed && view.Valid()
    modifies p, view
    ensures p.Valid() && view.Valid() && view.question == old(view.question)
    ensures |view.submissions| <= 1
    ensures old(view.feedback).Some? ==> report == None && view.submissions == old(view.submissions)
    ensures old(view.feedback).None? && view.question.expectedAnswer.Some? && !IsBlank(a) ==>
      report == Some(AnswerMatches(a, view.question.expectedAnswer).value)
    ensures report.Some? ==> view.submissions == [report.value] && p.answers == old(p.answers) + [report.value]
    ensures report.Some? && old(p.currentQuestion) < p.total - 1 ==>
      p.currentQuestion == old(p.currentQuestion) + 1 && !p.completed
    ensures report.Some? && old(p.currentQuestion) == p.total - 1 ==> p.completed
    ensures report.None? ==>
      p.currentQuestion == old(p.currentQuestion) && p.completed == old(p.completed) && p.answers == old(p.answers)
  {
    var before := |view.submissions|;
    view.Input(a);
    view.Submit();
    if |view.submissions| > before {
      report := Some(view.submissions[0]);
      p.HandleAnswerSubmit(view.submissions[0]);
    } else {
      report := None;
    }
  }

  /** The answer an `onSubmit` call passed on, if any. */
  function Reports(r: Option<bool>): seq<bool> {
    if r.Some? then [r.value] else []
  }

  /** Two consecutive typed questions as src/LessonPractice.jsx:97-102
      renders them: the `TypeAnswer` element has no `key`, so React keeps the
      first question's instance and only hands it the second question. Its
      feedback is still set, so the second question cannot be submitted: at
      most one answer is ever reported and the session never completes. */
  method TypedPairAsWritten(q1: Question, q2: Question, a1: string, a2: string)
    returns (answers: seq<bool>, currentQuestion: nat, completed: bool)
    ensures |answers| <= 1 && !completed
    ensures q1.expectedAnswer.Some? && !IsBlank(a1) ==>
      answers == [AnswerMatches(a1, q1.expectedAnswer).value] && currentQuestion == 1
  {
    var p := new Practice(2);
    var view := new TypeAnswerQuestion(q1);
    var first := TypeAndSubmit(p, view, a1);
    view.ReceiveQuestion(q2);
    var second := TypeAndSubmit(p, view, a2);
    answers := Reports(first) + Reports(second);
    currentQuestion, completed := p.currentQuestion, p.completed;
  }

  /** The same pair with `key={currentQuestion}` on the element: moving to
      the second question mounts a fresh instance, so both answers are
      reported and the session completes. */
  method TypedPairKeyed(q1: Question, q2: Question, a1: string, a2: string)
    returns (answers: seq<bool>, currentQuestion: nat, completed: bool)
    ensures |answers| <= 2 && (completed <==> |answers| == 2)
    ensures q1.expectedAnswer.Some? && !IsBlank(a1) && q2.expectedAnswer.Some? && !IsBlank(a2) ==>
      answers == [AnswerMatches(a1, q1.expectedAnswer).value, AnswerMatches(a2, q2.expectedAnswer).value]
      && completed && currentQuestion == 1
  {
    var p := new Practice(2);
    var view := new TypeAnswerQuestion(q1);
    var first := TypeAndSubmit(p, view, a1);
    if first.Some? {
      view := new TypeAnswerQuestion(q2);
    }
    var second := TypeAndSubmit(p, view, a2);
    answers := Reports(first) + Reports(second);
    currentQuestion, completed := p.currentQuestion, p.completed;
  }
}
