/** The typed-answer component (src/typeanswer.jsx): the first non-blank
    submission records feedback, and the feedback then locks the input and
    the Submit button. */
module TypeAnswer {
  import opened Wrappers
  import opened Text
  import opened PracticeQuestion

  /** The `feedback` state once set. */
  datatype Feedback = Feedback(isCorrect: bool, correctAnswer: string)

  /** `disabled={!userAnswer.trim() || feedback !== null}`. */
  predicate SubmitDisabled(userAnswer: string, feedback: Option<Feedback>) {
    IsBlank(userAnswer) || feedback.Some?
  }

  class TypeAnswerQuestion {
    /** The `question` prop of the latest render. */
    var question: Question
    var userAnswer: string
    var feedback: Option<Feedback>
    /** The arguments of the `onSubmit` calls made so far. */
    var submissions: seq<bool>

    /** `onSubmit` is called once, with the result the feedback shows, and
        only after the feedback is set. */
    ghost predicate Valid()
      reads this
    {
      match feedback
      case None => submissions == []
      case Some(f) => submissions == [f.isCorrect]
    }

    constructor (q: Question)
      ensures Valid()
      ensures question == q && userAnswer == "" && feedback == None && submissions == []
    {
      question := q;
      userAnswer := "";
      feedback := None;
      submissions := [];
    }

    /** A re-render that passes a new `question` prop to this instance, as
        React does when an element of the same type stays at the same place
        without a `key`. The answer, the feedback and the calls made so far
        are kept. */
    method ReceiveQuestion(q: Question)
      requires Valid()
      modifies this`question
      ensures Valid()
      ensures question == q
    {
      question := q;
    }

    /** `onChange`: the input takes the new text unless the feedback has
        disabled it. */
    method Input(text: string)
      requires Valid()
      modifies this`userAnswer
      ensures Valid()
      ensures userAnswer == if old(feedback).None? then text else old(userAnswer)
    {
      if feedback.None? {
        userAnswer := text;
      }
    }

    /** `handleSubmit`, from the button or the Enter key. A blank answer does
        nothing; a question without an expected answer throws in
        `toLowerCase`, leaving the state as it was. The delayed `onSubmit`
        call is recorded at once. */
    method Submit()
      requires Valid()
      modifies this`feedback, this`submissions
      ensures Valid()
      ensures |submissions| <= 1
      ensures SubmitDisabled(userAnswer, old(feedback)) || question.expectedAnswer.None? ==>
        feedback == old(feedback) && submissions == old(submissions)
      ensures !SubmitDisabled(userAnswer, old(feedback)) && question.expectedAnswer.Some? ==>
        var ok := AnswerMatches(userAnswer, question.expectedAnswer).value;
        feedback == Some(Feedback(ok, question.expectedAnswer.value)) && submissions == [ok]
    {
      if IsBlank(userAnswer) || feedback.Some? {
        return;
      }
      match AnswerMatches(userAnswer, question.expectedAnswer)
      case None =>
      case Some(ok) =>
        feedback := Some(Feedback(ok, question.expectedAnswer.value));
        submissions := submissions + [ok];
    }
  }

  /** However the user types and submits, `onSubmit` is called at most once,
      and once it has been called neither the answer nor the feedback
      change again. */
  method SubmitTwice(q: Question, first: string, second: string)
    returns (calls: seq<bool>)
    ensures |calls| <= 1
    ensures q.expectedAnswer.Some? && !IsBlank(first) ==>
      calls == [AnswerMatches(first, q.expectedAnswer).value]
  {
    var c := new TypeAnswerQuestion(q);
    c.Input(first);
    c.Submit();
    c.Input(second);
    c.Submit();
    calls := c.submissions;
  }
}
