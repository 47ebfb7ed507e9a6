/** The multiple-choice question component (src/mcq.jsx): one selection,
    replaced on every click, checked by strict equality. */
module Mcq {
  import opened Wrappers
  import opened PracticeQuestion

  /** `selectedOption === question.correctAnswer`. The selection starts as
      `null` and a missing `correctAnswer` is `undefined`; `null !==
      undefined`, so nothing selected is never correct. */
  predicate IsCorrect(selected: Option<string>, q: Question) {
    selected.Some? && q.correctAnswer == selected
  }

  /** `!selectedOption`: `null` and the empty string are both falsy. */
  predicate SubmitDisabled(selected: Option<string>) {
    selected.None? || selected.value == ""
  }

  /** An answer is accepted exactly when the selection is the stored
      `correctAnswer`; a question without one accepts nothing. */
  lemma IsCorrectIff(selected: Option<string>, q: Question)
    ensures IsCorrect(selected, q) <==> q.correctAnswer.Some? && selected == Some(q.correctAnswer.value)
    ensures q.correctAnswer.None? ==> !IsCorrect(selected, q)
  {
  }

  class McqQuestion {
    const question: Question
    var selected: Option<string>

    constructor (q: Question)
      ensures question == q && selected == None
    {
      question := q;
      selected := None;
    }

    /** `className`: an option is shown selected iff it equals the
        selection. */
    predicate IsSelected(option: string)
      reads this
    {
      selected == Some(option)
    }

    /** `onClick={() => setSelectedOption(option)}`. */
    method Click(option: string)
      requires question.options.Some? && option in question.options.value
      modifies this
      ensures selected == Some(option)
      ensures IsSelected(option) && forall o :: o != option ==> !IsSelected(o)
    {
      selected := Some(option);
    }

    /** The Submit button: nothing while disabled, otherwise `onSubmit` with
        the result of the check. */
    method Submit() returns (submitted: Option<bool>)
      ensures submitted.None? <==> SubmitDisabled(selected)
      ensures submitted.Some? ==> (submitted.value <==> question.correctAnswer == selected)
    {
      if SubmitDisabled(selected) {
        return None;
      }
      submitted := Some(IsCorrect(selected, question));
    }
  }
}
