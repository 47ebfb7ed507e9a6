/** The practice admin dashboard (src/admindash.jsx): languages, lessons
    and the question builder. */
module AdminDash {
  import opened Wrappers
  import opened Text
  import opened PracticeQuestion
  import Mcq

  /** `currentLesson` once it exists. A field never typed into is modelled
      as "" (both are falsy and both display as ''), and a missing
      `questions` list as `[]`. */
  datatype LessonDraft = LessonDraft(title: string, language: string, questions: seq<Question>)

  /** `{...currentLesson}` when `currentLesson` may still be `null`. */
  function DraftOf(current: Option<LessonDraft>): LessonDraft {
    current.GetOr(LessonDraft("", "", []))
  }

  /** The four empty option inputs of a fresh form. */
  const BlankOptions: seq<string> := ["", "", "", ""]

  /** The `newQuestion` object of `addQuestion`. */
  function BuildQuestion(qtype: string, text: string, options: seq<string>, correctIndex: nat, expected: string): (q: Question)
    requires correctIndex < |options|
    ensures q.qtype == qtype && q.text == text
    ensures qtype == "mcq" ==>
      q.options == Some(options) && q.correctAnswer == Some(options[correctIndex]) && q.expectedAnswer == None
    ensures qtype == "type" || qtype == "voice" ==>
      q.options == None && q.correctAnswer == None && q.expectedAnswer == Some(expected)
    ensures qtype != "mcq" && qtype != "type" && qtype != "voice" ==>
      q.options == None && q.correctAnswer == None && q.expectedAnswer == None
  {
    if qtype == "mcq" then Question(qtype, text, Some(options), Some(options[correctIndex]), None)
    else if qtype == "type" || qtype == "voice" then Question(qtype, text, None, None, Some(expected))
    else Question(qtype, text, None, None, None)
  }

  /** A built multiple-choice question is answered correctly in the MCQ
      component exactly when the option text chosen as correct is
      selected. */
  lemma BuiltMcqAcceptsChosenOption(text: string, options: seq<string>, correctIndex: nat, expected: string, selected: string)
    requires correctIndex < |options|
    ensures Mcq.IsCorrect(Some(selected), BuildQuestion("mcq", text, options, correctIndex, expected))
            <==> selected == options[correctIndex]
  {
  }

  /** A built typed or spoken question never throws in the comparison and
      accepts exactly the answers equal to the expected one up to case. */
  lemma BuiltTypedAcceptsExpected(qtype: string, text: string, options: seq<string>, correctIndex: nat, expected: string, given: string)
    requires correctIndex < |options|
    requires qtype == "type" || qtype == "voice"
    ensures AnswerMatches(given, BuildQuestion(qtype, text, options, correctIndex, expected).expectedAnswer)
            == Some(Lower(given) == Lower(expected))
  {
  }

  class AdminDashboard {
    var languages: seq<string>
    var newLanguage: string
    var lessons: seq<LessonDraft>
    var currentLesson: Option<LessonDraft>
    var questionType: string
    var questionText: string
    var options: seq<string>
    var correctIndex: nat
    var expectedAnswer: string

    /** Four option inputs, and the radio button marks one of them. */
    ghost predicate Valid()
      reads this
    {
      |options| == 4 && correctIndex < |options|
    }

    constructor ()
      ensures Valid()
      ensures languages == [] && newLanguage == "" && lessons == [] && currentLesson == None
      ensures questionType == "mcq" && questionText == "" && options == BlankOptions
      ensures correctIndex == 0 && expectedAnswer == ""
    {
      languages, newLanguage, lessons, currentLesson := [], "", [], None;
      questionType, questionText, options := "mcq", "", BlankOptions;
      correctIndex, expectedAnswer := 0, "";
    }

    /** The language input's `onChange`. */
    method SetNewLanguage(text: string)
      modifies this`newLanguage
      ensures newLanguage == text
    {
      newLanguage := text;
    }

    /** `addLanguage`; `ok` is whether the POST to /api/languages succeeds.
        The language is stored untrimmed. */
    method AddLanguage(ok: bool)
      modifies this`languages, this`newLanguage
      ensures IsBlank(old(newLanguage)) || !ok ==> languages == old(languages) && newLanguage == old(newLanguage)
      ensures !IsBlank(old(newLanguage)) && ok ==> languages == old(languages) + [old(newLanguage)] && newLanguage == ""
    {
      if IsBlank(newLanguage) {
        return;
      }
      if ok {
        languages := languages + [newLanguage];
        newLanguage := "";
      }
    }

    /** The title input's `onChange`: `{...currentLesson, title}`. */
    method SetTitle(text: string)
      modifies this`currentLesson
      ensures currentLesson == Some(DraftOf(old(currentLesson)).(title := text))
    {
      currentLesson := Some(DraftOf(currentLesson).(title := text));
    }

    /** The language select's `onChange`: `{...currentLesson, language}`. */
    method SetLanguage(text: string)
      modifies this`currentLesson
      ensures currentLesson == Some(DraftOf(old(currentLesson)).(language := text))
    {
      currentLesson := Some(DraftOf(currentLesson).(language := text));
    }

    /** `createLesson`; `created` is the server's reply, `None` when the POST
        fails. Without a lesson, a title and a language nothing happens. */
    method CreateLesson(created: Option<LessonDraft>)
      modifies this`lessons, this`currentLesson
      ensures old(currentLesson).None? || old(currentLesson).value.title == "" || old(currentLesson).value.language == ""
              || created.None? ==>
        lessons == old(lessons) && currentLesson == old(currentLesson)
      ensures old(currentLesson).Some? && old(currentLesson).value.title != "" && old(currentLesson).value.language != ""
              && created.Some? ==>
        lessons == old(lessons) + [created.value]
        && currentLesson == Some(old(currentLesson).value.(questions := []))
    {
      if currentLesson.None? || currentLesson.value.title == "" || currentLesson.value.language == "" {
        return;
      }
      if created.Some? {
        lessons := lessons + [created.value];
        currentLesson := Some(currentLesson.value.(questions := []));
      }
    }

    method SetQuestionType(t: string)
      modifies this`questionType
      ensures questionType == t
    {
      questionType := t;
    }

    method SetQuestionText(text: string)
      modifies this`questionText
      ensures questionText == text
    {
      questionText := text;
    }

    method SetExpectedAnswer(text: string)
      modifies this`expectedAnswer
      ensures expectedAnswer == text
    {
      expectedAnswer := text;
    }

    /** The radio button of option `index`. */
    method SetCorrectIndex(index: nat)
      requires Valid() && index < |options|
      modifies this`correctIndex
      ensures Valid() && correctIndex == index
    {
      correctIndex := index;
    }

    /** Option input `index`: `newOptions[index] = value` on a copy. */
    method SetOption(index: nat, value: string)
      requires Valid() && index < |options|
      modifies this`options
      ensures Valid()
      ensures options == old(options)[index := value]
      ensures options[index] == value && forall j :: 0 <= j < |options| && j != index ==> options[j] == old(options)[j]
    {
      options := options[index := value];
    }

    /** `addQuestion`: a blank text is ignored; otherwise exactly one built
        question is appended to the lesson's questions and the form is
        reset. */
    method AddQuestion()
      requires Valid()
      modifies this`currentLesson, this`questionText, this`options, this`correctIndex, this`expectedAnswer
      ensures Valid()
      ensures IsBlank(old(questionText)) ==>
        currentLesson == old(currentLesson) && questionText == old(questionText) && options == old(options)
        && correctIndex == old(correctIndex) && expectedAnswer == old(expectedAnswer)
      ensures !IsBlank(old(questionText)) ==>
        var q := BuildQuestion(questionType, old(questionText), old(options), old(correctIndex), old(expectedAnswer));
        && currentLesson == Some(DraftOf(old(currentLesson)).(questions := DraftOf(old(currentLesson)).questions + [q]))
        && questionText == "" && options == BlankOptions && correctIndex == 0 && expectedAnswer == ""
    {
      if IsBlank(questionText) {
        return;
      }
      var q := BuildQuestion(questionType, questionText, options, correctIndex, expectedAnswer);
      var draft := DraftOf(currentLesson);
      currentLesson := Some(draft.(questions := draft.questions + [q]));
      questionText, options, correctIndex, expectedAnswer := "", BlankOptions, 0, "";
    }
  }

  /** Building a multiple-choice question through the form, after a title
      has opened the lesson draft that shows the question form: whatever
      option texts were typed, the question the MCQ component receives
      accepts the option marked correct. */
  method BuildThroughForm(texts: seq<string>, mark: nat) returns (q: Question, accepted: string)
    requires |texts| == 4 && mark < 4
    ensures q.qtype == "mcq" && q.options == Some(texts) && accepted == texts[mark]
    ensures Mcq.IsCorrect(Some(accepted), q)
  {
    var d := new AdminDashboard();
    d.SetTitle("Greetings");
    d.SetQuestionText("Pick one");
    TypeOptions(d, texts);
    d.SetCorrectIndex(mark);
    assert !IsBlank("Pick one");
    d.AddQuestion();
    assert d.currentLesson.value.questions == [BuildQuestion("mcq", "Pick one", texts, mark, "")];
    q := d.currentLesson.value.questions[0];
    accepted := texts[mark];
    BuiltMcqAcceptsChosenOption("Pick one", texts, mark, "", accepted);
  }

  /** Typing `texts` into the four option inputs, one after the other. */
  method TypeOptions(d: AdminDashboard, texts: seq<string>)
    requires d.Valid() && d.options == BlankOptions && |texts| == 4
    modifies d`options
    ensures d.Valid() && d.options == texts
  {
    var i := 0;
    while i < 4
      invariant 0 <= i <= 4
      invariant d.Valid()
      invariant d.options == texts[..i] + BlankOptions[i..]
    {
      d.SetOption(i, texts[i]);
      assert texts[..i + 1] == texts[..i] + [texts[i]];
      i := i + 1;
    }
    assert texts[..4] == texts;
  }
}
