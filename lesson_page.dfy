/** The lesson page (src/pages/lesson/lessonpage.jsx): navigation between a
    course's lessons, the quiz answer editors, and the handlers that update
    the page's progress, completion and bookmark state. */
module LessonPage {
  import opened Wrappers
  import opened Quiz

  // ---------------------------------------------------------------------
  // Navigation

  /** `course.lessons.findIndex(l => l.id === lesson.id)`: the first
      position of `id`, or -1. */
  function FindIndex(ids: seq<string>, id: string): (r: int)
    ensures -1 <= r < |ids|
    ensures r >= 0 ==> ids[r] == id && forall j :: 0 <= j < r ==> ids[j] != id
    ensures r == -1 <==> id !in ids
  {
    if ids == [] then -1
    else if ids[0] == id then 0
    else
      var rest := FindIndex(ids[1..], id);
      if rest == -1 then -1 else rest + 1
  }

  datatype Direction = Prev | Next

  /** `navigateToLesson`: the id of the lesson navigated to, if any. */
  function NavigateTarget(ids: seq<string>, id: string, dir: Direction): Option<string> {
    var i := FindIndex(ids, id);
    match dir
    case Prev => if i > 0 then Some(ids[i - 1]) else None
    case Next => if i < |ids| - 1 then Some(ids[i + 1]) else None
  }

  /** `disabled={findIndex(...) === 0}` on Previous. */
  predicate PrevDisabled(ids: seq<string>, id: string) {
    FindIndex(ids, id) == 0
  }

  /** `disabled={findIndex(...) === course.lessons.length - 1}` on Next. */
  predicate NextDisabled(ids: seq<string>, id: string) {
    FindIndex(ids, id) == |ids| - 1
  }

  /** For a lesson listed in its course, Previous moves one back and Next
      one forward, each exactly when its button is enabled. */
  lemma NavigationMatchesButtons(ids: seq<string>, id: string)
    requires id in ids
    ensures NavigateTarget(ids, id, Prev).Some? <==> !PrevDisabled(ids, id)
    ensures NavigateTarget(ids, id, Next).Some? <==> !NextDisabled(ids, id)
    ensures NavigateTarget(ids, id, Prev).Some? ==> NavigateTarget(ids, id, Prev).value == ids[FindIndex(ids, id) - 1]
    ensures NavigateTarget(ids, id, Next).Some? ==> NavigateTarget(ids, id, Next).value == ids[FindIndex(ids, id) + 1]
  {
  }

  /** For a lesson missing from the course list both buttons are enabled in
      a non-empty list; Previous does nothing and Next goes to the first
      lesson. */
  lemma UnlistedLessonNavigation(ids: seq<string>, id: string)
    requires id !in ids && ids != []
    ensures !PrevDisabled(ids, id) && !NextDisabled(ids, id)
    ensures NavigateTarget(ids, id, Prev) == None
    ensures NavigateTarget(ids, id, Next) == Some(ids[0])
  {
  }

  // ---------------------------------------------------------------------
  // Quiz answers

  /** `filter(i => i !== oIndex)`. */
  function RemoveAll(xs: seq<Answer>, a: Answer): (r: seq<Answer>)
    ensures a !in r
    ensures forall x :: x in r <==> x in xs && x != a
    ensures |r| <= |xs|
  {
    if xs == [] then []
    else
      var rest := RemoveAll(xs[1..], a);
      assert forall x :: x in xs <==> x == xs[0] || x in xs[1..];
      if xs[0] == a then rest else [xs[0]] + rest
  }

  /** The `onChange` of option `o` of question `q`: a checkbox appends on
      check and removes every occurrence on uncheck; a radio button selects
      that option alone. */
  function OptionChanged(answers: map<nat, seq<Answer>>, q: nat, o: nat, multiple: bool, checked: bool): map<nat, seq<Answer>> {
    if multiple then
      var current := AnswerFor(answers, q);
      if checked then answers[q := current + [OptionIndex(o)]]
      else answers[q := RemoveAll(current, OptionIndex(o))]
    else answers[q := [OptionIndex(o)]]
  }

  /** The textarea's `onChange`: the answer is the typed text alone. */
  function TextChanged(answers: map<nat, seq<Answer>>, q: nat, text: string): map<nat, seq<Answer>> {
    answers[q := [Typed(text)]]
  }

  /** Editing one question's answer changes no other question's, and
      leaves the edited one as the source describes. */
  lemma AnswerEditsSpec(answers: map<nat, seq<Answer>>, q: nat, o: nat, multiple: bool, checked: bool, text: string)
    ensures forall p :: p != q ==> AnswerFor(OptionChanged(answers, q, o, multiple, checked), p) == AnswerFor(answers, p)
    ensures forall p :: p != q ==> AnswerFor(TextChanged(answers, q, text), p) == AnswerFor(answers, p)
    ensures multiple && checked ==>
      AnswerFor(OptionChanged(answers, q, o, multiple, checked), q) == AnswerFor(answers, q) + [OptionIndex(o)]
    ensures multiple && !checked ==>
      var after := AnswerFor(OptionChanged(answers, q, o, multiple, checked), q);
      OptionIndex(o) !in after && forall x :: x in after <==> x in AnswerFor(answers, q) && x != OptionIndex(o)
    ensures !multiple ==> AnswerFor(OptionChanged(answers, q, o, multiple, checked), q) == [OptionIndex(o)]
    ensures AnswerFor(TextChanged(answers, q, text), q) == [Typed(text)]
  {
  }

  /** Checking a box and unchecking it again leaves an answer without that
      option as it was. */
  lemma CheckThenUncheck(answers: map<nat, seq<Answer>>, q: nat, o: nat)
    requires OptionIndex(o) !in AnswerFor(answers, q)
    ensures AnswerFor(OptionChanged(OptionChanged(answers, q, o, true, true), q, o, true, false), q) == AnswerFor(answers, q)
  {
    RemoveAllAbsent(AnswerFor(answers, q), OptionIndex(o));
    RemoveAllAppend(AnswerFor(answers, q), [OptionIndex(o)], OptionIndex(o));
  }

  lemma {:induction false} RemoveAllAppend(xs: seq<Answer>, ys: seq<Answer>, a: Answer)
    ensures RemoveAll(xs + ys, a) == RemoveAll(xs, a) + RemoveAll(ys, a)
  {
    if xs != [] {
      assert (xs + ys)[1..] == xs[1..] + ys;
      RemoveAllAppend(xs[1..], ys, a);
    } else {
      assert xs + ys == ys;
    }
  }

  lemma {:induction false} RemoveAllAbsent(xs: seq<Answer>, a: Answer)
    requires a !in xs
    ensures RemoveAll(xs, a) == xs
  {
    if xs != [] {
      assert a !in xs[1..];
      RemoveAllAbsent(xs[1..], a);
      assert xs == [xs[0]] + xs[1..];
    }
  }

  // ---------------------------------------------------------------------
  // Page state

  /** The requests `toggleBookmark` issues. */
  datatype BookmarkRequest = RedirectToLogin | DeleteBookmark | PostBookmark

  class LessonView {
    var progress: real
    var isCompleted: bool
    var isBookmarked: bool
    var quizAnswers: map<nat, seq<Answer>>

    constructor ()
      ensures progress == 0.0 && !isCompleted && !isBookmarked && quizAnswers == map[]
    {
      progress, isCompleted, isBookmarked, quizAnswers := 0.0, false, false, map[];
    }

    /** An option input's `onChange`. */
    method OnOptionChange(q: nat, o: nat, multiple: bool, checked: bool)
      modifies this`quizAnswers
      ensures quizAnswers == OptionChanged(old(quizAnswers), q, o, multiple, checked)
    {
      quizAnswers := OptionChanged(quizAnswers, q, o, multiple, checked);
    }

    /** The typing textarea's `onChange`. */
    method OnTextChange(q: nat, text: string)
      modifies this`quizAnswers
      ensures quizAnswers == TextChanged(old(quizAnswers), q, text)
    {
      quizAnswers := TextChanged(quizAnswers, q, text);
    }

    /** `handleQuizSubmit`. `correct` is the server's count, `None` when the
        quiz POST fails; `posted` is whether the progress POST succeeds;
        `questionCount` is `lesson.content.questions.length`. A count of 0
        is falsy and changes nothing. The threshold `score >= 80` is stated
        in integers; with no questions the score is Infinity, which passes,
        and so does `5 * correct >= 0`. */
    method HandleQuizSubmit(correct: Option<nat>, posted: bool, questionCount: nat)
      modifies this`isCompleted, this`progress
      ensures correct.None? || correct.value == 0 || !posted ==>
        isCompleted == old(isCompleted) && progress == old(progress)
      ensures correct.Some? && correct.value != 0 && posted ==>
        (isCompleted <==> Passed(correct.value, questionCount))
        && progress == if Passed(correct.value, questionCount) then 1.0 else 0.5
    {
      if correct.None? || correct.value == 0 {
        return;
      }
      if !posted {
        return;
      }
      var passed := 5 * correct.value >= 4 * questionCount;
      isCompleted := passed;
      progress := if passed then 1.0 else 0.5;
    }

    /** `markAsCompleted`; `ok` is whether the completion POST succeeds and
        `pointsOk` whether the points POST that follows it for a logged-in
        user succeeds. `announced` is the points the success toast shows,
        `Math.floor(duration * 2)` for an integer duration; `failed` is
        whether the catch shows 'Failed to mark as completed'. The page is
        marked completed before the points POST, so its failure does not
        undo that. */
    method MarkAsCompleted(ok: bool, loggedIn: bool, pointsOk: bool, duration: int)
      returns (announced: Option<int>, failed: bool)
      modifies this`isCompleted, this`progress
      ensures !ok ==> isCompleted == old(isCompleted) && progress == old(progress) && announced == None && failed
      ensures ok ==> isCompleted && progress == 1.0
      ensures ok && loggedIn && pointsOk ==> announced == Some(2 * duration) && !failed
      ensures ok && loggedIn && !pointsOk ==> announced == None && failed
      ensures ok && !loggedIn ==> announced == None && !failed
    {
      if !ok {
        return None, true;
      }
      isCompleted := true;
      progress := 1.0;
      if !loggedIn {
        return None, false;
      }
      if pointsOk {
        announced, failed := Some(2 * duration), false;
      } else {
        announced, failed := None, true;
      }
    }

    /** `toggleBookmark`; `ok` is whether the request succeeds. */
    method ToggleBookmark(loggedIn: bool, ok: bool) returns (request: BookmarkRequest)
      modifies this`isBookmarked
      ensures !loggedIn ==> request == RedirectToLogin && isBookmarked == old(isBookmarked)
      ensures loggedIn ==> request == (if old(isBookmarked) then DeleteBookmark else PostBookmark)
      ensures loggedIn && ok ==> isBookmarked == !old(isBookmarked)
      ensures !ok ==> isBookmarked == old(isBookmarked)
    {
      if !loggedIn {
        return RedirectToLogin;
      }
      request := if isBookmarked then DeleteBookmark else PostBookmark;
      if ok {
        isBookmarked := !isBookmarked;
      }
    }
  }

  /** Two successful toggles send a POST then a DELETE (or the reverse) and
      restore the bookmark flag. */
  method ToggleTwice(startBookmarked: bool) returns (first: BookmarkRequest, second: BookmarkRequest, finalState: bool)
    ensures finalState == startBookmarked
    ensures {first, second} == {DeleteBookmark, PostBookmark}
  {
    var v := new LessonView();
    v.isBookmarked := startBookmarked;
    first := v.ToggleBookmark(true, true);
    second := v.ToggleBookmark(true, true);
    finalState := v.isBookmarked;
  }
}
