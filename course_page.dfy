/** A course's page (src/pages/courses/CoursePage.jsx): the enrollment and
    progress state, the lesson status icons and the click and enroll
    handlers. */
module CoursePage {
  import opened Wrappers
  import Store

  datatype Icon = Lock | Check | Chevron

  /** `completedLessons.includes(lessonId)`. */
  predicate IsCompletedIn(completed: seq<string>, lessonId: string) {
    lessonId in completed
  }

  /** The icon at the end of a lesson row. */
  function StatusIcon(isEnrolled: bool, completed: seq<string>, lessonId: string): (icon: Icon)
    ensures icon == Lock <==> !isEnrolled
    ensures icon == Check <==> isEnrolled && IsCompletedIn(completed, lessonId)
    ensures icon == Chevron <==> isEnrolled && !IsCompletedIn(completed, lessonId)
  {
    if isEnrolled then (if IsCompletedIn(completed, lessonId) then Check else Chevron) else Lock
  }

  /** The row's `onClick`: the lesson route when enrolled, nothing
      otherwise. */
  function ClickTarget(isEnrolled: bool, lessonId: string): (r: Option<string>)
    ensures r.Some? <==> isEnrolled
    ensures r.Some? ==> r.value == "/lessons/" + lessonId
  {
    if isEnrolled then Some("/lessons/" + lessonId) else None
  }

  /** Once the server records a lesson as completed (after
      `complete_lesson` or a passed quiz), an enrolled learner sees a check
      on that lesson, and a locked course shows a lock whatever the
      progress. */
  lemma {:induction false} CompletedLessonShowsCheck(lessons: map<Store.LessonId, Store.Lesson>, ps: seq<Store.ProgressRecord>,
                                                      u: Store.UserId, c: Store.CourseId, l: Store.LessonId, op: Store.ProgressUpdate)
    requires Store.UniqueKeys(ps)
    requires l in lessons && lessons[l].courseId == c
    requires op == Store.MarkCompleted || (op.QuizResult? && op.passed)
    ensures StatusIcon(true, Store.CourseProgressOf(lessons, Store.Upsert(ps, Store.ProgressKey(u, c, l), op), u, c).completedLessons, l) == Check
  {
    Store.CompletingListsLesson(lessons, ps, u, c, l, op);
  }

  class CourseView {
    var isEnrolled: bool
    var progress: real
    var completedLessons: seq<string>

    constructor ()
      ensures !isEnrolled && progress == 0.0 && completedLessons == []
    {
      isEnrolled, progress, completedLessons := false, 0.0, [];
    }

    /** `fetchData`. A logged-out visitor gets the stand-in replies
        `{ isEnrolled: false }` and `{ progress: 0, completedLessons: [] }`;
        otherwise the server's enrollment check and course progress are
        taken as they come. */
    method Load(loggedIn: bool, enrolledReply: bool, progressReply: Store.CourseProgress)
      modifies this
      ensures !loggedIn ==> !isEnrolled && progress == 0.0 && completedLessons == []
      ensures loggedIn ==> (isEnrolled == enrolledReply && progress == progressReply.progress
        && completedLessons == progressReply.completedLessons)
    {
      if !loggedIn {
        isEnrolled, progress, completedLessons := false, 0.0, [];
      } else {
        isEnrolled, progress, completedLessons := enrolledReply, progressReply.progress, progressReply.completedLessons;
      }
    }

    /** `handleEnroll`; `ok` is whether the POST succeeds. Returns whether
        the visitor is sent to the login page. */
    method HandleEnroll(loggedIn: bool, ok: bool) returns (toLogin: bool)
      modifies this`isEnrolled
      ensures toLogin <==> !loggedIn
      ensures isEnrolled == if loggedIn && ok then true else old(isEnrolled)
    {
      if !loggedIn {
        return true;
      }
      toLogin := false;
      if ok {
        isEnrolled := true;
      }
    }
  }

  /** A logged-out visitor sees every row of `course.lessons.map` locked,
      and no row opens a lesson, even when the stand-in data would list
      lessons as completed. */
  method LoggedOutView(lessonIds: seq<string>) returns (icons: seq<Icon>, targets: seq<Option<string>>)
    ensures |icons| == |lessonIds| && |targets| == |lessonIds|
    ensures forall i :: 0 <= i < |icons| ==> icons[i] == Lock && targets[i] == None
  {
    var v := new CourseView();
    v.Load(false, true, Store.CourseProgress(1.0, lessonIds));
    var enrolled, completed := v.isEnrolled, v.completedLessons;
    icons := seq(|lessonIds|, i requires 0 <= i < |lessonIds| => StatusIcon(enrolled, completed, lessonIds[i]));
    targets := seq(|lessonIds|, i requires 0 <= i < |lessonIds| => ClickTarget(enrolled, lessonIds[i]));
  }
}
