/** The learner dashboard (src/pages/dashboard/DashboardPage.jsx): the
    Continue Learning slice and the per-course progress lookups. */
module DashboardPage {
  import opened Wrappers

  datatype EnrolledCourse = EnrolledCourse(id: string, title: string, category: string)

  /** An entry of /users/progress. A missing `last_accessed` is `None`. */
  datatype ProgressEntry = ProgressEntry(courseId: string, progress: real, lastAccessed: Option<string>)

  /** The position of the first entry for `courseId`, or -1. */
  function FirstMatch(ps: seq<ProgressEntry>, courseId: string): (i: int)
    ensures -1 <= i < |ps|
    ensures i == -1 <==> forall p :: p in ps ==> p.courseId != courseId
    ensures i >= 0 ==> ps[i].courseId == courseId && forall j :: 0 <= j < i ==> ps[j].courseId != courseId
  {
    if ps == [] then -1
    else if ps[0].courseId == courseId then 0
    else
      var rest := FirstMatch(ps[1..], courseId);
      assert forall p :: p in ps <==> p == ps[0] || p in ps[1..];
      if rest == -1 then -1 else rest + 1
  }

  /** `progress.find(p => p.course_id === course.id)`. */
  function FindProgress(ps: seq<ProgressEntry>, courseId: string): Option<ProgressEntry> {
    var i := FirstMatch(ps, courseId);
    if i == -1 then None else Some(ps[i])
  }

  /** `courseProgress.progress`, with the default `{ progress: 0 }`. */
  function CourseProgress(ps: seq<ProgressEntry>, courseId: string): real {
    match FindProgress(ps, courseId)
    case Some(p) => p.progress
    case None => 0.0
  }

  /** `courseProgress.last_accessed || 'Never'`, with the default
      `last_accessed: ''`. */
  function LastAccessedLabel(ps: seq<ProgressEntry>, courseId: string): string {
    match FindProgress(ps, courseId)
    case Some(ProgressEntry(_, _, Some(s))) => if s != "" then s else "Never"
    case _ => "Never"
  }

  /** `enrolledCourses.slice(0, 3)`. */
  function ContinueLearning(cs: seq<EnrolledCourse>): (r: seq<EnrolledCourse>)
    ensures |r| == if |cs| < 3 then |cs| else 3
    ensures r == cs[..|r|]
  {
    if |cs| < 3 then cs else cs[..3]
  }

  /** `enrolledCourses.length > 0` decides between the course lists and the
      browse prompt. */
  predicate ShowsBrowsePrompt(cs: seq<EnrolledCourse>) {
    !(|cs| > 0)
  }

  /** The progress shown is the first matching entry's, or 0 without one;
      the label is 'Never' exactly when there is no entry or its
      `last_accessed` is missing, empty or itself 'Never'. */
  lemma LookupDefaults(ps: seq<ProgressEntry>, courseId: string)
    ensures (forall p :: p in ps ==> p.courseId != courseId) ==> CourseProgress(ps, courseId) == 0.0
    ensures forall i :: 0 <= i < |ps| && ps[i].courseId == courseId && (forall j :: 0 <= j < i ==> ps[j].courseId != courseId) ==>
      CourseProgress(ps, courseId) == ps[i].progress
    ensures LastAccessedLabel(ps, courseId) == "Never" <==>
      FindProgress(ps, courseId).None? || FindProgress(ps, courseId).value.lastAccessed in {None, Some(""), Some("Never")}
  {
  }

  /** The browse prompt appears exactly when nothing is enrolled, and then
      Continue Learning is empty too. */
  lemma BrowsePromptIffEmpty(cs: seq<EnrolledCourse>)
    ensures ShowsBrowsePrompt(cs) <==> ContinueLearning(cs) == []
  {
  }
}
