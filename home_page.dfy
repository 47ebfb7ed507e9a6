/** The home page's enroll button (src/pages/home/homepage.jsx); its search
    and category list are `CourseCatalog`'s. */
module HomePage {
  import opened Wrappers

  /** What `handleEnroll` does: whether it sends the enroll POST, and where
      it navigates. */
  datatype EnrollOutcome = EnrollOutcome(posted: bool, navigateTo: Option<string>)

  /** `handleEnroll(courseId)`; `ok` is whether the POST succeeds. */
  function HandleEnroll(loggedIn: bool, ok: bool, courseId: string): (r: EnrollOutcome)
    ensures !loggedIn ==> !r.posted && r.navigateTo == Some("/login")
    ensures loggedIn ==> r.posted
    ensures loggedIn && ok ==> r.navigateTo == Some("/courses/" + courseId)
    ensures loggedIn && !ok ==> r.navigateTo == None
  {
    if !loggedIn then EnrollOutcome(false, Some("/login"))
    else if ok then EnrollOutcome(true, Some("/courses/" + courseId))
    else EnrollOutcome(true, None)
  }

  /** A visitor who is not logged in never sends a request, whatever the
      course, and an enrolled user lands on the course they chose. */
  lemma EnrollNeedsUser(ok: bool, courseId: string, other: string)
    ensures HandleEnroll(false, ok, courseId) == HandleEnroll(false, !ok, other)
    ensures HandleEnroll(true, true, courseId).navigateTo == HandleEnroll(true, true, other).navigateTo <==> courseId == other
  {
    if HandleEnroll(true, true, courseId).navigateTo == HandleEnroll(true, true, other).navigateTo {
      assert ("/courses/" + courseId)[9..] == courseId;
      assert ("/courses/" + other)[9..] == other;
    }
  }
}
