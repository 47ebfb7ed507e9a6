/** The documents of the backend's MongoDB collections (src/Backend/run.py)
    as values, and the pure operations on those collections that the routes
    are built from: the login streak rule, progress upserts, the course
    progress fold and bookmark removal. */
module Store {
  import opened Wrappers
  import opened Quiz
  import opened Lists

  type UserId = string
  type CourseId = string
  type LessonId = string

  /** A `users` document. `lastLogin` is a day number. */
  datatype User = User(
    username: string,
    email: string,
    passwordHash: string,
    isAdmin: bool,
    points: int,
    streak: int,
    lastLogin: int)

  /** A `lessons` document; `questions` is `content.questions`, only read for
      quiz lessons. */
  datatype Lesson = Lesson(
    courseId: CourseId,
    lessonType: string,
    isFree: bool,
    duration: int,
    questions: seq<QuizQuestion>)

  /** An `enrollments` document. */
  datatype Enrollment = Enrollment(user: UserId, course: CourseId, completed: bool)

  /** A `bookmarks` document. */
  datatype Bookmark = Bookmark(user: UserId, lesson: LessonId)

  /** The fields a `progress` document is looked up and upserted by. */
  datatype ProgressKey = ProgressKey(user: UserId, course: CourseId, lesson: LessonId)

  /** A `progress` document. A field the document does not hold reads as
      the default the routes use with `.get`: progress 0, not completed,
      no quiz score, no video progress. */
  datatype ProgressRecord = ProgressRecord(
    key: ProgressKey,
    progress: real,
    completed: bool,
    quizScore: Option<real>,
    videoProgress: Option<real>)

  /** What `token_required` finds in the Authorization header: nothing, a
      token that does not decode, or a token naming a user id. */
  datatype Token = NoToken | BadToken | UserToken(id: UserId)

  /** A route's reply: a success status with a body, or an error status with
      the message the route puts under `error`. */
  datatype Response<T> = Ok(status: int, body: T) | Error(status: int, message: string)

  // ---------------------------------------------------------------------
  // Users

  /** The database keeps usernames and emails unique: `register` refuses a
      duplicate of either. */
  predicate UniqueIdentities(users: map<UserId, User>) {
    forall u1, u2 :: u1 in users && u2 in users && u1 != u2 ==>
      users[u1].username != users[u2].username && users[u1].email != users[u2].email
  }

  predicate UsernameTaken(users: map<UserId, User>, name: string) {
    exists u :: u in users && users[u].username == name
  }

  predicate EmailTaken(users: map<UserId, User>, email: string) {
    exists u :: u in users && users[u].email == email
  }

  /** The login streak rule: a login the day after the last one extends the
      streak, a second login on the same day keeps it, any other login
      restarts it at 1. */
  function NewStreak(lastLogin: int, today: int, streak: int): int {
    if lastLogin == today - 1 then streak + 1
    else if lastLogin == today then streak
    else 1
  }

  /** A user who logs in on each of `k` consecutive days following the last
      login gains exactly `k` on the streak. */
  lemma {:induction false} DailyLoginsExtendStreak(lastLogin: int, streak: int, k: nat)
    ensures StreakAfterDailyLogins(lastLogin, streak, k) == streak + k
  {
    if k > 0 {
      DailyLoginsExtendStreak(lastLogin, streak, k - 1);
    }
  }

  /** The streak after logging in once a day on days `lastLogin + 1` to
      `lastLogin + k`. */
  function StreakAfterDailyLogins(lastLogin: int, streak: int, k: nat): int {
    if k == 0 then streak
    else NewStreak(lastLogin + k - 1, lastLogin + k, StreakAfterDailyLogins(lastLogin, streak, k - 1))
  }

  /** `$inc: {points: n}` on user `u`. */
  function AddPoints(users: map<UserId, User>, u: UserId, n: int): map<UserId, User>
    requires u in users
  {
    users[u := users[u].(points := users[u].points + n)]
  }

  /** Missing a day always resets the streak to 1, whatever it was. */
  lemma MissedDayResets(lastLogin: int, today: int, streak: int)
    requires today > lastLogin + 1 || today < lastLogin
    ensures NewStreak(lastLogin, today, streak) == 1
  {
  }

  // ---------------------------------------------------------------------
  // Enrollments

  predicate IsEnrolled(es: seq<Enrollment>, u: UserId, c: CourseId) {
    exists e :: e in es && e.user == u && e.course == c
  }

  /** At most one enrollment per (user, course). */
  predicate OneEnrollmentPerCourse(es: seq<Enrollment>) {
    forall i, j :: 0 <= i < j < |es| ==> es[i].user != es[j].user || es[i].course != es[j].course
  }

  /** Appending the enrollment of a user not yet enrolled keeps the
      enrollments unique, and the user is enrolled afterwards. */
  lemma EnrollKeepsUnique(es: seq<Enrollment>, u: UserId, c: CourseId)
    requires OneEnrollmentPerCourse(es) && !IsEnrolled(es, u, c)
    ensures OneEnrollmentPerCourse(es + [Enrollment(u, c, false)])
    ensures IsEnrolled(es + [Enrollment(u, c, false)], u, c)
  {
    var es' := es + [Enrollment(u, c, false)];
    assert es'[|es|] in es';
    forall i, j | 0 <= i < j < |es'| ensures es'[i].user != es'[j].user || es'[i].course != es'[j].course {
      if j == |es| {
        assert es'[i] in es;
      }
    }
  }

  /** The course ids of `u`'s enrollments, in collection order. */
  function CoursesOf(es: seq<Enrollment>, u: UserId): (cs: seq<CourseId>)
    ensures |cs| <= |es|
  {
    if es == [] then []
    else CoursesOf(es[..|es| - 1], u) + (if es[|es| - 1].user == u then [es[|es| - 1].course] else [])
  }

  // ---------------------------------------------------------------------
  // Bookmarks

  /** `delete_one`: the collection without its first copy of `b`. */
  function RemoveFirst(bs: seq<Bookmark>, b: Bookmark): (r: seq<Bookmark>)
    ensures b in bs ==> |r| == |bs| - 1
    ensures b !in bs ==> r == bs
  {
    if bs == [] then []
    else if bs[0] == b then bs[1..]
    else [bs[0]] + RemoveFirst(bs[1..], b)
  }

  /** With no duplicates, removing `b` removes it entirely, keeps every other
      bookmark, and keeps the collection duplicate-free. */
  lemma {:induction false} RemoveFirstSpec(bs: seq<Bookmark>, b: Bookmark)
    requires NoDuplicates(bs)
    ensures NoDuplicates(RemoveFirst(bs, b))
    ensures forall x :: x in RemoveFirst(bs, b) <==> x in bs && x != b
  {
    if bs != [] {
      RemoveFirstSpec(bs[1..], b);
      assert forall x :: x in bs[1..] ==> x != bs[0];
      if bs[0] != b {
        var rest := RemoveFirst(bs[1..], b);
        var r := [bs[0]] + rest;
        forall i, j | 0 <= i < j < |r| ensures r[i] != r[j] {
          if i == 0 {
            assert r[j] in rest;
          } else {
            assert r[i] == rest[i - 1] && r[j] == rest[j - 1];
          }
        }
      }
    }
  }

  /** Adding a bookmark that was absent and then removing it restores the
      collection exactly. */
  lemma {:induction false} AddThenRemoveRestores(bs: seq<Bookmark>, b: Bookmark)
    requires b !in bs
    ensures RemoveFirst(bs + [b], b) == bs
  {
    if bs != [] {
      assert (bs + [b])[1..] == bs[1..] + [b];
      AddThenRemoveRestores(bs[1..], b);
    }
  }

  // ---------------------------------------------------------------------
  // Progress

  /** The `$set` part of the three progress upserts. */
  datatype ProgressUpdate =
    | QuizResult(score: real, passed: bool)         // submit_quiz
    | Watched(progress: real, video: Option<real>)   // lesson_progress POST
    | MarkCompleted                                  // complete_lesson

  /** A document as `upsert` creates it before the `$set` fields: only the
      query fields. */
  function EmptyRecord(k: ProgressKey): ProgressRecord {
    ProgressRecord(k, 0.0, false, None, None)
  }

  function ApplyUpdate(r: ProgressRecord, op: ProgressUpdate): ProgressRecord {
    match op
    case QuizResult(score, passed) =>
      r.(quizScore := Some(score), progress := if passed then 1.0 else 0.5, completed := passed)
    case Watched(p, v) => r.(progress := p, videoProgress := v)
    case MarkCompleted => r.(progress := 1.0, completed := true)
  }

  /** At most one progress document per (user, course, lesson). */
  predicate UniqueKeys(ps: seq<ProgressRecord>) {
    forall i, j :: 0 <= i < j < |ps| ==> ps[i].key != ps[j].key
  }

  /** The first position holding key `k`. */
  function IndexOf(ps: seq<ProgressRecord>, k: ProgressKey): (r: Option<nat>)
    ensures r.Some? ==> r.value < |ps| && ps[r.value].key == k && forall j :: 0 <= j < r.value ==> ps[j].key != k
    ensures r.None? ==> forall j :: 0 <= j < |ps| ==> ps[j].key != k
  {
    if ps == [] then None
    else if ps[0].key == k then Some(0)
    else match IndexOf(ps[1..], k)
      case Some(i) => Some(i + 1)
      case None => None
  }

  /** `find_one` on the progress collection. */
  function Lookup(ps: seq<ProgressRecord>, k: ProgressKey): (r: Option<ProgressRecord>)
    ensures r.Some? ==> r.value in ps && r.value.key == k
    ensures r.None? <==> forall d :: d in ps ==> d.key != k
  {
    match IndexOf(ps, k)
    case Some(i) => Some(ps[i])
    case None => None
  }

  /** `update_one(..., upsert=True)`: update the document with key `k`, or
      append a new one. */
  function Upsert(ps: seq<ProgressRecord>, k: ProgressKey, op: ProgressUpdate): seq<ProgressRecord> {
    match IndexOf(ps, k)
    case Some(i) => ps[i := ApplyUpdate(ps[i], op)]
    case None => ps + [ApplyUpdate(EmptyRecord(k), op)]
  }

  /** An upsert leaves exactly one document for its key, holding the update
      applied to the previous document (or to an empty one), and leaves the
      document of every other key as it was. */
  lemma UpsertSpec(ps: seq<ProgressRecord>, k: ProgressKey, op: ProgressUpdate)
    requires UniqueKeys(ps)
    ensures UniqueKeys(Upsert(ps, k, op))
    ensures Lookup(Upsert(ps, k, op), k) == Some(ApplyUpdate(Lookup(ps, k).GetOr(EmptyRecord(k)), op))
    ensures forall k' :: k' != k ==> Lookup(Upsert(ps, k, op), k') == Lookup(ps, k')
  {
    var ps' := Upsert(ps, k, op);
    match IndexOf(ps, k)
    case Some(i) =>
      assert |ps'| == |ps|;
      forall k' | k' != k ensures Lookup(ps', k') == Lookup(ps, k') {
        LookupOfSameKeys(ps, ps', k');
      }
      LookupUnique(ps', k, i);
    case None =>
      forall k' | k' != k ensures Lookup(ps', k') == Lookup(ps, k') {
        LookupOfSameKeys(ps, ps', k');
      }
      LookupUnique(ps', k, |ps|);
  }

  /** With unique keys, the document at a position holding `k` is the one
      `Lookup` finds. */
  lemma LookupUnique(ps: seq<ProgressRecord>, k: ProgressKey, i: nat)
    requires UniqueKeys(ps) && i < |ps| && ps[i].key == k
    ensures Lookup(ps, k) == Some(ps[i])
  {
  }

  /** Lookups of a key agree in two collections that hold the same documents
      for that key at the same places. */
  lemma LookupOfSameKeys(ps: seq<ProgressRecord>, qs: seq<ProgressRecord>, k: ProgressKey)
    requires |ps| <= |qs|
    requires forall j :: 0 <= j < |ps| ==> (ps[j].key == k || qs[j].key == k) ==> ps[j] == qs[j]
    requires forall j :: 0 <= j < |ps| ==> (ps[j].key == k <==> qs[j].key == k)
    requires forall j :: |ps| <= j < |qs| ==> qs[j].key != k
    ensures Lookup(ps, k) == Lookup(qs, k)
  {
  }

  /** The progress documents of user `u` in course `c`, in collection order:
      what `find({'user_id': u, 'course_id': c})` returns. */
  function ItemsOf(ps: seq<ProgressRecord>, u: UserId, c: CourseId): (items: seq<ProgressRecord>)
    ensures forall r :: r in items <==> r in ps && r.key.user == u && r.key.course == c
  {
    if ps == [] then []
    else
      var last := ps[|ps| - 1];
      ItemsOf(ps[..|ps| - 1], u, c) + (if last.key.user == u && last.key.course == c then [last] else [])
  }

  /** The running total `total_progress` of `get_course_progress`. */
  function SumProgress(items: seq<ProgressRecord>): real {
    if items == [] then 0.0 else SumProgress(items[..|items| - 1]) + items[|items| - 1].progress
  }

  /** The running list `completed_lessons` of `get_course_progress`. */
  function CompletedIds(items: seq<ProgressRecord>): seq<LessonId> {
    if items == [] then []
    else
      var last := items[|items| - 1];
      CompletedIds(items[..|items| - 1]) + (if last.completed then [last.key.lesson] else [])
  }

  /** `completedLessons` lists exactly the lesson ids of the completed
      documents, one entry per such document. */
  lemma {:induction false} CompletedIdsSpec(items: seq<ProgressRecord>)
    ensures forall l :: l in CompletedIds(items) <==> exists r :: r in items && r.completed && r.key.lesson == l
    ensures |CompletedIds(items)| <= |items|
  {
    if items != [] {
      var init := items[..|items| - 1];
      CompletedIdsSpec(init);
      assert items == init + [items[|items| - 1]];
      forall l | exists r :: r in items && r.completed && r.key.lesson == l
        ensures l in CompletedIds(items)
      {
        var r :| r in items && r.completed && r.key.lesson == l;
        if r != items[|items| - 1] {
          assert r in init;
        }
      }
    }
  }

  /** When every document's progress lies in [0, 1], the total lies between
      0 and the number of documents. */
  lemma {:induction false} SumProgressBounds(items: seq<ProgressRecord>)
    requires forall r :: r in items ==> 0.0 <= r.progress <= 1.0
    ensures 0.0 <= SumProgress(items) <= |items| as real
  {
    if items != [] {
      var init := items[..|items| - 1];
      assert forall r :: r in init ==> r in items;
      assert items[|items| - 1] in items;
      SumProgressBounds(init);
    }
  }

  /** `delete_many({'course_id': c})` on the lessons collection. */
  function DropCourseLessons(lessons: map<LessonId, Lesson>, c: CourseId): (m: map<LessonId, Lesson>)
    ensures forall l :: l in m <==> l in lessons && lessons[l].courseId != c
    ensures forall l :: l in m ==> m[l] == lessons[l]
  {
    map l | l in lessons && lessons[l].courseId != c :: lessons[l]
  }

  /** The number of lessons of course `c`: `len(lessons)` in
      `get_course_progress`. */
  function LessonCount(lessons: map<LessonId, Lesson>, c: CourseId): nat {
    |set l | l in lessons && lessons[l].courseId == c|
  }

  /** The reply of `get_course_progress`: the average progress and the
      completed lesson ids. */
  datatype CourseProgress = CourseProgress(progress: real, completedLessons: seq<LessonId>)

  function CourseProgressOf(lessons: map<LessonId, Lesson>, ps: seq<ProgressRecord>, u: UserId, c: CourseId): CourseProgress {
    var n := LessonCount(lessons, c);
    if n == 0 then CourseProgress(0.0, [])
    else
      var items := ItemsOf(ps, u, c);
      CourseProgress(SumProgress(items) / n as real, CompletedIds(items))
  }

  /** `get_course_progress`: a course without lessons reports 0 and nothing
      completed; otherwise the progress is the total over the number of
      lessons, and the completed list names exactly the lessons for which
      the user has a completed document in that course. */
  lemma CourseProgressSpec(lessons: map<LessonId, Lesson>, ps: seq<ProgressRecord>, u: UserId, c: CourseId)
    ensures LessonCount(lessons, c) == 0 ==> CourseProgressOf(lessons, ps, u, c) == CourseProgress(0.0, [])
    ensures LessonCount(lessons, c) > 0 ==>
      CourseProgressOf(lessons, ps, u, c).progress * LessonCount(lessons, c) as real == SumProgress(ItemsOf(ps, u, c))
    ensures LessonCount(lessons, c) > 0 ==> forall l ::
      l in CourseProgressOf(lessons, ps, u, c).completedLessons
      <==> exists r :: r in ps && r.key == ProgressKey(u, c, l) && r.completed
  {
    CompletedIdsSpec(ItemsOf(ps, u, c));
  }

  /** After `complete_lesson`, or a passed quiz, on lesson `l` of course `c`,
      the course progress lists `l` as completed. */
  lemma {:induction false} CompletingListsLesson(lessons: map<LessonId, Lesson>, ps: seq<ProgressRecord>,
                                                  u: UserId, c: CourseId, l: LessonId, op: ProgressUpdate)
    requires UniqueKeys(ps)
    requires l in lessons && lessons[l].courseId == c
    requires op == MarkCompleted || (op.QuizResult? && op.passed)
    ensures l in CourseProgressOf(lessons, Upsert(ps, ProgressKey(u, c, l), op), u, c).completedLessons
  {
    var k := ProgressKey(u, c, l);
    var ps' := Upsert(ps, k, op);
    UpsertSpec(ps, k, op);
    var r := Lookup(ps', k).value;
    assert r == ApplyUpdate(Lookup(ps, k).GetOr(EmptyRecord(k)), op);
    assert r in ps' && r.key == k && r.completed;
    var ofCourse := set l' | l' in lessons && lessons[l'].courseId == c;
    assert l in ofCourse;
    assert |ofCourse| > 0;
    CourseProgressSpec(lessons, ps', u, c);
  }

  /** The number of `u`'s courses whose average progress reaches 0.99. */
  function CountCompleted(lessons: map<LessonId, Lesson>, ps: seq<ProgressRecord>, u: UserId, cs: seq<CourseId>): (n: nat)
    ensures n <= |cs|
  {
    if cs == [] then 0
    else
      var done := CourseProgressOf(lessons, ps, u, cs[|cs| - 1]).progress >= 0.99;
      CountCompleted(lessons, ps, u, cs[..|cs| - 1]) + (if done then 1 else 0)
  }

  /** The reply of `user_stats`. */
  datatype Stats = Stats(totalCourses: nat, completedCourses: nat, streak: int, points: int)
}
