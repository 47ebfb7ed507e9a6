/** The Flask routes of src/Backend/run.py over an abstract store. Each
    MongoDB collection is a field; each route is a method that checks its
    guards in the order the route does and then changes exactly the
    collections the route writes. */
module Backend {
  import opened Wrappers
  import opened Quiz
  import opened Store
  import opened Lists

  /** The reply of `submit_quiz`. */
  datatype QuizReply = QuizReply(correct: nat, total: nat, score: real, passed: bool)

  class Database {
    var users: map<UserId, User>
    var courses: set<CourseId>
    var lessons: map<LessonId, Lesson>
    var enrollments: seq<Enrollment>
    var progress: seq<ProgressRecord>
    var bookmarks: seq<Bookmark>

    /** What the routes keep true of the collections. */
    ghost predicate Valid()
      reads this
    {
      && UniqueIdentities(users)
      && OneEnrollmentPerCourse(enrollments)
      && UniqueKeys(progress)
      && NoDuplicates(bookmarks)
    }

    constructor ()
      ensures Valid()
      ensures users == map[] && courses == {} && lessons == map[]
      ensures enrollments == [] && progress == [] && bookmarks == []
    {
      users, courses, lessons := map[], {}, map[];
      enrollments, progress, bookmarks := [], [], [];
    }

    /** The `token_required` decorator: 401 unless the token names a stored
        user. */
    function Authenticate(t: Token): (r: Response<UserId>)
      reads this
      ensures r.Ok? <==> t.UserToken? && t.id in users
      ensures r.Ok? ==> r.body == t.id
      ensures r.Error? ==> r.status == 401
      ensures t.NoToken? ==> r == Error(401, "Token is missing")
      ensures t.BadToken? ==> r == Error(401, "Token is invalid")
      ensures t.UserToken? && t.id !in users ==> r == Error(401, "User not found")
    {
      match t
      case NoToken => Error(401, "Token is missing")
      case BadToken => Error(401, "Token is invalid")
      case UserToken(id) => if id in users then Ok(200, id) else Error(401, "User not found")
    }

    /** `token_required` followed by `admin_required`: 403 for an
        authenticated user whose `is_admin` is not set. */
    function AuthenticateAdmin(t: Token): (r: Response<UserId>)
      reads this
      ensures r.Ok? <==> t.UserToken? && t.id in users && users[t.id].isAdmin
      ensures r.Ok? ==> r.body == t.id
      ensures r.Error? && Authenticate(t).Ok? ==> r == Error(403, "Admin access required")
      ensures Authenticate(t).Error? ==> r == Authenticate(t)
    {
      match Authenticate(t)
      case Error(s, m) => Error(s, m)
      case Ok(_, u) => if users[u].isAdmin then Ok(200, u) else Error(403, "Admin access required")
    }

    /** POST /api/auth/register. `hashPassword` stands for werkzeug's
        `generate_password_hash`; `newId` is the id MongoDB assigns and
        `today` the current day. */
    method Register(username: string, email: string, password: string,
                    hashPassword: string -> string, newId: UserId, today: int)
      returns (r: Response<UserId>)
      requires Valid() && newId !in users
      modifies this`users
      ensures Valid()
      ensures username == "" || email == "" || password == "" ==> r == Error(400, "Missing required fields")
      ensures r.Ok? <==>
        username != "" && email != "" && password != ""
        && !UsernameTaken(old(users), username) && !EmailTaken(old(users), email)
      ensures r.Ok? ==> (r == Ok(201, newId)
        && users == old(users)[newId := User(username, email, hashPassword(password), false, 0, 0, today)])
      ensures r.Error? ==> r.status == 400 && users == old(users)
      ensures username != "" && email != "" && password != "" && UsernameTaken(old(users), username) ==>
        r == Error(400, "Username already exists")
      ensures (username != "" && email != "" && password != ""
               && !UsernameTaken(old(users), username) && EmailTaken(old(users), email)) ==>
        r == Error(400, "Email already exists")
    {
      if username == "" || email == "" || password == "" {
        return Error(400, "Missing required fields");
      }
      if exists u :: u in users && users[u].username == username {
        return Error(400, "Username already exists");
      }
      if exists u :: u in users && users[u].email == email {
        return Error(400, "Email already exists");
      }
      users := users[newId := User(username, email, hashPassword(password), false, 0, 0, today)];
      r := Ok(201, newId);
    }

    /** POST /api/auth/login. `checkPassword` stands for werkzeug's
        `check_password_hash`. On success the streak follows `NewStreak` and
        `last_login` becomes today. */
    method Login(username: string, password: string,
                 checkPassword: (string, string) -> bool, today: int)
      returns (r: Response<UserId>)
      requires Valid()
      modifies this`users
      ensures Valid()
      ensures username == "" || password == "" ==> r == Error(400, "Missing username or password")
      ensures r.Ok? <==>
        username != "" && password != ""
        && exists u :: u in old(users) && old(users)[u].username == username
                       && checkPassword(old(users)[u].passwordHash, password)
      ensures r.Ok? ==> (r.status == 200 && r.body in old(users) && old(users)[r.body].username == username
        && var was := old(users)[r.body];
           users == old(users)[r.body := was.(lastLogin := today, streak := NewStreak(was.lastLogin, today, was.streak))])
      ensures r.Error? ==> users == old(users)
      ensures r.Error? && username != "" && password != "" ==> r == Error(401, "Invalid username or password")
    {
      if username == "" || password == "" {
        return Error(400, "Missing username or password");
      }
      if !exists u :: u in users && users[u].username == username {
        return Error(401, "Invalid username or password");
      }
      var u :| u in users && users[u].username == username;
      if !checkPassword(users[u].passwordHash, password) {
        return Error(401, "Invalid username or password");
      }
      var was := users[u];
      users := users[u := was.(lastLogin := today, streak := NewStreak(was.lastLogin, today, was.streak))];
      r := Ok(200, u);
      assert forall v :: v in users ==> users[v].username == old(users)[v].username && users[v].email == old(users)[v].email;
    }

    /** POST /api/courses/enroll/<course_id>. */
    method EnrollCourse(t: Token, c: CourseId) returns (r: Response<string>)
      requires Valid()
      modifies this`enrollments
      ensures Valid()
      ensures Authenticate(t).Error? ==> r.Error? && r.status == 401
      ensures Authenticate(t).Ok? && c !in courses ==> r == Error(404, "Course not found")
      ensures Authenticate(t).Ok? && c in courses && IsEnrolled(old(enrollments), t.id, c) ==>
        r == Error(400, "Already enrolled in this course")
      ensures r.Ok? <==> Authenticate(t).Ok? && c in courses && !IsEnrolled(old(enrollments), t.id, c)
      ensures r.Ok? ==> (r == Ok(201, "Successfully enrolled in course")
        && enrollments == old(enrollments) + [Enrollment(t.id, c, false)]
        && IsEnrolled(enrollments, t.id, c))
      ensures r.Error? ==> enrollments == old(enrollments)
    {
      var auth := Authenticate(t);
      if auth.Error? {
        return Error(auth.status, auth.message);
      }
      var u := auth.body;
      if c !in courses {
        return Error(404, "Course not found");
      }
      if exists e :: e in enrollments && e.user == u && e.course == c {
        return Error(400, "Already enrolled in this course");
      }
      EnrollKeepsUnique(enrollments, u, c);
      enrollments := enrollments + [Enrollment(u, c, false)];
      r := Ok(201, "Successfully enrolled in course");
    }

    /** GET /api/courses/<course_id>/enrollment. */
    method CheckEnrollment(t: Token, c: CourseId) returns (r: Response<bool>)
      ensures r.Ok? <==> Authenticate(t).Ok?
      ensures r.Ok? ==> r.status == 200 && (r.body <==> exists e :: e in enrollments && e.user == t.id && e.course == c)
    {
      var auth := Authenticate(t);
      if auth.Error? {
        return Error(auth.status, auth.message);
      }
      r := Ok(200, exists e :: e in enrollments && e.user == auth.body && e.course == c);
    }

    /** GET /api/lessons/<lesson_id>: the access gate. */
    method GetLesson(t: Token, l: LessonId) returns (r: Response<Lesson>)
      ensures Authenticate(t).Ok? && l !in lessons ==> r == Error(404, "Lesson not found")
      ensures r.Ok? <==>
        Authenticate(t).Ok? && l in lessons
        && (IsEnrolled(enrollments, t.id, lessons[l].courseId) || lessons[l].isFree)
      ensures r.Ok? ==> r == Ok(200, lessons[l])
      ensures Authenticate(t).Ok? && l in lessons && !r.Ok? ==>
        r == Error(403, "You need to enroll in this course first")
    {
      var auth := Authenticate(t);
      if auth.Error? {
        return Error(auth.status, auth.message);
      }
      if l !in lessons {
        return Error(404, "Lesson not found");
      }
      var lesson := lessons[l];
      var enrolled := exists e :: e in enrollments && e.user == auth.body && e.course == lesson.courseId;
      if !enrolled && !lesson.isFree {
        return Error(403, "You need to enroll in this course first");
      }
      r := Ok(200, lesson);
    }

    /** POST /api/lessons/<lesson_id>/quiz. A quiz without questions raises
        a division by zero before anything is written. */
    method SubmitQuiz(t: Token, l: LessonId, answers: map<nat, seq<Answer>>) returns (r: Response<QuizReply>)
      requires Valid()
      modifies this`progress, this`users
      ensures Valid()
      ensures old(Authenticate(t)).Ok? && (l !in lessons || lessons[l].lessonType != "quiz") ==>
        r == Error(404, "Quiz not found")
      ensures old(Authenticate(t)).Ok? && l in lessons && lessons[l].lessonType == "quiz" && lessons[l].questions == [] ==>
        r == Error(500, "Internal Server Error")
      ensures r.Ok? <==>
        old(Authenticate(t)).Ok? && l in lessons && lessons[l].lessonType == "quiz" && lessons[l].questions != []
      ensures r.Ok? ==>
        var qs := lessons[l].questions;
        var correct := |CorrectIndices(qs, answers, |qs|)|;
        && r.status == 200
        && r.body == QuizReply(correct, |qs|, Score(correct, |qs|), Passed(correct, |qs|))
        && progress == Upsert(old(progress), ProgressKey(t.id, lessons[l].courseId, l),
                              QuizResult(Score(correct, |qs|), Passed(correct, |qs|)))
        && users == if Passed(correct, |qs|) then AddPoints(old(users), t.id, 2 * lessons[l].duration) else old(users)
      ensures r.Error? ==> progress == old(progress) && users == old(users)
    {
      var auth := Authenticate(t);
      if auth.Error? {
        return Error(auth.status, auth.message);
      }
      var u := auth.body;
      if l !in lessons || lessons[l].lessonType != "quiz" {
        return Error(404, "Quiz not found");
      }
      var lesson := lessons[l];
      var correct := Grade(lesson.questions, answers);
      var total := |lesson.questions|;
      if total == 0 {
        return Error(500, "Internal Server Error");
      }
      var score := Score(correct, total);
      var passed := 5 * correct >= 4 * total;
      PassedIffScore(correct, total);
      var key := ProgressKey(u, lesson.courseId, l);
      UpsertSpec(progress, key, QuizResult(score, passed));
      progress := Upsert(progress, key, QuizResult(score, passed));
      if passed {
        users := AddPoints(users, u, 2 * lesson.duration);
        assert forall v :: v in users ==> users[v].username == old(users)[v].username && users[v].email == old(users)[v].email;
      }
      r := Ok(200, QuizReply(correct, total, score, passed));
    }

    /** The computation of `get_course_progress` for user `u`: the loop
        that sums the progress values and collects the completed lessons. */
    method ComputeCourseProgress(u: UserId, c: CourseId) returns (cp: CourseProgress)
      ensures cp == CourseProgressOf(lessons, progress, u, c)
    {
      var total := |set l | l in lessons && lessons[l].courseId == c|;
      if total == 0 {
        return CourseProgress(0.0, []);
      }
      var items := ItemsOf(progress, u, c);
      var completed: seq<LessonId> := [];
      var sum := 0.0;
      var i := 0;
      while i < |items|
        invariant 0 <= i <= |items|
        invariant completed == CompletedIds(items[..i])
        invariant sum == SumProgress(items[..i])
      {
        assert items[..i + 1][..i] == items[..i];
        if items[i].completed {
          completed := completed + [items[i].key.lesson];
        }
        sum := sum + items[i].progress;
        i := i + 1;
      }
      assert items[..i] == items;
      cp := CourseProgress(sum / total as real, completed);
    }

    /** GET /api/progress/<course_id>. */
    method GetCourseProgress(t: Token, c: CourseId) returns (r: Response<CourseProgress>)
      ensures r.Ok? <==> Authenticate(t).Ok?
      ensures r.Ok? ==> r == Ok(200, CourseProgressOf(lessons, progress, t.id, c))
    {
      var auth := Authenticate(t);
      if auth.Error? {
        return Error(auth.status, auth.message);
      }
      var cp := ComputeCourseProgress(auth.body, c);
      r := Ok(200, cp);
    }

    /** GET /api/progress/<course_id>/<lesson_id>: the stored document, or
        progress 0 and not completed when there is none. */
    method GetLessonProgress(t: Token, c: CourseId, l: LessonId) returns (r: Response<ProgressRecord>)
      ensures r.Ok? <==> Authenticate(t).Ok?
      ensures r.Ok? ==> r.status == 200 && r.body.key == ProgressKey(t.id, c, l)
      ensures r.Ok? ==> r.body == Lookup(progress, ProgressKey(t.id, c, l)).GetOr(EmptyRecord(ProgressKey(t.id, c, l)))
      ensures r.Ok? && Lookup(progress, ProgressKey(t.id, c, l)).None? ==> r.body.progress == 0.0 && !r.body.completed
    {
      var auth := Authenticate(t);
      if auth.Error? {
        return Error(auth.status, auth.message);
      }
      var key := ProgressKey(auth.body, c, l);
      match IndexOf(progress, key)
      case Some(i) => r := Ok(200, progress[i]);
      case None => r := Ok(200, EmptyRecord(key));
    }

    /** POST /api/progress/<course_id>/<lesson_id>: `progress` defaults to 0
        and `video_progress` to null; `completed` and `quiz_score` of an
        existing document are kept. */
    method PostLessonProgress(t: Token, c: CourseId, l: LessonId, value: Option<real>, video: Option<real>)
      returns (r: Response<string>)
      requires Valid()
      modifies this`progress
      ensures Valid()
      ensures r.Ok? <==> Authenticate(t).Ok?
      ensures r.Ok? ==> (r == Ok(200, "Progress updated")
        && progress == Upsert(old(progress), ProgressKey(t.id, c, l), Watched(value.GetOr(0.0), video)))
      ensures r.Error? ==> progress == old(progress)
    {
      var auth := Authenticate(t);
      if auth.Error? {
        return Error(auth.status, auth.message);
      }
      var key := ProgressKey(auth.body, c, l);
      UpsertSpec(progress, key, Watched(value.GetOr(0.0), video));
      progress := Upsert(progress, key, Watched(value.GetOr(0.0), video));
      r := Ok(200, "Progress updated");
    }

    /** POST /api/progress/<course_id>/<lesson_id>/complete. Every call adds
        the lesson's points again. */
    method CompleteLesson(t: Token, c: CourseId, l: LessonId) returns (r: Response<int>)
      requires Valid()
      modifies this`progress, this`users
      ensures Valid()
      ensures old(Authenticate(t)).Ok? && l !in lessons ==> r == Error(404, "Lesson not found")
      ensures r.Ok? <==> old(Authenticate(t)).Ok? && l in lessons
      ensures r.Ok? ==> (r == Ok(200, 2 * lessons[l].duration)
        && progress == Upsert(old(progress), ProgressKey(t.id, c, l), MarkCompleted)
        && users == AddPoints(old(users), t.id, 2 * lessons[l].duration))
      ensures r.Error? ==> progress == old(progress) && users == old(users)
    {
      var auth := Authenticate(t);
      if auth.Error? {
        return Error(auth.status, auth.message);
      }
      var u := auth.body;
      if l !in lessons {
        return Error(404, "Lesson not found");
      }
      var key := ProgressKey(u, c, l);
      UpsertSpec(progress, key, MarkCompleted);
      progress := Upsert(progress, key, MarkCompleted);
      var points := 2 * lessons[l].duration;
      users := AddPoints(users, u, points);
      assert forall v :: v in users ==> users[v].username == old(users)[v].username && users[v].email == old(users)[v].email;
      r := Ok(200, points);
    }

    /** GET /api/users/stats as the route evidently intends it: the number of
        enrollments and of enrolled courses whose progress reaches 0.99. */
    method UserStats(t: Token) returns (r: Response<Stats>)
      ensures r.Ok? <==> Authenticate(t).Ok?
      ensures r.Ok? ==>
        var cs := CoursesOf(enrollments, t.id);
        r == Ok(200, Stats(|cs|, CountCompleted(lessons, progress, t.id, cs), users[t.id].streak, users[t.id].points))
      ensures r.Ok? ==> r.body.completedCourses <= r.body.totalCourses
    {
      var auth := Authenticate(t);
      if auth.Error? {
        return Error(auth.status, auth.message);
      }
      var u := auth.body;
      var cs := CoursesOf(enrollments, u);
      var completed := 0;
      var i := 0;
      while i < |cs|
        invariant 0 <= i <= |cs|
        invariant completed == CountCompleted(lessons, progress, u, cs[..i])
      {
        assert cs[..i + 1][..i] == cs[..i];
        var cp := ComputeCourseProgress(u, cs[i]);
        if cp.progress >= 0.99 {
          completed := completed + 1;
        }
        i := i + 1;
      }
      assert cs[..i] == cs;
      r := Ok(200, Stats(|cs|, completed, users[u].streak, users[u].points));
    }

    /** GET /api/users/stats as written: the loop calls
        `get_course_progress(current_user, course_id)`, but that name is bound
        to the `token_required` wrapper, which passes the user a second time
        and so calls the route with three arguments. The `TypeError` makes the
        route answer 500 for every user with at least one enrollment. */
    method UserStatsAsWritten(t: Token) returns (r: Response<Stats>)
      ensures Authenticate(t).Ok? && CoursesOf(enrollments, t.id) != [] ==> r == Error(500, "Internal Server Error")
      ensures r.Ok? <==> Authenticate(t).Ok? && CoursesOf(enrollments, t.id) == []
      ensures r.Ok? ==> r == Ok(200, Stats(0, 0, users[t.id].streak, users[t.id].points))
    {
      var auth := Authenticate(t);
      if auth.Error? {
        return Error(auth.status, auth.message);
      }
      var u := auth.body;
      var cs := CoursesOf(enrollments, u);
      if cs != [] {
        return Error(500, "Internal Server Error");
      }
      r := Ok(200, Stats(0, 0, users[u].streak, users[u].points));
    }

    /** GET /api/bookmarks/<lesson_id>/check. */
    method CheckBookmark(t: Token, l: LessonId) returns (r: Response<bool>)
      ensures r.Ok? <==> Authenticate(t).Ok?
      ensures r.Ok? ==> r.status == 200 && (r.body <==> Bookmark(t.id, l) in bookmarks)
    {
      var auth := Authenticate(t);
      if auth.Error? {
        return Error(auth.status, auth.message);
      }
      r := Ok(200, Bookmark(auth.body, l) in bookmarks);
    }

    /** POST /api/bookmarks; an empty `lessonId` stands for a missing one. */
    method AddBookmark(t: Token, lessonId: string) returns (r: Response<string>)
      requires Valid()
      modifies this`bookmarks
      ensures Valid()
      ensures Authenticate(t).Ok? && lessonId == "" ==> r == Error(400, "Lesson ID is required")
      ensures Authenticate(t).Ok? && lessonId != "" && lessonId !in lessons ==> r == Error(404, "Lesson not found")
      ensures Authenticate(t).Ok? && lessonId != "" && lessonId in lessons && Bookmark(t.id, lessonId) in old(bookmarks) ==>
        r == Error(400, "Already bookmarked")
      ensures r.Ok? <==>
        Authenticate(t).Ok? && lessonId != "" && lessonId in lessons && Bookmark(t.id, lessonId) !in old(bookmarks)
      ensures r.Ok? ==> r == Ok(201, "Bookmark added") && bookmarks == old(bookmarks) + [Bookmark(t.id, lessonId)]
      ensures r.Error? ==> bookmarks == old(bookmarks)
    {
      var auth := Authenticate(t);
      if auth.Error? {
        return Error(auth.status, auth.message);
      }
      if lessonId == "" {
        return Error(400, "Lesson ID is required");
      }
      if lessonId !in lessons {
        return Error(404, "Lesson not found");
      }
      var b := Bookmark(auth.body, lessonId);
      if b in bookmarks {
        return Error(400, "Already bookmarked");
      }
      bookmarks := bookmarks + [b];
      r := Ok(201, "Bookmark added");
    }

    /** DELETE /api/bookmarks/<lesson_id>. */
    method RemoveBookmark(t: Token, l: LessonId) returns (r: Response<string>)
      requires Valid()
      modifies this`bookmarks
      ensures Valid()
      ensures Authenticate(t).Ok? && Bookmark(t.id, l) !in old(bookmarks) ==> r == Error(404, "Bookmark not found")
      ensures r.Ok? <==> Authenticate(t).Ok? && Bookmark(t.id, l) in old(bookmarks)
      ensures r.Ok? ==> (r == Ok(200, "Bookmark removed") && bookmarks == RemoveFirst(old(bookmarks), Bookmark(t.id, l))
        && Bookmark(t.id, l) !in bookmarks)
      ensures r.Error? ==> bookmarks == old(bookmarks)
    {
      var auth := Authenticate(t);
      if auth.Error? {
        return Error(auth.status, auth.message);
      }
      var b := Bookmark(auth.body, l);
      if b !in bookmarks {
        return Error(404, "Bookmark not found");
      }
      RemoveFirstSpec(bookmarks, b);
      bookmarks := RemoveFirst(bookmarks, b);
      r := Ok(200, "Bookmark removed");
    }

    /** DELETE /api/admin/courses/<course_id>: the course's lessons are
        deleted first, so they are gone even when the course itself is not
        found. */
    method DeleteCourse(t: Token, c: CourseId) returns (r: Response<string>)
      modifies this`lessons, this`courses
      ensures AuthenticateAdmin(t).Error? ==>
        r == Error(AuthenticateAdmin(t).status, AuthenticateAdmin(t).message)
        && lessons == old(lessons) && courses == old(courses)
      ensures AuthenticateAdmin(t).Ok? ==> lessons == DropCourseLessons(old(lessons), c)
      ensures AuthenticateAdmin(t).Ok? && c !in old(courses) ==> r == Error(404, "Course not found") && courses == old(courses)
      ensures AuthenticateAdmin(t).Ok? && c in old(courses) ==> r == Ok(200, "Course deleted") && courses == old(courses) - {c}
    {
      var auth := AuthenticateAdmin(t);
      if auth.Error? {
        return Error(auth.status, auth.message);
      }
      lessons := DropCourseLessons(lessons, c);
      if c !in courses {
        return Error(404, "Course not found");
      }
      courses := courses - {c};
      r := Ok(200, "Course deleted");
    }
  }
}
