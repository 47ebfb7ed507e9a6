# Lingzee in Dafny

Lingzee is a language-learning site with two parts:

- a Flask backend (`src/Backend/run.py`) over MongoDB collections of users, courses, lessons, enrollments, progress documents and bookmarks;
- a React client: course catalogues and pages, a lesson page with quizzes and bookmarks, practice components for multiple-choice, typed and spoken answers, an XP chart, admin editors for courses and lessons, an assistant chat panel, and an HTTP client with interceptors.

The project models the backend routes that change or read user state, and the client logic that decides what is shown, posted or stored.

How the model is laid out:

- **Backend.** `Backend.Database` is a class with one field per collection. Each route is a method. It checks its guards in the route's own order (401 / 403 / 400 / 404 with the route's messages). It changes only the collections the route writes. Its ensures state the result and the new state in terms of pure functions of `Store`.
- **Store.** The pure functions in `Store` carry the proved properties:
  - a progress document is upserted per (user, course, lesson);
  - course progress is the sum of the progress values over the number of lessons;
  - the login streak rule;
  - no duplicate enrollments or bookmarks.
- **Quiz grading.** Grading is in `Quiz`. A question counts as correct when the submitted answers, taken as a set, equal the correct answers. A question passes when `5 * correct >= 4 * total`, which is the integer form of the 80 % threshold.
- **Client.** Components whose state changes become classes with the state as fields: the lesson page, the practice session, the question components, the admin editors, the assistant panel and context, and the browser state the HTTP interceptors touch. Expressions become functions:
  - filters and de-duplication;
  - the XP chart;
  - lesson navigation;
  - the content shaping of the lesson editor;
  - the error classification of the response interceptor.
- **JavaScript semantics.** `%` truncates toward zero; it is modelled in `ProgressChart.JsRem`. Falsy values and `a || b` are modelled explicitly. `findIndex` returns −1. `[...new Set(xs)]` keeps the first occurrences in order. `FormData` turns a boolean into `"true"`/`"false"`.
- **Inputs from outside.** Passwords, tokens, ids, dates and replies are inputs:
  - a password hash and its check are function parameters;
  - a decoded token is a `Store.Token`;
  - a fresh MongoDB id is a parameter;
  - a day is an `int`;
  - an HTTP reply the client awaits is an `ok` flag or an optional value.

## Model

| member | source | states |
|---|---|---|
| Backend.Database.constructor | src/Backend/run.py:23-29 | every collection starts empty, and the store invariant holds |
| Backend.Database.Authenticate | src/Backend/run.py:34-55 | succeeds iff the token decodes to the id of a stored user, and then yields that user; every failure is a 401: "Token is missing" without a token, "Token is invalid" for one that does not decode, "User not found" for an unknown id |
| Backend.Database.AuthenticateAdmin | src/Backend/run.py:58-64 | succeeds iff the user is authenticated and is an admin; an authenticated non-admin gets 403 "Admin access required"; a failed authentication is passed on unchanged |
| Backend.Database.Register | src/Backend/run.py:67-108 | a missing field gives 400; success iff all fields are present and neither the username nor the email is taken; success stores exactly one new user (hashed password, not admin, streak 0, points 0, last login today); on error the users are unchanged; names stay unique; the username check comes first (400 "Username already exists"), then the email check (400 "Email already exists") |
| Backend.Database.Login | src/Backend/run.py:110-153 | a missing field gives 400 "Missing username or password"; success iff a user with that name exists and the password check accepts; an unknown name and a wrong password both give 401 "Invalid username or password"; only that user changes, its last login becoming today and its streak following `NewStreak`; on error nothing changes |
| Backend.Database.EnrollCourse | src/Backend/run.py:197-222 | 401 / 404 "Course not found" / 400 when already enrolled; success iff authenticated, the course exists and there is no enrollment yet; success appends exactly one enrollment; at most one enrollment per user and course |
| Backend.Database.CheckEnrollment | src/Backend/run.py:224-232 | answers true iff an enrollment of this user in this course exists |
| Backend.Database.GetLesson | src/Backend/run.py:235-253 | 404 for a missing lesson; the lesson is returned iff it is free or the user is enrolled in its course, and 403 otherwise |
| Backend.Database.SubmitQuiz | src/Backend/run.py:255-308 | 404 unless the lesson is a quiz; a quiz with no questions gives 500 and writes nothing; on success `correct` is the number of questions whose answer sets equal the correct sets (at most the total); passed iff score ≥ 80; the progress document becomes (1, completed) when passed and (0.5, not completed) when failed; points grow by 2·duration only when passed |
| Backend.Database.ComputeCourseProgress | src/Backend/run.py:314-338 | the loop computes exactly `CourseProgressOf`: the average progress over the course's lessons and the completed lesson ids |
| Backend.Database.GetCourseProgress | src/Backend/run.py:311-338 | an authenticated user gets `CourseProgressOf` for their own documents |
| Backend.Database.GetLessonProgress | src/Backend/run.py:340-360 | the stored document for (user, course, lesson), or progress 0 and not completed when there is none |
| Backend.Database.PostLessonProgress | src/Backend/run.py:340-375 | upserts the document for the key, setting progress (default 0) and video progress, and keeps every other document and field |
| Backend.Database.CompleteLesson | src/Backend/run.py:377-408 | 404 for a missing lesson; otherwise the document becomes progress 1 and completed, and the user's points grow by 2·duration on every call |
| Backend.Database.UserStats | src/Backend/run.py:452-472 | the corrected route: total = number of the user's enrollments, completed = number of enrolled courses with progress ≥ 0.99, completed ≤ total, with the user's streak and points |
| Backend.Database.UserStatsAsWritten | src/Backend/run.py:454-472 | the route as written: 500 for every user with at least one enrollment; zero counts otherwise |
| Backend.Database.CheckBookmark | src/Backend/run.py:475-483 | true iff the (user, lesson) bookmark exists |
| Backend.Database.AddBookmark | src/Backend/run.py:485-515 | 400 "Lesson ID is required" / 404 "Lesson not found" / 400 "Already bookmarked"; success iff none of these applies, and then exactly one bookmark is appended; bookmarks stay duplicate-free |
| Backend.Database.RemoveBookmark | src/Backend/run.py:517-528 | 404 iff there is no such bookmark; otherwise exactly that bookmark is removed |
| Backend.Database.DeleteCourse | src/Backend/run.py:639-649 | for an admin, the course's lessons are deleted whether or not the course exists; 404 if it does not exist, otherwise the course is removed; non-admins change nothing |
| Store.DailyLoginsExtendStreak | src/Backend/run.py:123-139 | logging in on k consecutive days adds k to the streak |
| Store.MissedDayResets | src/Backend/run.py:128-136 | a login after a gap of more than one day, or with the clock going back, resets the streak to 1 |
| Store.EnrollKeepsUnique | src/Backend/run.py:205-220 | appending an enrollment when none exists keeps one enrollment per (user, course), and the user is then enrolled |
| Store.CoursesOf | src/Backend/run.py:458-461 | the user's enrolled course ids, no more than there are enrollments |
| Store.RemoveFirst | src/Backend/run.py:520-523 | `delete_one` removes one document when one matches and nothing otherwise |
| Store.RemoveFirstSpec | src/Backend/run.py:517-528 | on a duplicate-free list the result is duplicate-free and contains exactly the other bookmarks |
| Store.AddThenRemoveRestores | src/Backend/run.py:485-528 | adding a new bookmark and then removing it restores the list |
| Store.IndexOf | src/Backend/run.py:277-281 | the first position of the key, or none iff the key is absent |
| Store.Lookup | src/Backend/run.py:277-281 | `find_one`: a stored document with the key, and none iff no document has the key |
| Store.UpsertSpec | src/Backend/run.py:277-293 | `update_one(..., upsert=True)` keeps keys unique; the key's document is the update applied to the old document or to an empty one; every other key's document is unchanged |
| Store.LookupUnique | src/Backend/run.py:277-281 | with unique keys, the lookup returns the one document with the key |
| Store.LookupOfSameKeys | src/Backend/run.py:277-293 | replacing documents that do not carry the key, and appending documents without it, leaves the lookup of the key unchanged |
| Store.ItemsOf | src/Backend/run.py:315-318 | exactly the documents of that user and course |
| Store.CompletedIdsSpec | src/Backend/run.py:328-331 | a lesson id is listed iff some document for it is completed; there are no more ids than documents |
| Store.SumProgressBounds | src/Backend/run.py:327-331 | with progress values in [0, 1], the sum lies between 0 and the number of documents |
| Store.CourseProgressSpec | src/Backend/run.py:311-338 | no lessons gives (0, []); otherwise progress × lesson count equals the sum over the user's documents, and a lesson is listed iff a completed document exists for it |
| Store.CompletingListsLesson | src/Backend/run.py:277-301 | after completing a lesson, or passing its quiz, the course progress lists the lesson as completed |
| Store.CountCompleted | src/Backend/run.py:462-464 | the number of completed courses is at most the number of enrollments |
| Quiz.CountCorrectIsCardinality | src/Backend/run.py:265-273 | the count is the number of questions whose answer set equals the correct set, and at most the number of questions |
| Quiz.MissingAnswerCountsAsEmpty | src/Backend/run.py:269 | an unanswered question is correct iff its correct set is empty |
| Quiz.Grade | src/Backend/run.py:265-273 | the loop counts exactly the correctly answered questions, at most the total |
| Quiz.PassedIffScore | src/Backend/run.py:275-276 | the integer threshold `5·correct ≥ 4·total` holds iff `correct / total · 100 ≥ 80` |
| ProgressChart.JsRem | src/progresschart.jsx:5 | JavaScript's `%`: the result takes the sign of the dividend and lies strictly within one divisor of zero; it agrees with `%` on non-negative dividends |
| ProgressChart.LevelAtLeastOne | src/progresschart.jsx:6 | the level of non-negative XP is at least 1 |
| ProgressChart.BarMatchesLabel | src/progresschart.jsx:5 | the bar percentage equals the XP label of line 54, and lies in [0, 100) for non-negative XP |
| ProgressChart.XpToNextRange | src/progresschart.jsx:71 | the XP needed for the next level is between 1 and 100, and together with the label it makes 100 |
| ProgressChart.LevelDecomposition | src/progresschart.jsx:6 | XP = (level − 1)·100 + the label of line 54 |
| ProgressChart.XpToNextReachesNextLevel | src/progresschart.jsx:71 | gaining exactly the XP shown reaches the next level, and any smaller gain stays on the current level |
| PracticeQuestion.AnswerMatches | src/typeanswer.jsx:11 | no result (the comparison throws) iff there is no expected answer; otherwise true iff the strings agree character by character after ASCII lower-casing |
| PracticeQuestion.AnswerMatchesIgnoresCase | src/voicepractice.jsx:32 | lower-casing either side first does not change the outcome |
| PracticeQuestion.AnswerMatchesDoesNotTrim | src/voicepractice.jsx:32 | a leading space makes an answer wrong; nothing is trimmed |
| Mcq.McqQuestion.constructor | src/mcq.jsx:4 | nothing is selected at first |
| Mcq.McqQuestion.Click | src/mcq.jsx:19-20 | clicking an option selects exactly that option |
| Mcq.McqQuestion.Submit | src/mcq.jsx:6-9 | nothing is submitted iff the button of line 29 is disabled (no selection or an empty one); otherwise it reports whether the selection is the correct answer |
| TypeAnswer.TypeAnswerQuestion.constructor | src/typeanswer.jsx:4-5 | empty answer, no feedback, no submission |
| TypeAnswer.TypeAnswerQuestion.Input | src/typeanswer.jsx:38-41 | typing changes the answer only while there is no feedback |
| TypeAnswer.TypeAnswerQuestion.Submit | src/typeanswer.jsx:7-22 | a blank answer, or feedback already shown, does nothing (the button of line 45 is disabled then); otherwise the feedback records whether the answer matches, and it is reported once; at most one submission ever |
| TypeAnswer.SubmitTwice | src/typeanswer.jsx:7-22 | submitting twice reports at most once, and the first non-blank answer is the one reported |
| TypeAnswer.TypeAnswerQuestion.ReceiveQuestion | src/typeanswer.jsx:3-5 | a new `question` prop on a kept instance replaces the question and keeps the answer, the feedback and the calls made |
| VoicePractice.VoiceQuestion.constructor | src/voicepractice.jsx:5 | the response starts empty |
| VoicePractice.VoiceQuestion.Listen | src/voicepractice.jsx:9-28 | a transcript replaces the response only when recognition is supported and has a result |
| VoicePractice.VoiceQuestion.Submit | src/voicepractice.jsx:30-34 | nothing is submitted while the response is empty (the button of line 61); otherwise it reports `AnswerMatches` |
| VoicePractice.ListenTwice | src/voicepractice.jsx:22-25 | a second transcript overwrites the first |
| AdminDash.BuiltMcqAcceptsChosenOption | src/admindash.jsx:42-49 | a built MCQ accepts exactly its marked option |
| AdminDash.BuiltTypedAcceptsExpected | src/admindash.jsx:42-49 | a built typed or voice question accepts its expected answer |
| AdminDash.AdminDashboard.constructor | src/admindash.jsx:5-13 | the editor's initial state: no languages or lessons, an MCQ with four blank options marked 0 |
| AdminDash.AdminDashboard.SetNewLanguage | src/admindash.jsx:6 | sets the typed language |
| AdminDash.AdminDashboard.AddLanguage | src/admindash.jsx:15-25 | a blank name or a failed request changes nothing; otherwise the language is appended and the input cleared |
| AdminDash.AdminDashboard.SetTitle | src/admindash.jsx:92-95 | sets the draft's title and keeps its other fields |
| AdminDash.AdminDashboard.SetLanguage | src/admindash.jsx:101-104 | sets the draft's language and keeps its other fields |
| AdminDash.AdminDashboard.CreateLesson | src/admindash.jsx:27-37 | needs a title and a language; the created lesson is appended and the draft gets an empty question list |
| AdminDash.AdminDashboard.SetQuestionType | src/admindash.jsx:9 | sets the question type |
| AdminDash.AdminDashboard.SetQuestionText | src/admindash.jsx:10 | sets the question text |
| AdminDash.AdminDashboard.SetExpectedAnswer | src/admindash.jsx:13 | sets the expected answer |
| AdminDash.AdminDashboard.SetCorrectIndex | src/admindash.jsx:152 | marks an option as correct |
| AdminDash.AdminDashboard.SetOption | src/admindash.jsx:141-145 | replaces exactly one option in place; the others and the count of four are kept |
| AdminDash.AdminDashboard.AddQuestion | src/admindash.jsx:39-61 | blank text changes nothing; otherwise the built question is appended to the draft and the form is reset |
| AdminDash.BuildThroughForm | src/admindash.jsx:39-61 | after a title opens the lesson draft, typing four options and marking one builds an MCQ that accepts exactly the marked option |
| LessonPractice.UpdateProgress | src/LessonPractice.jsx:50-57 | XP grows by the score, with a missing XP counted as 0; this lesson's count grows by one; every other lesson's count is unchanged |
| LessonPractice.BarWidth | src/LessonPractice.jsx:71 | the bar is the score capped at 100 |
| LessonPractice.Practice.constructor | src/LessonPractice.jsx:12-14 | first question, score 0, not completed |
| LessonPractice.Practice.HandleAnswerSubmit | src/LessonPractice.jsx:29-47 | a correct answer adds 10; the session moves to the next question or completes on the last; the posted score is the score before the last increment |
| LessonPractice.CountTrueBound | src/LessonPractice.jsx:29-32 | there are no more correct answers than answers |
| LessonPractice.RunSession | src/LessonPractice.jsx:29-61 | after a full session, the displayed score is 10 per correct answer; the posted score leaves out the last answer's points |
| LessonPractice.TypeAndSubmit | src/LessonPractice.jsx:28-38 | typing and submitting into a mounted typed question passes a new answer to `handleAnswerSubmit`, which advances or completes the session; a question already answered passes nothing and the session does not move |
| LessonPractice.TypedPairAsWritten | src/LessonPractice.jsx:97-102 | with one kept `TypeAnswer` instance for two consecutive typed questions, at most one answer is reported and the session never completes; answering the first leaves it on the second question |
| LessonPractice.TypedPairKeyed | src/LessonPractice.jsx:97-102 | with a fresh instance per question, both answers are reported in order and the session completes; it completes iff two answers were reported |
| LessonPage.FindIndex | src/pages/lesson/lessonpage.jsx:157 | `findIndex`: the first position of the id, and −1 iff the id is absent |
| LessonPage.NavigationMatchesButtons | src/pages/lesson/lessonpage.jsx:156-163 | for a listed lesson, Prev/Next navigate iff their button (lines 348 and 366) is enabled, to the neighbouring lesson |
| LessonPage.UnlistedLessonNavigation | src/pages/lesson/lessonpage.jsx:156-163 | for an unlisted lesson both buttons are enabled; Prev does nothing and Next goes to the first lesson |
| LessonPage.RemoveAll | src/pages/lesson/lessonpage.jsx:280 | `filter(a => a !== o)` keeps exactly the other answers |
| LessonPage.AnswerEditsSpec | src/pages/lesson/lessonpage.jsx:275-306 | each edit changes only its question: checking appends the option, unchecking removes it, a radio replaces the answers, typing sets a single typed answer |
| LessonPage.CheckThenUncheck | src/pages/lesson/lessonpage.jsx:275-288 | checking an unchecked option and unchecking it again restores the answers |
| LessonPage.LessonView.constructor | src/pages/lesson/lessonpage.jsx:17-21 | progress 0, not completed, not bookmarked, no answers |
| LessonPage.LessonView.OnOptionChange | src/pages/lesson/lessonpage.jsx:275-288 | applies the option edit to the answers |
| LessonPage.LessonView.OnTextChange | src/pages/lesson/lessonpage.jsx:302-306 | applies the typing edit to the answers |
| LessonPage.LessonView.HandleQuizSubmit | src/pages/lesson/lessonpage.jsx:104-133 | zero correct answers or a failed request changes nothing; otherwise completed iff score ≥ 80, and progress 1 when passed and 0.5 when failed |
| LessonPage.LessonView.MarkAsCompleted | src/pages/lesson/lessonpage.jsx:87-102 | a failed completion POST changes nothing and shows the failure toast; on success the lesson is completed with progress 1 even if the points POST then fails; a logged-in user is announced 2·duration points iff the points POST succeeds, and gets the failure toast otherwise; a logged-out user gets neither toast |
| LessonPage.LessonView.ToggleBookmark | src/pages/lesson/lessonpage.jsx:135-154 | a logged-out user is sent to login; otherwise it deletes or posts according to the current state, and flips the state only when the request succeeds |
| LessonPage.ToggleTwice | src/pages/lesson/lessonpage.jsx:135-154 | two successful toggles restore the bookmark state, one posting and one deleting |
| CourseCatalog.FilterCoursesSpec | src/pages/home/homepage.jsx:51-56 | a course is kept iff its title or description contains the term (ignoring case) and the category is 'all' or matches; order is kept; an empty term with 'all' keeps everything |
| CourseCatalog.SearchIgnoresTermCase | src/pages/courses/DefaultCoursePage.jsx:48-53 | the case of the search term does not matter |
| CourseCatalog.UniqueCategoriesSpec | src/pages/courses/DefaultCoursePage.jsx:25 | the categories without duplicates, each listed iff some course has it, in order of first occurrence |
| HomePage.HandleEnroll | src/pages/home/homepage.jsx:58-70 | with no user, nothing is posted and the user goes to /login; otherwise it posts, and goes to the course page only on success |
| HomePage.EnrollNeedsUser | src/pages/home/homepage.jsx:58-70 | a logged-out enroll does not depend on the course or the reply; a successful one goes to that course's page only |
| LessonList.FilterLessonsSpec | src/lessons.jsx:29-42 | a lesson is kept iff the filter is 'all' or equals its difficulty, and the term is empty or its title contains the term (ignoring case); order is kept; 'all' with no term keeps everything |
| LessonList.DescriptionNotSearched | src/lessons.jsx:36-37 | the description never affects the filter |
| DashboardPage.FirstMatch | src/pages/dashboard/DashboardPage.jsx:110 | `find`: the first record for the course, or −1 iff there is none |
| DashboardPage.ContinueLearning | src/pages/dashboard/DashboardPage.jsx:109 | the first min(3, n) enrolled courses, in order |
| DashboardPage.LookupDefaults | src/pages/dashboard/DashboardPage.jsx:183-209 | no record gives progress 0; otherwise the first record's progress; 'Never' iff the last access is missing or empty |
| DashboardPage.BrowsePromptIffEmpty | src/pages/dashboard/DashboardPage.jsx:107-156 | the browse prompt is shown iff there are no enrolled courses |
| CoursePage.CompletedLessonShowsCheck | src/pages/courses/CoursePage.jsx:63-65 | once the server records a completion, the enrolled user sees a check on that lesson, given the page's id field |
| CoursePage.CourseView.constructor | src/pages/courses/CoursePage.jsx:12-14 | not enrolled, progress 0, no completed lessons |
| CoursePage.CourseView.Load | src/pages/courses/CoursePage.jsx:17-38 | when logged out, the defaults (not enrolled, progress 0, no completed lessons); otherwise the server's replies |
| CoursePage.CourseView.HandleEnroll | src/pages/courses/CoursePage.jsx:40-52 | with no user, it redirects to login; on success the user is enrolled; otherwise nothing changes |
| CoursePage.LoggedOutView | src/pages/courses/CoursePage.jsx:22-23 | with the logged-out defaults, the icon rule (lines 203-217) shows a lock on every lesson and the click rule (line 187) navigates nowhere |
| AdminCourses.CourseRequest | src/pages/admin/AdminCourses.jsx:63-71 | five entries, and a sixth, the thumbnail, iff a file was chosen |
| AdminCourses.CourseRequestRoundTrip | src/pages/admin/AdminCourses.jsx:64-71 | the server's parse (src/Backend/run.py:577) gives back the form's publish flag and its text fields |
| AdminCourses.SearchCoursesSpec | src/pages/admin/AdminCourses.jsx:108-111 | the admin search is the catalogue filter with category 'all': title or description contains the term, order kept |
| AdminCourses.WithoutCourseSpec | src/pages/admin/AdminCourses.jsx:100 | keeps exactly the other courses, in order |
| AdminCourses.AdminCoursesView.constructor | src/pages/admin/AdminCourses.jsx:8-18 | the loaded courses and an empty form |
| AdminCourses.AdminCoursesView.HandleSubmit | src/pages/admin/AdminCourses.jsx:59-94 | posts the form's entries; on success the created course is appended and the form reset, and on failure nothing changes |
| AdminCourses.AdminCoursesView.HandleDelete | src/pages/admin/AdminCourses.jsx:96-106 | a confirmed, successful delete removes the course from the list, and otherwise nothing changes |
| AdminLessons.ShapeContentSpec | src/pages/admin/AdminLessons.jsx:74-89 | a video, quiz or document content is an object with exactly that type's keys; a truthy form value is kept and a falsy one becomes '' (or [] for questions), so a quiz always has the `questions` key that run.py:265 reads, an array unless the form held another truthy value; another type keeps a truthy content or becomes ''; shaping twice equals shaping once |
| AdminLessons.LessonDataSpec | src/pages/admin/AdminLessons.jsx:67-89 | the posted lesson carries the route's course id and the shaped content, and all other fields as the form held them |
| AdminLessons.FormHandlersSpec | src/pages/admin/AdminLessons.jsx:46-63 | an input sets only its field (a checkbox stores its checked flag); a content input sets only its key inside the content |
| AdminLessons.WithoutLesson | src/pages/admin/AdminLessons.jsx:113 | keeps exactly the lessons with another id |
| AdminLessons.WithoutLessonKeepsOrder | src/pages/admin/AdminLessons.jsx:113 | the kept lessons stay in order |
| AdminLessons.AdminLessonsView.constructor | src/pages/admin/AdminLessons.jsx:11-21 | the loaded lessons and the initial form |
| AdminLessons.AdminLessonsView.HandleInputChange | src/pages/admin/AdminLessons.jsx:46-52 | applies the field edit |
| AdminLessons.AdminLessonsView.HandleContentChange | src/pages/admin/AdminLessons.jsx:54-63 | applies the content edit |
| AdminLessons.AdminLessonsView.HandleSubmit | src/pages/admin/AdminLessons.jsx:65-107 | posts the lesson data; on success the created lesson is appended and the form reset, and on failure nothing changes |
| AdminLessons.AdminLessonsView.HandleDelete | src/pages/admin/AdminLessons.jsx:109-119 | a confirmed, successful delete removes the lesson, and otherwise nothing changes |
| AdminLessons.AdminLessonsView.SortByOrder | src/pages/admin/AdminLessons.jsx:278 | sorts the lesson array in place by `order`; the result is a permutation of the input |
| AdminLessons.InsertLast | src/pages/admin/AdminLessons.jsx:278 | one insertion step extends the sorted prefix by one element and keeps the multiset |
| AssistantContext.ToggleTwiceRestoresOpen | src/context/AssitantContext.jsx:10-15 | toggling twice restores the open flag, and a panel opened again is not minimised |
| AssistantContext.AssistantProvider.constructor | src/context/AssitantContext.jsx:6-8 | open, not minimised, no course |
| AssistantContext.AssistantProvider.ToggleAssistant | src/context/AssitantContext.jsx:10-15 | the new flags are `ToggledAssistant` of the old ones |
| AssistantContext.AssistantProvider.ToggleMinimized | src/context/AssitantContext.jsx:17-19 | flips only `minimized` |
| AssistantContext.AssistantProvider.SetCurrentCourse | src/context/AssitantContext.jsx:8 | sets the current course |
| AssistantContext.CloseMinimizeOpen | src/context/AssitantContext.jsx:10-19 | closing, minimising and reopening leaves the panel open and not minimised |
| Assistant.MergeTranscript | src/components/assistant/Assistant.jsx:29 | an empty input becomes the transcript; otherwise the transcript is appended after one space |
| Assistant.MergeKeepsPrefix | src/components/assistant/Assistant.jsx:29 | any number of transcripts keep the typed text at the front of the input |
| Assistant.AssistantPanel.constructor | src/components/assistant/Assistant.jsx:11-15 | no messages, empty input, not listening, not typing, no session |
| Assistant.AssistantPanel.Receive | src/components/assistant/Assistant.jsx:40-75 | without a socket, or with the panel closed, nothing changes; a message or question appends exactly one entry and clears typing; session data replaces the log and the session id; typing sets only the typing flag |
| Assistant.AssistantPanel.TypeInput | src/components/assistant/Assistant.jsx:12 | sets the input |
| Assistant.AssistantPanel.HandleSendMessage | src/components/assistant/Assistant.jsx:92-111 | a blank input does nothing; otherwise one user message with the untrimmed text is appended and the input cleared; it is emitted, and typing set, iff there is a socket and a session id |
| Assistant.AssistantPanel.OnTranscript | src/components/assistant/Assistant.jsx:27-31 | merges the transcript into the input and stops listening |
| Assistant.AssistantPanel.OnRecognitionError | src/components/assistant/Assistant.jsx:33-36 | stops listening |
| Assistant.AssistantPanel.ToggleListening | src/components/assistant/Assistant.jsx:113-121 | flips `isListening`, starting or stopping the recognizer to match |
| Assistant.SendAndReply | src/components/assistant/Assistant.jsx:43-111 | after session data, a send and a reply, the log is the history, the typed text and the reply; the message is emitted and typing is cleared |
| Assistant.SendWithoutSession | src/components/assistant/Assistant.jsx:92-111 | without a session id, the message is logged but not emitted |
| ApiClient.WithAuthorization | src/services/api.jsx:11-18 | adds exactly the Authorization header when there is a token, and keeps every other header |
| ApiClient.ErrorToastIdentifiesCase | src/services/api.jsx:28-51 | when the server's text is not one of the fixed messages, each fixed message occurs exactly in its case, and the server's text is shown exactly when the checks reach `data.error` |
| ApiClient.Browser.constructor | src/services/api.jsx:13 | the stored token and the current location |
| ApiClient.Browser.OnResponseError | src/services/api.jsx:27-53 | one toast per error; on a 401 the token is removed and the page goes to /login, and otherwise neither changes; the error is rejected unchanged |
| ApiClient.ExpiredSessionDropsHeader | src/services/api.jsx:13-34 | after a 401 the next request carries no Authorization header |
| Lists.Filter | src/pages/home/homepage.jsx:51 | `filter`: exactly the elements that satisfy the predicate, no more than the input |
| Lists.FilterIsSubsequence | src/lessons.jsx:29 | `filter` keeps the input order |
| Lists.DedupSpec | src/pages/home/homepage.jsx:28 | `[...new Set(xs)]`: the same members, no duplicates, in order of first occurrence |
| Text.Lower | src/lessons.jsx:37 | `toLowerCase` lower-cases each character and keeps the length |
| Text.ContainsAt | src/lessons.jsx:37 | `includes` holds iff the term occurs at some position |
| Text.BlankIffAllSpace | src/typeanswer.jsx:8 | `!s.trim()` holds iff every character is white space |

## Left out

- JWT encoding and decoding and werkzeug password hashing are foreign libraries. A decoded token is an input, `Store.Token`, and the hash and its check are function parameters.
- An Authorization header without a space raises IndexError in `token_required` outside its `try`, so the route answers 500. The model does not have this path: a token is missing, invalid or a user id.
- MongoDB ids are abstract. A malformed ObjectId makes the routes answer 500, which is not modelled. Ordering by `created_at` and `limit` is not modelled.
- Floating point is not modelled:
  - The quiz score and the course average are exact reals.
  - The 80 % threshold is stated in integers.
  - `Math.floor(duration * 2)` is `2 * duration` over integer durations.
  - `Math.round` labels and `toFixed` are not modelled.
- Backend.Database.SubmitQuiz: a quiz with no questions is modelled as a 500 that writes nothing. The lesson's `content` lacking a `questions` key (a KeyError, so a 500) is modelled as an empty question list, which gives the same 500.
- Backend.Database.PostLessonProgress: the client's `quiz_score` and `completed` fields are not written by the route, so the model does not write them either.
- Routes other than those in "## Model" are not modelled: course lists and details, admin stats, admin course create/update, admin lesson routes, recent lists, the assistant HTTP routes and the Socket.IO handlers.
- Thumbnail saving and `FileReader` previews are file and browser I/O. A thumbnail is an optional value.
- Time is not modelled:
  - `setTimeout` (the 1.5 s delay before a typed answer is reported) is left out, so the report is immediate.
  - `window.confirm` is a boolean input.
  - `Date` is a timestamp parameter.
- Speech recognition and synthesis, and `alert`, are browser APIs:
  - the recognizer's result is an optional transcript;
  - `speakMessage` is not modelled.
- The Socket.IO transport is not modelled; only the client-side event handlers are.
- Text.Lower: JavaScript's `toLowerCase` folds all of Unicode. The model folds only ASCII `A`–`Z`.
- AdminLessons.ContentChanged: spreading a non-empty string form content (`{...'abc'}`) copies its characters as index keys. The model spreads a non-object as `{}`.
- AdminLessons.AdminLessonsView.SortByOrder: JavaScript's `sort` is stable; the model proves sortedness and permutation, not stability. `a.order - b.order` on non-numbers (NaN) is not modelled.
- DashboardPage.LookupDefaults: run.py never writes `last_accessed` into a progress document; it writes only `updated_at` (src/Backend/run.py:289, 369, 395). Against run.py as written the dashboard's "Last Accessed" column therefore always reads 'Never'. The model keeps the general rule of src/pages/dashboard/DashboardPage.jsx:209.
- Client pages read `course.id` and `lesson.id` where the backend emits `_id`. The model takes each page's id field as given and does not model the resulting `undefined` ids.
- LessonPage.LessonView.MarkAsCompleted: the points POST goes to `/users/<id>/points`, a route run.py does not define. Against run.py as written `pointsOk` is therefore always false for a logged-in user: no points are ever announced, and 'Failed to mark as completed' shows beside the interceptor's generic toast. The model takes `pointsOk` as an input and does not model the interceptor toast here.
- LessonPage.LessonView.HandleQuizSubmit: the same points POST after a pass is not modelled, nor are the quiz toasts. With zero questions JavaScript's score is `Infinity`; the model handles that case through its integer threshold (`5 * correct >= 0` passes), as its doc comment says.
- LessonPractice.Practice.constructor: a lesson without questions is not modelled. src/LessonPractice.jsx:77-89 reads `lesson.questions[0]`, which is `undefined`, and `currentQ.type` then throws a TypeError at render, before any question is shown. The model therefore starts from at least one question (`questionCount > 0`, and `|answers| > 0` in `LessonPractice.RunSession`).
- LessonPractice.RunSession: it takes the answers as reported, one per question, which holds only when each question gets its own component instance. As written, src/LessonPractice.jsx:91-111 renders the question components without a `key`, so two consecutive questions of the same type share one instance (see Findings). A shared `TypeAnswer` is modelled (`LessonPractice.TypedPairAsWritten`); a shared `MCQQuestion` or `VoicePractice` keeps the previous question's selection or response, which is not modelled.
- ApiClient.Browser.OnResponseError: a 401 from POST /api/auth/login (a wrong password) takes the same branch as an expired session, so the login page shows 'Session expired. Please login again.' and reloads /login. The model states this as the code has it.
- `src/Assistant.jsx` (polling with a timer) and the rendering and routing components are not part of this model.
- ApiClient.AuthorizationHeader: the header is set when the stored token is truthy. An empty stored token adds no header, as the code has it.
- Registering and then logging in on the same day leaves the streak at 0, because `NewStreak` keeps the streak for a same-day login. The model states this as the code has it.

## Findings

| source | as written | input that shows it | evidently intended | confidence | as-written member | corrected member |
|---|---|---|---|---|---|---|
| src/Backend/run.py:462-463 | `user_stats` calls `get_course_progress(current_user, cid)`, but that name is bound to the `token_required` wrapper, whose `decorated(*args)` reads the request's header and calls `f(user, current_user, cid)` with one argument too many, so a TypeError gives 500 (the same call is at line 425 for the dashboard); src/pages/dashboard/DashboardPage.jsx:22-25 fetches /users/stats in one `Promise.all`, so the dashboard keeps its empty course list and shows the browse prompt to every enrolled user | any authenticated user with one enrollment requesting GET /api/users/stats | the completed count is computed from the course progress of each enrollment | not executed | Backend.Database.UserStatsAsWritten | Backend.Database.UserStats |
| src/LessonPractice.jsx:91-111 | the question components are rendered without a `key`, so React keeps one `TypeAnswer` instance across consecutive typed questions; its feedback from the first question disables Submit for the second, and the session never reaches the score POST | a lesson whose first two questions are both of type 'type', the first answered | each question gets a fresh component, e.g. `key={currentQuestion}` | not executed | LessonPractice.TypedPairAsWritten | LessonPractice.TypedPairKeyed |
