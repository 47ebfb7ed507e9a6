/** The admin lesson editor of one course (src/pages/admin/AdminLessons.jsx):
    the lesson form as a JavaScript object, the content shaping of
    `handleSubmit`, and the lesson table with its in-place sort. */
module AdminLessons {
  import opened Wrappers
  import opened Lists

  /** The JavaScript values the form holds. */
  datatype Json =
    | JUndefined
    | JNull
    | JBool(b: bool)
    | JNum(n: int)
    | JStr(s: string)
    | JArr(items: seq<Json>)
    | JObj(fields: map<string, Json>)

  /** JavaScript truthiness. */
  predicate Truthy(v: Json) {
    match v
    case JUndefined => false
    case JNull => false
    case JBool(b) => b
    case JNum(n) => n != 0
    case JStr(s) => s != ""
    case _ => true
  }

  /** `a || b`. */
  function Or(a: Json, b: Json): Json {
    if Truthy(a) then a else b
  }

  /** `v.key`: a field of an object, `undefined` for anything else. */
  function Get(v: Json, key: string): Json {
    if v.JObj? && key in v.fields then v.fields[key] else JUndefined
  }

  /** The own fields `{...v}` copies. Strings and arrays are modelled as
      having none. */
  function Spread(v: Json): map<string, Json> {
    if v.JObj? then v.fields else map[]
  }

  /** `formData`, an object. */
  type Form = map<string, Json>

  /** The form's initial and reset state. */
  const InitialForm: Form := map[
    "title" := JStr(""), "description" := JStr(""), "lesson_type" := JStr("video"),
    "content" := JStr(""), "duration" := JNum(0), "is_free" := JBool(true), "order" := JNum(0)]

  function Field(form: Form, name: string): Json {
    if name in form then form[name] else JUndefined
  }

  /** `lessonData.content` for lesson type `t` and form content `c`. */
  function ShapeContent(t: Json, c: Json): Json {
    if t == JStr("video") then
      JObj(map["video_id" := Or(Get(c, "video_id"), JStr("")), "notes" := Or(Get(c, "notes"), JStr(""))])
    else if t == JStr("quiz") then JObj(map["questions" := Or(Get(c, "questions"), JArr([]))])
    else if t == JStr("document") then JObj(map["url" := Or(Get(c, "url"), JStr(""))])
    else Or(c, JStr(""))
  }

  /** The key each lesson type's content carries. */
  function ContentKeys(t: Json): set<string> {
    if t == JStr("video") then {"video_id", "notes"}
    else if t == JStr("quiz") then {"questions"}
    else if t == JStr("document") then {"url"}
    else {}
  }

  /** For the three known types the shaped content is an object with
      exactly that type's keys; each key keeps a truthy value of the form
      and otherwise falls back to '' (or [] for a quiz's questions), so a
      quiz always has the `questions` key that the quiz submission route
      of src/Backend/run.py:265 reads, holding an array unless the form put some other truthy
      value there. Any other type keeps a truthy content and shapes a falsy
      one to ''. Shaping shaped content changes nothing, so re-submitting a
      lesson keeps its content. */
  lemma ShapeContentSpec(t: Json, c: Json)
    ensures ContentKeys(t) != {} ==> ShapeContent(t, c).JObj? && ShapeContent(t, c).fields.Keys == ContentKeys(t)
    ensures forall k :: k in ContentKeys(t) && Truthy(Get(c, k)) ==> Get(ShapeContent(t, c), k) == Get(c, k)
    ensures forall k :: k in ContentKeys(t) && !Truthy(Get(c, k)) ==>
      Get(ShapeContent(t, c), k) == (if k == "questions" then JArr([]) else JStr(""))
    ensures t == JStr("quiz") ==>
      Get(ShapeContent(t, c), "questions") != JUndefined
      && (Get(c, "questions").JArr? || !Truthy(Get(c, "questions")) ==> Get(ShapeContent(t, c), "questions").JArr?)
    ensures ContentKeys(t) == {} ==> ShapeContent(t, c) == if Truthy(c) then c else JStr("")
    ensures ShapeContent(t, ShapeContent(t, c)) == ShapeContent(t, c)
  {
  }

  /** `lessonData`: the form with the route's `course_id` and the shaped
      content. */
  function LessonData(form: Form, courseId: string): Form {
    form["course_id" := JStr(courseId)]["content" := ShapeContent(Field(form, "lesson_type"), Field(form, "content"))]
  }

  /** The posted lesson carries the route's course id, its content shaped
      by its type, and every other field as the form held it. A video's
      fields default to the empty string and are never missing. */
  lemma LessonDataSpec(form: Form, courseId: string)
    ensures Field(LessonData(form, courseId), "course_id") == JStr(courseId)
    ensures Field(LessonData(form, courseId), "content") == ShapeContent(Field(form, "lesson_type"), Field(form, "content"))
    ensures forall k :: k != "course_id" && k != "content" ==> Field(LessonData(form, courseId), k) == Field(form, k)
    ensures Field(form, "lesson_type") == JStr("video") ==>
      var c := Field(LessonData(form, courseId), "content");
      Get(c, "video_id") != JUndefined && Get(c, "notes") != JUndefined
  {
  }

  /** What `handleInputChange` stores for field `name`. */
  function InputChanged(form: Form, name: string, value: string, isCheckbox: bool, checked: bool): Form {
    form[name := if isCheckbox then JBool(checked) else JStr(value)]
  }

  /** What `handleContentChange` stores: key `name` inside `content`. */
  function ContentChanged(form: Form, name: string, value: string): Form {
    form["content" := JObj(Spread(Field(form, "content"))[name := JStr(value)])]
  }

  /** Each form handler sets only its field (or only its key of the
      content) and keeps the rest. */
  lemma FormHandlersSpec(form: Form, name: string, value: string, isCheckbox: bool, checked: bool)
    ensures Field(InputChanged(form, name, value, isCheckbox, checked), name) ==
      (if isCheckbox then JBool(checked) else JStr(value))
    ensures forall k :: k != name ==> Field(InputChanged(form, name, value, isCheckbox, checked), k) == Field(form, k)
    ensures Get(Field(ContentChanged(form, name, value), "content"), name) == JStr(value)
    ensures forall k :: k != name ==>
      Get(Field(ContentChanged(form, name, value), "content"), k) == Get(Field(form, "content"), k)
    ensures forall k :: k != "content" ==> Field(ContentChanged(form, name, value), k) == Field(form, k)
  {
  }

  /** A row of the lesson table. */
  datatype LessonRow = LessonRow(id: string, title: string, order: int)

  /** Ascending `order`, the order of `(a, b) => a.order - b.order`. */
  predicate SortedByOrder(s: seq<LessonRow>) {
    forall k, l :: 0 <= k < l < |s| ==> s[k].order <= s[l].order
  }

  /** `prev.filter(lesson => lesson._id !== lessonId)`. */
  function WithoutLesson(ls: seq<LessonRow>, id: string): (r: seq<LessonRow>)
    ensures forall l :: l in r <==> l in ls && l.id != id
  {
    Filter(ls, (l: LessonRow) => l.id != id)
  }

  /** Deleting keeps the other lessons in their order. */
  lemma WithoutLessonKeepsOrder(ls: seq<LessonRow>, id: string)
    ensures IsSubsequence(WithoutLesson(ls, id), ls)
  {
    FilterIsSubsequence(ls, (l: LessonRow) => l.id != id);
  }

  class AdminLessonsView {
    const courseId: string
    var lessons: array<LessonRow>
    var form: Form

    constructor (id: string, loaded: seq<LessonRow>)
      ensures courseId == id && lessons[..] == loaded && form == InitialForm && fresh(lessons)
    {
      courseId := id;
      lessons := new LessonRow[|loaded|](i requires 0 <= i < |loaded| => loaded[i]);
      form := InitialForm;
    }

    method HandleInputChange(name: string, value: string, isCheckbox: bool, checked: bool)
      modifies this`form
      ensures form == InputChanged(old(form), name, value, isCheckbox, checked)
    {
      form := InputChanged(form, name, value, isCheckbox, checked);
    }

    method HandleContentChange(name: string, value: string)
      modifies this`form
      ensures form == ContentChanged(old(form), name, value)
    {
      form := ContentChanged(form, name, value);
    }

    /** `handleSubmit`; `reply` is the created lesson, `None` when the POST
        fails. Returns the posted lesson data. */
    method HandleSubmit(reply: Option<LessonRow>) returns (posted: Form)
      modifies this`lessons, this`form
      ensures posted == LessonData(old(form), courseId)
      ensures reply.Some? ==> lessons[..] == old(lessons[..]) + [reply.value] && form == InitialForm && fresh(lessons)
      ensures reply.None? ==> lessons == old(lessons) && form == old(form)
    {
      posted := LessonData(form, courseId);
      if reply.Some? {
        var rows := lessons[..] + [reply.value];
        lessons := new LessonRow[|rows|](i requires 0 <= i < |rows| => rows[i]);
        form := InitialForm;
      }
    }

    /** `handleDelete` after the confirmation; `ok` is whether the DELETE
        succeeds. */
    method HandleDelete(lessonId: string, confirmed: bool, ok: bool)
      modifies this`lessons
      ensures confirmed && ok ==> lessons[..] == WithoutLesson(old(lessons[..]), lessonId) && fresh(lessons)
      ensures !(confirmed && ok) ==> lessons == old(lessons)
    {
      if confirmed && ok {
        var rows := WithoutLesson(lessons[..], lessonId);
        lessons := new LessonRow[|rows|](i requires 0 <= i < |rows| => rows[i]);
      }
    }

    /** `lessons.sort((a, b) => a.order - b.order)`, in place on the state
        array: an insertion sort by `order`. */
    method SortByOrder()
      modifies lessons
      ensures SortedByOrder(lessons[..])
      ensures multiset(lessons[..]) == multiset(old(lessons[..]))
    {
      var a := lessons;
      if a.Length == 0 { return; }
      var i := 1;
      while i < a.Length
        invariant 1 <= i <= a.Length
        invariant forall k, l :: 0 <= k < l < i ==> a[k].order <= a[l].order
        invariant multiset(a[..]) == multiset(old(a[..]))
      {
        InsertLast(a, i);
        i := i + 1;
      }
    }
  }

  /** One pass of the insertion sort: moves `a[i]` down into the sorted
      prefix `a[..i]`. */
  method InsertLast(a: array<LessonRow>, i: nat)
    requires i < a.Length
    requires forall k, l :: 0 <= k < l < i ==> a[k].order <= a[l].order
    modifies a
    ensures forall k, l :: 0 <= k < l <= i ==> a[k].order <= a[l].order
    ensures multiset(a[..]) == multiset(old(a[..]))
  {
    var j := i;
    while j > 0 && a[j - 1].order > a[j].order
      invariant 0 <= j <= i
      invariant forall k, l :: 0 <= k < l <= i && k != j && l != j ==> a[k].order <= a[l].order
      invariant forall l :: j < l <= i ==> a[j].order <= a[l].order
      invariant multiset(a[..]) == multiset(old(a[..]))
    {
      a[j - 1], a[j] := a[j], a[j - 1];
      j := j - 1;
    }
  }
}
