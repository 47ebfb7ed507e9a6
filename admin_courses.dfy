/** The admin course list (src/pages/admin/AdminCourses.jsx): search,
    create through a multipart form, delete. */
module AdminCourses {
  import opened Wrappers
  import opened Lists
  import opened CourseCatalog

  /** `formData`. `thumbnail` is the chosen file, if any. */
  datatype CourseForm = CourseForm(
    title: string, description: string, category: string, difficulty: string,
    isPublished: bool, thumbnail: Option<string>)

  /** The form's initial and reset state. */
  const EmptyForm := CourseForm("", "", "Language", "Beginner", false, None)

  datatype FormValue = Text(text: string) | File(file: string)
  datatype FormEntry = FormEntry(name: string, value: FormValue)

  /** `FormData.append` turns a boolean into "true" or "false". */
  function BoolText(b: bool): string {
    if b then "true" else "false"
  }

  /** The `FormData` that `handleSubmit` posts. */
  function CourseRequest(f: CourseForm): (entries: seq<FormEntry>)
    ensures |entries| == if f.thumbnail.Some? then 6 else 5
    ensures (exists e :: e in entries && e.name == "thumbnail") <==> f.thumbnail.Some?
  {
    [ FormEntry("title", Text(f.title)),
      FormEntry("description", Text(f.description)),
      FormEntry("category", Text(f.category)),
      FormEntry("difficulty", Text(f.difficulty)),
      FormEntry("is_published", Text(BoolText(f.isPublished))) ]
    + (if f.thumbnail.Some? then [FormEntry("thumbnail", File(f.thumbnail.value))] else [])
  }

  /** `request.form.to_dict().get(name)` on the server: the first text
      entry of that name. */
  function FormField(entries: seq<FormEntry>, name: string): Option<string> {
    if entries == [] then None
    else if entries[0].name == name && entries[0].value.Text? then Some(entries[0].value.text)
    else FormField(entries[1..], name)
  }

  /** `data.get('is_published', 'false') == 'true'` in `admin_courses`
      (src/Backend/run.py). */
  predicate ServerIsPublished(entries: seq<FormEntry>) {
    FormField(entries, "is_published").GetOr("false") == "true"
  }

  /** The server reads back every text field as the form held it, the
      published flag included. */
  lemma CourseRequestRoundTrip(f: CourseForm)
    ensures ServerIsPublished(CourseRequest(f)) <==> f.isPublished
    ensures FormField(CourseRequest(f), "title") == Some(f.title)
    ensures FormField(CourseRequest(f), "description") == Some(f.description)
    ensures FormField(CourseRequest(f), "category") == Some(f.category)
    ensures FormField(CourseRequest(f), "difficulty") == Some(f.difficulty)
  {
    var e := CourseRequest(f);
    assert "title" != "description" && "title" != "category" && "title" != "difficulty" && "title" != "is_published";
    assert "description" != "category" && "description" != "difficulty" && "description" != "is_published";
    assert "category" != "difficulty" && "category" != "is_published" && "difficulty" != "is_published";
    assert e[1..][1..] == e[2..] && e[2..][1..] == e[3..] && e[3..][1..] == e[4..];
    assert FormField(e[4..], "is_published") == Some(BoolText(f.isPublished));
    assert FormField(e[3..], "is_published") == FormField(e[4..], "is_published");
    assert FormField(e[2..], "is_published") == FormField(e[3..], "is_published");
    assert FormField(e[1..], "is_published") == FormField(e[2..], "is_published");
    assert FormField(e[3..], "difficulty") == Some(f.difficulty);
    assert FormField(e[2..], "difficulty") == FormField(e[3..], "difficulty");
    assert FormField(e[1..], "difficulty") == FormField(e[2..], "difficulty");
    assert FormField(e[2..], "category") == Some(f.category);
  }

  /** `filteredCourses`: the search alone, over title and description. */
  function SearchCourses(cs: seq<Course>, term: string): seq<Course> {
    Filter(cs, c => MatchesSearch(c, term))
  }

  /** The admin search is the catalogue's with category 'all': a course is
      kept iff the term occurs in its title or description, in order, and
      the empty term keeps every course. */
  lemma SearchCoursesSpec(cs: seq<Course>, term: string)
    ensures SearchCourses(cs, term) == FilterCourses(cs, term, "all")
    ensures forall c :: c in SearchCourses(cs, term) <==> c in cs && MatchesSearch(c, term)
    ensures IsSubsequence(SearchCourses(cs, term), cs)
    ensures term == "" ==> SearchCourses(cs, term) == cs
  {
    FilterCongruent(cs, c => MatchesSearch(c, term), c => MatchesSearch(c, term) && MatchesCategory(c, "all"));
    FilterCoursesSpec(cs, term, "all");
  }

  /** `prev.filter(course => course.id !== courseId)`. */
  function WithoutCourse(cs: seq<Course>, id: string): seq<Course> {
    Filter(cs, (c: Course) => c.id != id)
  }

  /** Deleting removes every course with that id and keeps the others in
      order. */
  lemma WithoutCourseSpec(cs: seq<Course>, id: string)
    ensures forall c :: c in WithoutCourse(cs, id) <==> c in cs && c.id != id
    ensures IsSubsequence(WithoutCourse(cs, id), cs)
    ensures (forall c :: c in cs ==> c.id != id) ==> WithoutCourse(cs, id) == cs
  {
    FilterIsSubsequence(cs, (c: Course) => c.id != id);
    if forall c :: c in cs ==> c.id != id {
      FilterAll(cs, (c: Course) => c.id != id);
    }
  }

  class AdminCoursesView {
    var courses: seq<Course>
    var form: CourseForm

    constructor (loaded: seq<Course>)
      ensures courses == loaded && form == EmptyForm
    {
      courses := loaded;
      form := EmptyForm;
    }

    /** `handleSubmit`; `reply` is the created course, `None` when the POST
        fails. Returns the posted form data. */
    method HandleSubmit(reply: Option<Course>) returns (request: seq<FormEntry>)
      modifies this
      ensures request == CourseRequest(old(form))
      ensures reply.Some? ==> courses == old(courses) + [reply.value] && form == EmptyForm
      ensures reply.None? ==> courses == old(courses) && form == old(form)
    {
      request := CourseRequest(form);
      if reply.Some? {
        courses := courses + [reply.value];
        form := EmptyForm;
      }
    }

    /** `handleDelete` after the confirmation; `ok` is whether the DELETE
        succeeds. */
    method HandleDelete(courseId: string, confirmed: bool, ok: bool)
      modifies this`courses
      ensures courses == if confirmed && ok then WithoutCourse(old(courses), courseId) else old(courses)
    {
      if confirmed && ok {
        courses := WithoutCourse(courses, courseId);
      }
    }
  }
}
