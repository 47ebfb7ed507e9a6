/** The course search and category list shared verbatim by the home page
    (src/pages/home/homepage.jsx) and the course catalogue
    (src/pages/courses/DefaultCoursePage.jsx). */
module CourseCatalog {
  import opened Text
  import opened Lists

  datatype Course = Course(id: string, title: string, description: string, category: string)

  /** The lowercased term occurs in the lowercased title or description. */
  predicate MatchesSearch(c: Course, term: string) {
    Contains(Lower(c.title), Lower(term)) || Contains(Lower(c.description), Lower(term))
  }

  /** `selectedCategory === 'all' || course.category === selectedCategory`. */
  predicate MatchesCategory(c: Course, category: string) {
    category == "all" || c.category == category
  }

  /** `filteredCourses`. */
  function FilterCourses(cs: seq<Course>, term: string, category: string): seq<Course> {
    Filter(cs, c => MatchesSearch(c, term) && MatchesCategory(c, category))
  }

  /** A course is listed iff it matches both the search and the category;
      the list keeps the catalogue's order; the empty search with 'all'
      lists every course. */
  lemma FilterCoursesSpec(cs: seq<Course>, term: string, category: string)
    ensures forall c :: c in FilterCourses(cs, term, category) <==>
      c in cs && MatchesSearch(c, term) && MatchesCategory(c, category)
    ensures IsSubsequence(FilterCourses(cs, term, category), cs)
    ensures term == "" && category == "all" ==> FilterCourses(cs, term, category) == cs
  {
    FilterIsSubsequence(cs, c => MatchesSearch(c, term) && MatchesCategory(c, category));
    if term == "" && category == "all" {
      forall c | c in cs ensures MatchesSearch(c, term) && MatchesCategory(c, category) {
        ContainsEmpty(Lower(c.title));
      }
      FilterAll(cs, c => MatchesSearch(c, term) && MatchesCategory(c, category));
    }
  }

  /** The search ignores the case of the term. */
  lemma {:induction false} SearchIgnoresTermCase(c: Course, term: string)
    ensures MatchesSearch(c, Lower(term)) <==> MatchesSearch(c, term)
  {
    LowerIdempotent(term);
  }

  /** `course.category` for every course, in order. */
  function Categories(cs: seq<Course>): (r: seq<string>)
    ensures |r| == |cs| && forall i :: 0 <= i < |cs| ==> r[i] == cs[i].category
  {
    seq(|cs|, i requires 0 <= i < |cs| => cs[i].category)
  }

  /** `[...new Set(courses.map(course => course.category))]`. */
  function UniqueCategories(cs: seq<Course>): seq<string> {
    Dedup(Categories(cs))
  }

  /** The category list holds every course's category, each once, and
      nothing else, in order of first appearance. */
  lemma UniqueCategoriesSpec(cs: seq<Course>)
    ensures forall k :: k in UniqueCategories(cs) <==> k in Categories(cs)
    ensures forall k :: k in UniqueCategories(cs) <==> exists c :: c in cs && c.category == k
    ensures NoDuplicates(UniqueCategories(cs))
    ensures forall i, j :: 0 <= i < j < |UniqueCategories(cs)| ==>
      FirstIndex(Categories(cs), UniqueCategories(cs)[i]) < FirstIndex(Categories(cs), UniqueCategories(cs)[j])
  {
    var ks := Categories(cs);
    DedupSpec(ks);
    forall k ensures k in ks <==> exists c :: c in cs && c.category == k {
      if k in ks {
        var i :| 0 <= i < |ks| && ks[i] == k;
        assert cs[i] in cs;
      }
      if exists c :: c in cs && c.category == k {
        var c :| c in cs && c.category == k;
        var i :| 0 <= i < |cs| && cs[i] == c;
        assert ks[i] == k;
      }
    }
  }
}
