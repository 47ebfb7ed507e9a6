/** The practice lesson list's filter (src/lessons.jsx): difficulty, then
    a case-insensitive search of the title only. */
module LessonList {
  import opened Text
  import opened Lists

  datatype LessonCard = LessonCard(id: string, title: string, description: string, difficulty: string)

  /** The body of the `filter` callback. */
  predicate Keeps(l: LessonCard, filter: string, term: string) {
    if filter != "all" && l.difficulty != filter then false
    else if term != "" && !Contains(Lower(l.title), Lower(term)) then false
    else true
  }

  /** `filteredLessons`. */
  function FilterLessons(ls: seq<LessonCard>, filter: string, term: string): seq<LessonCard> {
    Filter(ls, l => Keeps(l, filter, term))
  }

  /** A lesson is kept iff its difficulty passes and the term is empty or
      occurs in its title; the kept lessons stay in order, and 'all' with
      an empty term keeps every lesson. */
  lemma FilterLessonsSpec(ls: seq<LessonCard>, filter: string, term: string)
    ensures forall l :: l in FilterLessons(ls, filter, term) <==>
      l in ls && (filter == "all" || l.difficulty == filter)
      && (term == "" || Contains(Lower(l.title), Lower(term)))
    ensures IsSubsequence(FilterLessons(ls, filter, term), ls)
    ensures filter == "all" && term == "" ==> FilterLessons(ls, filter, term) == ls
  {
    FilterIsSubsequence(ls, l => Keeps(l, filter, term));
    if filter == "all" && term == "" {
      FilterAll(ls, l => Keeps(l, filter, term));
    }
  }

  /** The description is never searched: lessons that differ only in
      their descriptions are kept or dropped together. */
  lemma DescriptionNotSearched(l: LessonCard, description: string, filter: string, term: string)
    ensures Keeps(l.(description := description), filter, term) == Keeps(l, filter, term)
  {
  }
}
