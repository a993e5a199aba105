/**
 * The administrator's catalogue page (src/pages/Admin/Admin.tsx): a search
 * over a fixed list of three external courses, by title only.
 */
module AdminCourses {
  import Seqs
  import Text

  /** An entry of the page's static course list. */
  datatype Course = Course(title: string, duration: string, platform: string, tags: seq<string>)

  const Courses: seq<Course> := [
    Course("Introduction to Python Programming", "40 hours", "Coursera", ["Python", "Programming", "Computer Science"]),
    Course("UI/UX Design Fundamentals", "25 hours", "YouTube", ["Design", "UI/UX", "Creative"]),
    Course("Data Science with R", "35 hours", "EdTeam", ["Data Science", "R Programming", "Statistics"])
  ]

  /** `filteredCourses` over any list of courses: the test looks at the title and nothing else. */
  function FilterByTitle(courses: seq<Course>, term: string): (r: seq<Course>)
    ensures Seqs.IsSubsequence(r, courses)
    ensures forall i :: 0 <= i < |r| ==> Text.IncludesIgnoringCase(r[i].title, term)
    ensures forall i :: 0 <= i < |courses| && Text.IncludesIgnoringCase(courses[i].title, term) ==> courses[i] in r
    ensures term == "" ==> r == courses
  {
    var keep := (c: Course) => Text.IncludesIgnoringCase(c.title, term);
    assert term == "" ==> Seqs.Filter(courses, keep) == courses by {
      if term == "" {
        forall i | 0 <= i < |courses|
          ensures keep(courses[i])
        {
          Text.EmptyQueryIncluded(courses[i].title);
        }
        Seqs.FilterKeepsAll(courses, keep);
      }
    }
    Seqs.Filter(courses, keep)
  }

  /** The page's `filteredCourses`. */
  function FilteredCourses(term: string): (r: seq<Course>)
    ensures term == "" ==> r == Courses && |r| == 3
    ensures |r| <= 3
  {
    FilterByTitle(Courses, term)
  }
}
