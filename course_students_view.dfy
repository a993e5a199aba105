/**
 * A teacher's view of the students of one course
 * (src/components/Teacher/CourseStudentsView.tsx): loading the list, the
 * case-insensitive search over name, e-mail and career, and the count and
 * empty-state texts.
 */
module CourseStudentsView {
  import opened Common
  import Seqs
  import Text
  import TeacherService

  type CourseStudent = TeacherService.CourseStudent

  /** The search test of `filteredStudents`; the career is searched only when the student has one. */
  predicate Matches(s: CourseStudent, term: string)
  {
    Text.IncludesIgnoringCase(s.nombre, term) || Text.IncludesIgnoringCase(s.email, term)
    || (Truthy(s.carrera) && Text.IncludesIgnoringCase(s.carrera.value, term))
  }

  /** A student without a career matches only through name or e-mail. */
  lemma NoCareerMatchesByNameOrEmail(s: CourseStudent, term: string)
    requires !Truthy(s.carrera)
    ensures Matches(s, term) <==> Text.IncludesIgnoringCase(s.nombre, term) || Text.IncludesIgnoringCase(s.email, term)
  {
  }

  /** `filteredStudents`: the matching students, in list order; an empty term keeps them all. */
  function FilteredStudents(students: seq<CourseStudent>, term: string): (r: seq<CourseStudent>)
    ensures Seqs.IsSubsequence(r, students)
    ensures forall i :: 0 <= i < |r| ==> Matches(r[i], term)
    ensures forall i :: 0 <= i < |students| && Matches(students[i], term) ==> students[i] in r
    ensures term == "" ==> r == students
  {
    var keep := (s: CourseStudent) => Matches(s, term);
    assert term == "" ==> Seqs.Filter(students, keep) == students by {
      if term == "" {
        forall i | 0 <= i < |students|
          ensures keep(students[i])
        {
          Text.EmptyQueryIncluded(students[i].nombre);
        }
        Seqs.FilterKeepsAll(students, keep);
      }
    }
    Seqs.Filter(students, keep)
  }

  /** The line under the course name, e.g. "1 estudiante matriculado". */
  function CountLabel(n: nat): (line: string)
    ensures n == 1 ==> line == "1 estudiante matriculado"
    ensures n != 1 ==> line == Text.ShowNat(n) + " estudiantes matriculados"
  {
    Text.ShowNat(n) + " estudiante" + Text.PluralSuffix(n) + " matriculado" + Text.PluralSuffix(n)
  }

  /**
   * The text shown in place of the table when the filtered list is empty;
   * `None` when the table is shown.
   */
  function EmptyText(students: seq<CourseStudent>, term: string): (t: Option<string>)
    ensures t.None? <==> |FilteredStudents(students, term)| > 0
    ensures t.Some? && |students| == 0 ==> t.value == "No hay estudiantes matriculados en este curso."
    ensures t.Some? && |students| > 0 ==> t.value == "No se encontraron estudiantes que coincidan con la búsqueda." && term != ""
  {
    if |FilteredStudents(students, term)| > 0 then None
    else if |students| == 0 then Some("No hay estudiantes matriculados en este curso.")
    else Some("No se encontraron estudiantes que coincidan con la búsqueda.")
  }

  /** The screen's state cells. */
  class StudentsScreen {
    var students: seq<CourseStudent>
    var loading: bool
    var searchTerm: string
    var toast: Option<Toast>

    constructor ()
      ensures students == [] && loading && searchTerm == "" && toast == None
    {
      students := [];
      loading := true;
      searchTerm := "";
      toast := None;
    }

    /** `loadStudents()`: `cursoId` is the route parameter, `fetched` the outcome of `getCourseStudents`. */
    method LoadStudents(cursoId: Option<string>, fetched: Result<seq<CourseStudent>>)
      modifies this`students, this`loading, this`toast
      ensures cursoId.None? ==> students == old(students) && loading == old(loading) && toast == old(toast)
      ensures cursoId.Some? ==> !loading
      ensures cursoId.Some? && fetched.Ok? ==> students == fetched.value && toast == old(toast)
      ensures cursoId.Some? && fetched.Thrown? ==>
                students == old(students) && toast == Some(Toast(ErrorToast, "Error al cargar estudiantes"))
    {
      if cursoId.None? {
        return;
      }
      loading := true;
      match fetched {
        case Ok(data) =>
          students := data;
        case Thrown(_) =>
          toast := Some(Toast(ErrorToast, "Error al cargar estudiantes"));
      }
      loading := false;
    }
  }
}
