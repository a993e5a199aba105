/**
 * The teacher's course list (src/components/Teacher/TeacherCoursesPage.tsx):
 * loading the courses, the three summary figures, the per-row student
 * count and description preview, and the two navigation targets.
 */
module TeacherCoursesPage {
  import opened Common
  import Seqs
  import Text
  import TeacherService

  type TeacherCourse = TeacherService.TeacherCourse

  /** The test of the "Cursos activos" filter. */
  predicate IsActive(c: TeacherCourse)
  {
    c.activo
  }

  /** "Cursos activos": `courses.filter((c) => c.activo).length`. */
  function ActiveCount(courses: seq<TeacherCourse>): (n: nat)
    ensures n <= |courses|
    ensures n == |courses| <==> forall i :: 0 <= i < |courses| ==> courses[i].activo
  {
    var kept := Seqs.Filter(courses, IsActive);
    assert (forall i :: 0 <= i < |courses| ==> courses[i].activo) ==> kept == courses by {
      if forall i :: 0 <= i < |courses| ==> courses[i].activo {
        Seqs.FilterKeepsAll(courses, IsActive);
      }
    }
    assert |kept| == |courses| ==> forall i :: 0 <= i < |courses| ==> courses[i].activo by {
      if |kept| == |courses| {
        FullFilterKeepsAll(courses, IsActive);
      }
    }
    Seqs.CountWhere(courses, IsActive)
  }

  /** A single course counts one exactly when it is active. */
  lemma ActiveCountOne(c: TeacherCourse)
    ensures ActiveCount([c]) == if c.activo then 1 else 0
  {
    assert [c][1..] == [];
  }

  /** The active count of a list split in two is the sum of the counts of its parts. */
  lemma ActiveCountAppend(a: seq<TeacherCourse>, b: seq<TeacherCourse>)
    ensures ActiveCount(a + b) == ActiveCount(a) + ActiveCount(b)
  {
    Seqs.FilterAppend(a, b, IsActive);
  }

  /** A filter that drops nothing only keeps elements that pass. */
  lemma {:induction false} FullFilterKeepsAll(s: seq<TeacherCourse>, p: TeacherCourse -> bool)
    requires |Seqs.Filter(s, p)| == |s|
    ensures forall i :: 0 <= i < |s| ==> p(s[i])
  {
    if |s| > 0 {
      assert p(s[0]);
      FullFilterKeepsAll(s[1..], p);
      assert forall i :: 1 <= i < |s| ==> s[i] == s[1..][i - 1];
    }
  }

  /** The row's student count: `estudiantes_count || 0`. */
  function RowCount(c: TeacherCourse): (n: nat)
    ensures c.estudiantesCount.None? ==> n == 0
    ensures c.estudiantesCount.Some? ==> n == c.estudiantesCount.value
  {
    match c.estudiantesCount
    case Some(k) => k
    case None => 0
  }

  /** "Estudiantes totales": the sum of the row counts. */
  function StudentTotal(courses: seq<TeacherCourse>): nat
  {
    Seqs.SumOf(courses, RowCount)
  }

  /** The total is zero exactly when every row shows zero. */
  lemma {:induction false} StudentTotalZeroIff(courses: seq<TeacherCourse>)
    ensures StudentTotal(courses) == 0 <==> forall i :: 0 <= i < |courses| ==> RowCount(courses[i]) == 0
  {
    if |courses| > 0 {
      StudentTotalZeroIff(courses[1..]);
      assert forall i :: 1 <= i < |courses| ==> courses[i] == courses[1..][i - 1];
    }
  }

  /** The total of a list split in two is the sum of the totals of its parts. */
  lemma StudentTotalAppend(a: seq<TeacherCourse>, b: seq<TeacherCourse>)
    ensures StudentTotal(a + b) == StudentTotal(a) + StudentTotal(b)
  {
    Seqs.SumOfAppend(a, b, RowCount);
  }

  /** Every row's count is at most the total. */
  lemma {:induction false} RowCountAtMostTotal(courses: seq<TeacherCourse>, i: nat)
    requires i < |courses|
    ensures RowCount(courses[i]) <= StudentTotal(courses)
  {
    if i > 0 {
      RowCountAtMostTotal(courses[1..], i - 1);
    }
  }

  /** The description preview: the first 50 characters, and "..." when there were more. */
  function Preview(d: string): (p: string)
    ensures |d| <= 50 ==> p == d
    ensures |d| > 50 ==> |p| == 53 && p[..50] == d[..50] && p[50..] == "..."
  {
    if |d| > 50 then d[..50] + "..." else d
  }

  /** What the table area shows for an empty list. */
  function EmptyMessage(courses: seq<TeacherCourse>): (m: Option<string>)
    ensures m.Some? <==> |courses| == 0
    ensures m.Some? ==> m.value == "No tienes cursos asignados actualmente."
  {
    if |courses| == 0 then Some("No tienes cursos asignados actualmente.") else None
  }

  /** `handleViewStudents`: `/teacher/courses/${cursoId}/students`. */
  function StudentsPath(cursoId: string): (path: string)
    ensures '/' !in cursoId ==> Text.Split(path, '/') == ["", "teacher", "courses", cursoId, "students"]
  {
    var parts := ["", "teacher", "courses", cursoId, "students"];
    assert '/' !in cursoId ==> Text.Split(Text.Join(parts, '/'), '/') == parts by {
      if '/' !in cursoId {
        Text.SplitJoin(parts, '/');
      }
    }
    Text.Join(parts, '/')
  }

  /** `handleViewModules`: `/teacher/courses/${cursoId}/modules`. */
  function ModulesPath(cursoId: string): (path: string)
    ensures '/' !in cursoId ==> Text.Split(path, '/') == ["", "teacher", "courses", cursoId, "modules"]
  {
    var parts := ["", "teacher", "courses", cursoId, "modules"];
    assert '/' !in cursoId ==> Text.Split(Text.Join(parts, '/'), '/') == parts by {
      if '/' !in cursoId {
        Text.SplitJoin(parts, '/');
      }
    }
    Text.Join(parts, '/')
  }

  /** The two targets of a row never coincide. */
  lemma PathsDiffer(cursoId: string)
    requires '/' !in cursoId
    ensures StudentsPath(cursoId) != ModulesPath(cursoId)
  {
    assert Text.Split(StudentsPath(cursoId), '/')[4] != Text.Split(ModulesPath(cursoId), '/')[4];
  }

  /** The screen's state cells. */
  class CoursesScreen {
    var courses: seq<TeacherCourse>
    var loading: bool
    var toast: Option<Toast>

    constructor ()
      ensures courses == [] && loading && toast == None
    {
      courses := [];
      loading := true;
      toast := None;
    }

    /** `loadCourses()`, given the outcome of `getTeacherCourses`. */
    method LoadCourses(fetched: Result<seq<TeacherCourse>>)
      modifies this
      ensures !loading
      ensures fetched.Ok? ==> courses == fetched.value && toast == old(toast)
      ensures fetched.Thrown? ==> courses == old(courses) && toast == Some(Toast(ErrorToast, "Error al cargar cursos"))
    {
      loading := true;
      match fetched {
        case Ok(data) =>
          courses := data;
        case Thrown(_) =>
          toast := Some(Toast(ErrorToast, "Error al cargar cursos"));
      }
      loading := false;
    }
  }
}
