/**
 * The student-side queries of src/services/studentService.ts. Each table
 * the backend reads is a parameter (a sequence of rows), together with the
 * error the backend returned; a query's filter and `order` are applied to
 * that table here, so that what a query may return is stated exactly.
 */
module StudentService {
  import opened Common
  import Seqs
  import opened Tables

  /** `getStudentCourseModules(cursoId)` against the module table `table`. */
  function GetStudentCourseModules(table: seq<ModuleRow>, cursoId: string, error: Option<ApiError>): (r: Result<seq<ModuleRow>>)
    ensures r.Thrown? <==> error.Some?
    ensures error.Some? ==> r.message == "Error al cargar módulos: " + error.value.message
    ensures r.Ok? ==> Seqs.SortedBy(r.value, ModuleOrden)
    ensures r.Ok? ==> forall m :: m in r.value <==> m in table && m.cursoId == cursoId && m.visible
    ensures r.Ok? ==> multiset(r.value) == multiset(Seqs.Filter(table, (m: ModuleRow) => m.cursoId == cursoId && m.visible))
    ensures r.Ok? ==> |r.value| <= |table|
  {
    if error.Some? then Thrown("Error al cargar módulos: " + error.value.message)
    else
      var keep := (m: ModuleRow) => m.cursoId == cursoId && m.visible;
      var rows := Seqs.Filter(table, keep);
      var sorted := Seqs.SortBy(rows, ModuleOrden);
      assert |sorted| == |multiset(sorted)| == |rows|;
      Seqs.FilterMembership(table, keep);
      assert forall m :: m in sorted <==> m in multiset(rows);
      Ok(sorted)
  }

  /** `getStudentModuleContent(moduloId)` against the content table `table`. */
  function GetStudentModuleContent(table: seq<ContentRow>, moduloId: int, error: Option<ApiError>): (r: Result<seq<ContentRow>>)
    ensures r.Thrown? <==> error.Some?
    ensures error.Some? ==> r.message == "Error al cargar contenido: " + error.value.message
    ensures r.Ok? ==> Seqs.SortedBy(r.value, ContentOrden)
    ensures r.Ok? ==> forall c :: c in r.value <==> c in table && c.moduloId == moduloId && c.visible
    ensures r.Ok? ==> multiset(r.value) == multiset(Seqs.Filter(table, (c: ContentRow) => c.moduloId == moduloId && c.visible))
    ensures r.Ok? ==> |r.value| <= |table|
  {
    if error.Some? then Thrown("Error al cargar contenido: " + error.value.message)
    else
      var keep := (c: ContentRow) => c.moduloId == moduloId && c.visible;
      var rows := Seqs.Filter(table, keep);
      var sorted := Seqs.SortBy(rows, ContentOrden);
      assert |sorted| == |multiset(sorted)| == |rows|;
      Seqs.FilterMembership(table, keep);
      assert forall c :: c in sorted <==> c in multiset(rows);
      Ok(sorted)
  }

  /**
   * `isEnrolledInCourse(cursoId)`: `user` is the session's user, `row` and
   * `error` the reply of the `.maybeSingle()` lookup. Without a session, or
   * on a lookup error, the answer is "not enrolled".
   */
  function IsEnrolledInCourse(user: Option<string>, row: Option<int>, error: Option<ApiError>): (enrolled: bool)
    ensures user.None? ==> !enrolled
    ensures error.Some? ==> !enrolled
    ensures enrolled ==> row.Some?
    ensures user.Some? && error.None? && row.Some? ==> enrolled
  {
    user.Some? && error.None? && row.Some?
  }

  /**
   * Against a lookup that answers from a set of (user, course) pairs, the
   * test is membership when the lookup succeeds and false when it fails.
   */
  lemma IsEnrolledMatchesTable(pairs: set<(string, string)>, user: string, cursoId: string, rowId: int,
                               error: Option<ApiError>)
    ensures IsEnrolledInCourse(Some(user), if (user, cursoId) in pairs then Some(rowId) else None, error)
            <==> error.None? && (user, cursoId) in pairs
  {
  }

  /** A `matriculas` row as `getEnrolledCourses` selects it. */
  datatype MatriculaRow = MatriculaRow(cursoId: int, createdAt: Option<string>)

  /** A `cursos` row as `getEnrolledCourses` selects it. */
  datatype CourseRow = CourseRow(id: int, nombre: string, codigo: string, descripcion: string, profesorAsignado: string)

  /** A course row with the date of the student's enrollment. */
  datatype StudentCourse = StudentCourse(id: int, nombre: string, codigo: string, descripcion: string,
                                         profesorAsignado: string, fechaMatricula: string)

  /** `matriculas.find((m) => m.curso_id === id)?.created_at || ""` */
  function FechaMatricula(ms: seq<MatriculaRow>, id: int): string
  {
    match Seqs.Find(ms, (m: MatriculaRow) => m.cursoId == id)
    case Some(m) => OrElse(m.createdAt, "")
    case None => ""
  }

  /** The date comes from the first enrollment row of the course, and is `""` when there is none. */
  lemma FechaFromFirstMatch(ms: seq<MatriculaRow>, id: int)
    ensures forall k :: 0 <= k < |ms| && ms[k].cursoId == id && (forall j :: 0 <= j < k ==> ms[j].cursoId != id) ==>
              FechaMatricula(ms, id) == OrElse(ms[k].createdAt, "")
    ensures (forall j :: 0 <= j < |ms| ==> ms[j].cursoId != id) ==> FechaMatricula(ms, id) == ""
  {
    var p := (m: MatriculaRow) => m.cursoId == id;
    forall k | 0 <= k < |ms| && ms[k].cursoId == id && (forall j :: 0 <= j < k ==> ms[j].cursoId != id)
      ensures FechaMatricula(ms, id) == OrElse(ms[k].createdAt, "")
    {
      Seqs.FindFirst(ms, p, k);
    }
  }

  /** `{ ...curso, fecha_matricula }` */
  function WithFecha(c: CourseRow, ms: seq<MatriculaRow>): StudentCourse
  {
    StudentCourse(c.id, c.nombre, c.codigo, c.descripcion, c.profesorAsignado, FechaMatricula(ms, c.id))
  }

  /** The result of a service call and whether it went on to query the courses. */
  datatype Fetched<T> = Fetched(result: Result<T>, coursesQueried: bool)

  /**
   * `getEnrolledCourses()`: `user` is the session's user, `matriculas` the
   * user's enrollment rows (absent when the query returned nothing), and
   * `cursos` the reply of the course query.
   */
  function GetEnrolledCourses(user: Option<string>, matriculas: Option<seq<MatriculaRow>>, cursos: Reply<seq<CourseRow>>)
    : (r: Fetched<seq<StudentCourse>>)
    ensures user.None? ==> r == Fetched(Thrown("No autenticado"), false)
    ensures user.Some? && (matriculas.None? || |matriculas.value| == 0) ==> r == Fetched(Ok([]), false)
    ensures r.coursesQueried <==> user.Some? && matriculas.Some? && |matriculas.value| > 0
    ensures r.coursesQueried && cursos.error.Some? ==>
              r.result == Thrown("Error al cargar cursos: " + cursos.error.value.message)
    ensures r.coursesQueried && cursos.error.None? ==>
              var rows := if cursos.data.Some? then cursos.data.value else [];
              && r.result.Ok?
              && |r.result.value| == |rows|
              && forall i :: 0 <= i < |rows| ==>
                   var c := r.result.value[i];
                   c.id == rows[i].id && c.nombre == rows[i].nombre && c.codigo == rows[i].codigo
                   && c.descripcion == rows[i].descripcion && c.profesorAsignado == rows[i].profesorAsignado
                   && c.fechaMatricula == FechaMatricula(matriculas.value, rows[i].id)
  {
    if user.None? then Fetched(Thrown("No autenticado"), false)
    else if matriculas.None? || |matriculas.value| == 0 then Fetched(Ok([]), false)
    else if cursos.error.Some? then Fetched(Thrown("Error al cargar cursos: " + cursos.error.value.message), true)
    else
      var rows := if cursos.data.Some? then cursos.data.value else [];
      var ms := matriculas.value;
      Fetched(Ok(seq(|rows|, i requires 0 <= i < |rows| => WithFecha(rows[i], ms))), true)
  }
}
