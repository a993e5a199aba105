/**
 * The older student course page (src/pages/Student/StudentCourseView.tsx):
 * it lists the enrolled courses through a join and enrolls with a bare
 * insert, without first looking for an existing row. Alerts are recorded
 * as the last message shown.
 */
module StudentCoursePage {
  import opened Common
  import opened Enrollment

  /**
   * `cursosMatriculados.flatMap((m) => m.cursos)` followed by
   * `cursosMat.map((c) => c.id)`: each row's embedded course is an object
   * or `null`, and `flatMap` keeps a `null` as an element, on which `c.id`
   * throws. The result is the enrolled courses, `[]` when the join returned
   * nothing, or `None` when that throw happens.
   */
  function EnrolledCourses(joined: Option<seq<Option<Curso>>>): (r: Option<seq<Curso>>)
    ensures joined.None? ==> r == Some([])
    ensures r.None? <==> joined.Some? && exists i :: 0 <= i < |joined.value| && joined.value[i].None?
    ensures r.Some? && joined.Some? ==>
              |r.value| == |joined.value| && forall i :: 0 <= i < |r.value| ==> joined.value[i] == Some(r.value[i])
  {
    match joined
    case None => Some([])
    case Some(rows) =>
      if exists i :: 0 <= i < |rows| && rows[i].None? then None
      else Some(seq(|rows|, i requires 0 <= i < |rows| => rows[i].value))
  }

  /** `cursosMat.map((c) => c.id)` */
  function Ids(cs: seq<Curso>): (ids: seq<int>)
    ensures |ids| == |cs|
    ensures forall k :: 0 <= k < |cs| ==> ids[k] == cs[k].id
  {
    seq(|cs|, k requires 0 <= k < |cs| => cs[k].id)
  }

  /** A snapshot of the page's state cells; `alert` is the last alert shown. */
  datatype PageState = PageState(
    matriculados: seq<Curso>,
    disponibles: seq<Curso>,
    loading: bool,
    selectedCurso: Option<Curso>,
    modalOpen: bool,
    matriculando: bool,
    alert: Option<string>)

  /** The effect of one call of `handleMatricular(cursoId)`. */
  datatype EnrollStep = EnrollStep(after: PageState, inserted: bool, attempted: bool, refetch: bool)

  /** `handleMatricular(cursoId)`: `user` is the session's user id, `insertError` the error of the insert. */
  function AfterMatricular(s: PageState, user: Option<string>, insertError: Option<ApiError>): (st: EnrollStep)
    ensures !st.after.matriculando
    ensures st.inserted ==> st.attempted
    ensures st.refetch <==> st.inserted
    ensures st.after == s.(matriculando := false, alert := st.after.alert)
  {
    if user.None? then EnrollStep(s.(matriculando := false, alert := Some("Debes iniciar sesión.")), false, false, false)
    else if insertError.Some? then
      EnrollStep(s.(matriculando := false, alert := Some("Error al matricular: " + insertError.value.message)), false, true, false)
    else EnrollStep(s.(matriculando := false, alert := Some("Matriculado con éxito!")), true, true, true)
  }

  /** Without a session: an alert, no insert. */
  lemma NoUserNoInsert(s: PageState, insertError: Option<ApiError>)
    ensures var st := AfterMatricular(s, None, insertError);
            !st.attempted && st.after.alert == Some("Debes iniciar sesión.")
  {
  }

  /** With a session the insert is always attempted: there is no existence or capacity check. */
  lemma SessionAlwaysInserts(s: PageState, user: string, insertError: Option<ApiError>)
    ensures var st := AfterMatricular(s, Some(user), insertError);
            && st.attempted
            && (insertError.None? ==> st.inserted && st.after.alert == Some("Matriculado con éxito!"))
            && (insertError.Some? ==> !st.refetch && st.after.alert == Some("Error al matricular: " + insertError.value.message))
  {
  }

  /** The page's state cells. */
  class CoursesPage {
    var matriculados: seq<Curso>
    var disponibles: seq<Curso>
    var loading: bool
    var selectedCurso: Option<Curso>
    var modalOpen: bool
    var matriculando: bool
    var alert: Option<string>

    function State(): PageState
      reads this
    {
      PageState(matriculados, disponibles, loading, selectedCurso, modalOpen, matriculando, alert)
    }

    constructor ()
      ensures State() == PageState([], [], true, None, false, false, None)
    {
      matriculados := [];
      disponibles := [];
      loading := true;
      selectedCurso := None;
      modalOpen := false;
      matriculando := false;
      alert := None;
    }

    /**
     * `fetchCursos()`: `joined` is the reply of the enrollment join (each
     * row's embedded course, or `null`), `catalog` the course table and
     * `counts` the per-course enrollment counts. `rejected` says that the
     * call threw on a `null` course, leaving `loading` set.
     */
    method FetchCursos(user: Option<string>, joined: Option<seq<Option<Curso>>>, catalog: Option<seq<Curso>>,
                       counts: map<int, nat>)
      returns (rejected: bool)
      modifies this
      ensures rejected <==> user.Some? && EnrolledCourses(joined).None?
      ensures loading <==> rejected
      ensures user.None? || rejected ==> matriculados == old(matriculados) && disponibles == old(disponibles)
      ensures user.Some? && !rejected ==>
                var cursosMat := EnrolledCourses(joined).value;
                && matriculados == cursosMat
                && disponibles == Available(catalog, Ids(cursosMat), counts)
                && forall i, j :: 0 <= i < |disponibles| && 0 <= j < |matriculados| ==>
                     disponibles[i].id != matriculados[j].id
      ensures selectedCurso == old(selectedCurso) && modalOpen == old(modalOpen)
      ensures matriculando == old(matriculando) && alert == old(alert)
    {
      loading := true;
      if user.None? {
        loading := false;
        return false;
      }
      var enrolled := EnrolledCourses(joined);
      if enrolled.None? {
        return true;
      }
      var cursosMat := enrolled.value;
      var ids := Ids(cursosMat);
      matriculados := cursosMat;
      disponibles := Available(catalog, ids, counts);
      assert forall j :: 0 <= j < |matriculados| ==> matriculados[j].id in ids;
      loading := false;
      rejected := false;
    }

    /** `handleOpenModal(curso)` */
    method OpenDetails(curso: Curso)
      modifies this
      ensures State() == old(State()).(selectedCurso := Some(curso), modalOpen := true)
    {
      selectedCurso := Some(curso);
      modalOpen := true;
    }

    /** `handleCloseModal()` */
    method CloseDetails()
      modifies this
      ensures State() == old(State()).(selectedCurso := None, modalOpen := false)
    {
      modalOpen := false;
      selectedCurso := None;
    }

    /** `handleMatricular(cursoId)`: the insert goes straight to the table. */
    method HandleMatricular(cursoId: int, user: Option<string>, insertError: Option<ApiError>, table: MatriculaTable)
      returns (refetch: bool)
      modifies this, table
      ensures var st := AfterMatricular(old(State()), user, insertError);
              && State() == st.after
              && refetch == st.refetch
              && table.pairs == (if st.inserted then old(table.pairs) + {Matricula(user.value, cursoId)}
                                 else old(table.pairs))
    {
      matriculando := true;
      if user.None? {
        matriculando := false;
        alert := Some("Debes iniciar sesión.");
        return false;
      }
      if insertError.Some? {
        alert := Some("Error al matricular: " + insertError.value.message);
        refetch := false;
      } else {
        table.pairs := table.pairs + {Matricula(user.value, cursoId)};
        alert := Some("Matriculado con éxito!");
        refetch := true;
      }
      matriculando := false;
    }
  }
}
