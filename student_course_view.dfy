/**
 * The student's course catalogue with a confirmation dialog
 * (src/components/StudentProfile/Cursos/StudentCourseView.tsx).
 *
 * The component's state cells are the fields of `CoursesView`. The
 * enrollment handler checks for an existing row before inserting; the
 * backend's session, errors and counts are parameters, and the
 * `matriculas` table is a `MatriculaTable` that the handler's insert
 * extends. `AfterMatricular` gives the handler's effect as a function, so
 * that its rules can be stated as lemmas.
 */
module StudentCourseView {
  import opened Common
  import opened Enrollment
  import Text

  /** `modalMatricular`: the confirmation dialog. */
  datatype Confirm = Confirm(show: bool, curso: Option<Curso>)

  function ClosedConfirm(): Confirm
  {
    Confirm(false, None)
  }

  /** A snapshot of every state cell of the component. */
  datatype ViewState = ViewState(
    disponibles: seq<Curso>,
    loading: bool,
    selectedCurso: Option<Curso>,
    modalOpen: bool,
    matriculando: bool,
    toast: Option<Toast>,
    confirm: Confirm)

  const AlreadyEnrolled := "Ya estás matriculado en este curso"

  /** The warning for an insert the backend refused as a duplicate. */
  predicate IsDuplicate(e: ApiError)
  {
    e.code == "23505" || Text.Contains(e.message, "duplicate key")
  }

  function SuccessMessage(nombre: string): string
  {
    "¡Te matriculaste exitosamente en \"" + nombre + "\"!"
  }

  /** The effect of one call of `handleMatricular`. */
  datatype EnrollStep = EnrollStep(after: ViewState, verified: bool, inserted: bool, refetch: bool)

  /**
   * `handleMatricular()` from state `s`: `user` is the session's user id,
   * `verifyError` the error of the existence query, `existente` whether it
   * returned a row, and `insertError` the error of the insert.
   */
  function AfterMatricular(s: ViewState, user: Option<string>, verifyError: Option<ApiError>,
                           existente: bool, insertError: Option<ApiError>): (st: EnrollStep)
    ensures st.inserted ==> st.verified && st.refetch
    ensures st.refetch ==> st.inserted
    ensures s.confirm.curso.Some? ==> !st.after.matriculando
    ensures st.after.disponibles == s.disponibles && st.after.loading == s.loading
  {
    if s.confirm.curso.None? then EnrollStep(s, false, false, false)
    else if user.None? then
      EnrollStep(s.(toast := Some(Toast(ErrorToast, "Debes iniciar sesión")), matriculando := false), false, false, false)
    else if verifyError.Some? && verifyError.value.code != "PGRST116" then
      EnrollStep(s.(toast := Some(Toast(ErrorToast, "Error al verificar matrícula")), matriculando := false,
                    confirm := ClosedConfirm()), true, false, false)
    else if existente then
      EnrollStep(s.(toast := Some(Toast(WarningToast, AlreadyEnrolled)), matriculando := false,
                    confirm := ClosedConfirm()), true, false, false)
    else if insertError.Some? then
      var t := if IsDuplicate(insertError.value) then Toast(WarningToast, AlreadyEnrolled)
               else Toast(ErrorToast, "Error al matricular: " + insertError.value.message);
      EnrollStep(s.(toast := Some(t), matriculando := false, confirm := ClosedConfirm()), true, false, false)
    else
      EnrollStep(s.(toast := Some(Toast(SuccessToast, SuccessMessage(s.confirm.curso.value.nombre))),
                    modalOpen := false, selectedCurso := None, matriculando := false,
                    confirm := ClosedConfirm()), true, true, true)
  }

  /** With no course in the dialog the handler returns at once and changes nothing. */
  lemma NoCourseDoesNothing(s: ViewState, user: Option<string>, verifyError: Option<ApiError>,
                            existente: bool, insertError: Option<ApiError>)
    requires s.confirm.curso.None?
    ensures AfterMatricular(s, user, verifyError, existente, insertError) == EnrollStep(s, false, false, false)
  {
  }

  /** Without a session: an error toast, no query, no insert, and the dialog stays as it was. */
  lemma NoUserMakesNoQuery(s: ViewState, verifyError: Option<ApiError>, existente: bool, insertError: Option<ApiError>)
    requires s.confirm.curso.Some?
    ensures var st := AfterMatricular(s, None, verifyError, existente, insertError);
            && !st.verified && !st.inserted
            && st.after.toast == Some(Toast(ErrorToast, "Debes iniciar sesión"))
            && st.after.confirm == s.confirm
  {
  }

  /** A verification error other than PGRST116 is reported and nothing is inserted; PGRST116 alone lets the handler go on. */
  lemma VerifyErrorStops(s: ViewState, user: string, e: ApiError, existente: bool, insertError: Option<ApiError>)
    requires s.confirm.curso.Some?
    ensures var st := AfterMatricular(s, Some(user), Some(e), existente, insertError);
            e.code != "PGRST116" ==>
              !st.inserted && st.after.toast == Some(Toast(ErrorToast, "Error al verificar matrícula"))
    ensures e.code == "PGRST116" ==>
              AfterMatricular(s, Some(user), Some(e), existente, insertError)
              == AfterMatricular(s, Some(user), None, existente, insertError)
  {
  }

  /** An existing row gives the already-enrolled warning and no insert. */
  lemma ExistingRowWarns(s: ViewState, user: string, verifyError: Option<ApiError>, insertError: Option<ApiError>)
    requires s.confirm.curso.Some?
    requires verifyError.None? || verifyError.value.code == "PGRST116"
    ensures var st := AfterMatricular(s, Some(user), verifyError, true, insertError);
            !st.inserted && st.after.toast == Some(Toast(WarningToast, AlreadyEnrolled))
  {
  }

  /** A refused insert: a duplicate (23505 or "duplicate key") is the already-enrolled warning, anything else an error toast with the backend message. */
  lemma InsertErrorToast(s: ViewState, user: string, e: ApiError)
    requires s.confirm.curso.Some?
    ensures var st := AfterMatricular(s, Some(user), None, false, Some(e));
            && !st.inserted && st.verified
            && (IsDuplicate(e) ==> st.after.toast == Some(Toast(WarningToast, AlreadyEnrolled)))
            && (!IsDuplicate(e) ==> st.after.toast == Some(Toast(ErrorToast, "Error al matricular: " + e.message)))
  {
  }

  /** A message naming a duplicate key is recognised whatever its code. */
  lemma DuplicateKeyMessage(code: string, before: string, after: string)
    ensures IsDuplicate(ApiError(code, before + "duplicate key" + after))
  {
    var m := before + "duplicate key" + after;
    assert Text.OccursAt(m, "duplicate key", |before|) by {
      assert m[|before|..|before| + |"duplicate key"|] == "duplicate key";
    }
    Text.OccurrenceIsContained(m, "duplicate key", |before|);
  }

  /** The row is inserted exactly when every check passed and the backend accepted it. */
  lemma InsertedIff(s: ViewState, user: Option<string>, verifyError: Option<ApiError>,
                    existente: bool, insertError: Option<ApiError>)
    ensures AfterMatricular(s, user, verifyError, existente, insertError).inserted <==>
              && s.confirm.curso.Some? && user.Some?
              && (verifyError.None? || verifyError.value.code == "PGRST116")
              && !existente && insertError.None?
  {
  }

  /** Once a course is in the dialog the handler ends idle, and with a session it always closes the dialog. */
  lemma EndsIdle(s: ViewState, user: Option<string>, verifyError: Option<ApiError>,
                 existente: bool, insertError: Option<ApiError>)
    requires s.confirm.curso.Some?
    ensures var st := AfterMatricular(s, user, verifyError, existente, insertError);
            !st.after.matriculando && (user.Some? ==> st.after.confirm == ClosedConfirm())
  {
  }

  /** The handler never looks at the seats: two courses differing only in capacity or occupancy are enrolled alike. */
  lemma CapacityIsNotChecked(s: ViewState, user: Option<string>, verifyError: Option<ApiError>,
                             existente: bool, insertError: Option<ApiError>, cupo: int, ocupados: Option<int>)
    requires s.confirm.curso.Some?
    ensures var c := s.confirm.curso.value;
            var t := s.(confirm := Confirm(s.confirm.show, Some(c.(cupoMaximo := cupo, cuposOcupados := ocupados))));
            AfterMatricular(t, user, verifyError, existente, insertError).inserted
            == AfterMatricular(s, user, verifyError, existente, insertError).inserted
  {
  }

  /** The component's state cells. */
  class CoursesView {
    var disponibles: seq<Curso>
    var loading: bool
    var selectedCurso: Option<Curso>
    var modalOpen: bool
    var matriculando: bool
    var toast: Option<Toast>
    var confirm: Confirm

    function State(): ViewState
      reads this
    {
      ViewState(disponibles, loading, selectedCurso, modalOpen, matriculando, toast, confirm)
    }

    constructor ()
      ensures State() == ViewState([], true, None, false, false, None, ClosedConfirm())
    {
      disponibles := [];
      loading := true;
      selectedCurso := None;
      modalOpen := false;
      matriculando := false;
      toast := None;
      confirm := ClosedConfirm();
    }

    /**
     * `fetchCursos()`: `user` is the session's user id, `matriculas` the
     * course ids of the user's enrollments (absent when the query returned
     * nothing), `catalog` the course table as the backend returned it, and
     * `counts` the per-course enrollment counts.
     */
    method FetchCursos(user: Option<string>, matriculas: Option<seq<int>>, catalog: Option<seq<Curso>>,
                       counts: map<int, nat>)
      modifies this
      ensures !loading
      ensures user.None? ==> disponibles == old(disponibles)
      ensures user.Some? ==>
                disponibles == Available(catalog, if matriculas.Some? then matriculas.value else [], counts)
      ensures selectedCurso == old(selectedCurso) && modalOpen == old(modalOpen)
      ensures matriculando == old(matriculando) && toast == old(toast) && confirm == old(confirm)
    {
      loading := true;
      if user.None? {
        loading := false;
        return;
      }
      var cursoIds := if matriculas.Some? then matriculas.value else [];
      disponibles := Available(catalog, cursoIds, counts);
      loading := false;
    }

    /** `handleOpenModal(curso)` */
    method OpenDetails(curso: Curso)
      modifies this
      ensures State() == old(State()).(selectedCurso := Some(curso), modalOpen := true)
    {
      selectedCurso := Some(curso);
      modalOpen := true;
    }

    /** `handleCloseModal()` */
    method CloseDetails()
      modifies this
      ensures State() == old(State()).(selectedCurso := None, modalOpen := false)
    {
      modalOpen := false;
      selectedCurso := None;
    }

    /** The "Matricular" button of a card: opens the confirmation dialog for `curso`. */
    method AskToEnroll(curso: Curso)
      modifies this
      ensures State() == old(State()).(confirm := Confirm(true, Some(curso)))
    {
      confirm := Confirm(true, Some(curso));
    }

    /** The dialog's cancel button. */
    method CancelEnroll()
      modifies this
      ensures State() == old(State()).(confirm := ClosedConfirm())
    {
      confirm := ClosedConfirm();
    }

    /**
     * `handleMatricular()`. The existence query sees the table: it returns a
     * row exactly when it did not fail and the pair is present. `refetch`
     * says whether the handler started `fetchCursos()` again.
     */
    method HandleMatricular(user: Option<string>, verifyError: Option<ApiError>, insertError: Option<ApiError>,
                            table: MatriculaTable) returns (refetch: bool)
      modifies this, table
      ensures var existente := user.Some? && old(confirm.curso).Some? && verifyError.None? &&
                               Matricula(user.value, old(confirm.curso).value.id) in old(table.pairs);
              var st := AfterMatricular(old(State()), user, verifyError, existente, insertError);
              && State() == st.after
              && refetch == st.refetch
              && table.pairs == (if st.inserted then old(table.pairs) + {Matricula(user.value, old(confirm.curso).value.id)}
                                 else old(table.pairs))
    {
      refetch := false;
      if confirm.curso.None? {
        return;
      }
      var curso := confirm.curso.value;
      matriculando := true;
      if user.None? {
        toast := Some(Toast(ErrorToast, "Debes iniciar sesión"));
        matriculando := false;
        return;
      }
      var pair := Matricula(user.value, curso.id);
      var existente := verifyError.None? && pair in table.pairs;
      if verifyError.Some? && verifyError.value.code != "PGRST116" {
        toast := Some(Toast(ErrorToast, "Error al verificar matrícula"));
        matriculando := false;
        confirm := ClosedConfirm();
        return;
      }
      if existente {
        toast := Some(Toast(WarningToast, AlreadyEnrolled));
        matriculando := false;
        confirm := ClosedConfirm();
        return;
      }
      if insertError.Some? {
        if IsDuplicate(insertError.value) {
          toast := Some(Toast(WarningToast, AlreadyEnrolled));
        } else {
          toast := Some(Toast(ErrorToast, "Error al matricular: " + insertError.value.message));
        }
      } else {
        table.pairs := table.pairs + {pair};
        toast := Some(Toast(SuccessToast, SuccessMessage(curso.nombre)));
        refetch := true;
        modalOpen := false;
        selectedCurso := None;
      }
      matriculando := false;
      confirm := ClosedConfirm();
    }

    /** The toast's close button. */
    method CloseToast()
      modifies this
      ensures State() == old(State()).(toast := None)
    {
      toast := None;
    }
  }
}
