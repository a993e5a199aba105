/**
 * The administrator's course list (src/components/Admin/Cursos/ListaCursos.tsx):
 * a case-insensitive search over name, description and category, the
 * delete handler behind the confirmation modal, and the count and
 * empty-state labels.
 */
module ListCourses {
  import opened Common
  import Seqs
  import Text

  /** A `cursos` row as the list shows it. */
  datatype Curso = Curso(id: int, nombre: string, descripcion: string, categoria: string, profesorAsignado: string,
                         activo: bool, cupoMaximo: int)

  /** The search test of `cursosFiltrados`. */
  predicate Matches(c: Curso, busqueda: string)
  {
    Text.IncludesIgnoringCase(c.nombre, busqueda) || Text.IncludesIgnoringCase(c.descripcion, busqueda)
    || Text.IncludesIgnoringCase(c.categoria, busqueda)
  }

  /** `cursosFiltrados`: the matching courses, in their order in `cursos`. */
  function CursosFiltrados(cursos: seq<Curso>, busqueda: string): (r: seq<Curso>)
    ensures Seqs.IsSubsequence(r, cursos)
    ensures forall i :: 0 <= i < |r| ==> Matches(r[i], busqueda)
    ensures forall i :: 0 <= i < |cursos| && Matches(cursos[i], busqueda) ==> cursos[i] in r
    ensures busqueda == "" ==> r == cursos
  {
    var keep := (c: Curso) => Matches(c, busqueda);
    assert busqueda == "" ==> Seqs.Filter(cursos, keep) == cursos by {
      if busqueda == "" {
        forall i | 0 <= i < |cursos|
          ensures keep(cursos[i])
        {
          Text.EmptyQueryIncluded(cursos[i].nombre);
        }
        Seqs.FilterKeepsAll(cursos, keep);
      }
    }
    Seqs.Filter(cursos, keep)
  }

  /** The header line under "Cursos", e.g. "3 cursos registrados". */
  function CountLabel(n: nat): (line: string)
    ensures n == 1 ==> line == "1 curso registrado"
    ensures n != 1 ==> line == Text.ShowNat(n) + " cursos registrados"
  {
    Text.ShowNat(n) + " curso" + Text.PluralSuffix(n) + " registrado" + Text.PluralSuffix(n)
  }

  /** The empty-state title and subtitle. */
  datatype EmptyState = EmptyState(title: string, subtitle: string)

  /** What the list shows when no course is listed: it depends only on whether a search was typed. */
  function EmptyMessage(busqueda: string): (m: EmptyState)
    ensures busqueda != "" ==> m == EmptyState("No se encontraron resultados", "Intenta con otros términos de búsqueda")
    ensures busqueda == "" ==> m == EmptyState("No hay cursos", "Crea el primer curso")
  {
    if busqueda != "" then EmptyState("No se encontraron resultados", "Intenta con otros términos de búsqueda")
    else EmptyState("No hay cursos", "Crea el primer curso")
  }

  /** The delete-confirmation modal. */
  datatype DeleteModal = DeleteModal(show: bool, curso: Option<Curso>)

  /** The screen's state cells. */
  class CoursesList {
    var cursos: seq<Curso>
    var loading: bool
    var busqueda: string
    var toast: Option<Toast>
    var modalEliminar: DeleteModal
    var eliminando: bool

    constructor ()
      ensures cursos == [] && loading && busqueda == "" && toast == None
      ensures modalEliminar == DeleteModal(false, None) && !eliminando
    {
      cursos := [];
      loading := true;
      busqueda := "";
      toast := None;
      modalEliminar := DeleteModal(false, None);
      eliminando := false;
    }

    /** `fetchCursos()`, given the reply of the query (already ordered by name). */
    method FetchCursos(reply: Reply<seq<Curso>>)
      modifies this`cursos, this`loading, this`toast
      ensures !loading
      ensures reply.error.Some? ==> cursos == old(cursos) && toast == Some(Toast(ErrorToast, "Error al cargar cursos"))
      ensures reply.error.None? ==> toast == old(toast) && cursos == (if reply.data.Some? then reply.data.value else [])
    {
      loading := true;
      if reply.error.Some? {
        toast := Some(Toast(ErrorToast, "Error al cargar cursos"));
      } else {
        cursos := if reply.data.Some? then reply.data.value else [];
      }
      loading := false;
    }

    /**
     * `handleEliminar()`: `error` is the error of the delete. `deleted` is
     * the id whose deletion was requested, and `refetch` whether the list
     * is reloaded.
     */
    method HandleEliminar(error: Option<ApiError>) returns (deleted: Option<int>, refetch: bool)
      modifies this`toast, this`modalEliminar, this`eliminando
      ensures old(modalEliminar).curso.None? ==>
                deleted == None && !refetch && toast == old(toast) && modalEliminar == old(modalEliminar)
                && eliminando == old(eliminando)
      ensures old(modalEliminar).curso.Some? ==>
                var c := old(modalEliminar).curso.value;
                && deleted == Some(c.id)
                && (refetch <==> error.None?)
                && (error.Some? ==> toast == Some(Toast(ErrorToast, "Error al eliminar curso: " + error.value.message)))
                && (error.None? ==> toast == Some(Toast(SuccessToast, "Curso \"" + c.nombre + "\" eliminado exitosamente")))
                && modalEliminar == DeleteModal(false, None)
                && !eliminando
    {
      if modalEliminar.curso.None? {
        return None, false;
      }
      var c := modalEliminar.curso.value;
      eliminando := true;
      deleted := Some(c.id);
      if error.Some? {
        toast := Some(Toast(ErrorToast, "Error al eliminar curso: " + error.value.message));
        refetch := false;
      } else {
        toast := Some(Toast(SuccessToast, "Curso \"" + c.nombre + "\" eliminado exitosamente"));
        refetch := true;
      }
      modalEliminar := DeleteModal(false, None);
      eliminando := false;
    }
  }
}
