/**
 * What the two student course screens share: the course row, the backend's
 * `matriculas` table as a set of (profile, course) pairs, the listing of the
 * courses a student may still enroll in, and the seat arithmetic that
 * disables the enroll button.
 *
 * The listing combines the backend filter `.eq("activo", true)` with the
 * screen's own `filter((c) => !ids.includes(c.id))` and the per-course
 * `count ?? 0`; the counts, run concurrently by the source, are taken here
 * as a map from course id to the number the backend reported.
 */
module Enrollment {
  import opened Common

  /** A `cursos` row; `cuposOcupados` is the optional field the listing fills in. */
  datatype Curso = Curso(
    id: int, nombre: string, descripcion: string, profesorAsignado: string,
    activo: bool, cupoMaximo: int, cuposOcupados: Option<int>)

  /** A `matriculas` row. */
  datatype Matricula = Matricula(perfilId: string, cursoId: int)

  /** The backend's enrollment table. */
  class MatriculaTable {
    var pairs: set<Matricula>

    constructor (initial: set<Matricula>)
      ensures pairs == initial
    {
      pairs := initial;
    }
  }

  /** `count ?? 0`: the reported count, or 0 when the count came back null. */
  function Occupancy(counts: map<int, nat>, id: int): nat
  {
    if id in counts then counts[id] else 0
  }

  /** `{ ...curso, cupos_ocupados: count ?? 0 }` */
  function WithCount(c: Curso, counts: map<int, nat>): (r: Curso)
    ensures r.id == c.id && r.activo == c.activo && r.cupoMaximo == c.cupoMaximo && r.nombre == c.nombre
    ensures r.cuposOcupados == Some(Occupancy(counts, c.id))
    ensures r.(cuposOcupados := c.cuposOcupados) == c
  {
    c.(cuposOcupados := Some(Occupancy(counts, c.id)))
  }

  /** A course is offered when it is active and the student is not enrolled in it. */
  predicate Offered(c: Curso, enrolledIds: seq<int>)
  {
    c.activo && c.id !in enrolledIds
  }

  /**
   * The available list built by `fetchCursos` from the course table
   * `catalog`, the ids of the student's enrollments and the per-course
   * counts; the table's order is kept.
   */
  function AvailableFrom(catalog: seq<Curso>, enrolledIds: seq<int>, counts: map<int, nat>): (r: seq<Curso>)
    ensures |r| <= |catalog|
    ensures forall i :: 0 <= i < |r| ==>
              Offered(r[i], enrolledIds) && r[i].cuposOcupados == Some(Occupancy(counts, r[i].id))
    ensures forall i :: 0 <= i < |r| ==> exists j :: 0 <= j < |catalog| && r[i] == WithCount(catalog[j], counts)
    ensures forall j :: 0 <= j < |catalog| && Offered(catalog[j], enrolledIds) ==> WithCount(catalog[j], counts) in r
    decreases |catalog|
  {
    if |catalog| == 0 then []
    else
      var rest := AvailableFrom(catalog[1..], enrolledIds, counts);
      if Offered(catalog[0], enrolledIds) then [WithCount(catalog[0], counts)] + rest else rest
  }

  /** The listing follows the table's order: listing a split table lists its parts one after the other. */
  lemma {:induction false} AvailableFromAppend(a: seq<Curso>, b: seq<Curso>, enrolledIds: seq<int>, counts: map<int, nat>)
    ensures AvailableFrom(a + b, enrolledIds, counts) == AvailableFrom(a, enrolledIds, counts) + AvailableFrom(b, enrolledIds, counts)
    decreases |a|
  {
    if |a| == 0 {
      assert a + b == b;
    } else {
      assert (a + b)[1..] == a[1..] + b;
      AvailableFromAppend(a[1..], b, enrolledIds, counts);
    }
  }

  /** A single table row is listed, with its count, exactly when it is offered. */
  lemma AvailableFromOne(c: Curso, enrolledIds: seq<int>, counts: map<int, nat>)
    ensures AvailableFrom([c], enrolledIds, counts) == if Offered(c, enrolledIds) then [WithCount(c, counts)] else []
  {
    assert [c][1..] == [];
  }

  /** The available list when the course query may have returned nothing (`cursosDisponibles || []`). */
  function Available(catalog: Option<seq<Curso>>, enrolledIds: seq<int>, counts: map<int, nat>): (r: seq<Curso>)
    ensures catalog.None? ==> r == []
    ensures forall i :: 0 <= i < |r| ==> Offered(r[i], enrolledIds)
  {
    match catalog
    case None => []
    case Some(cs) => AvailableFrom(cs, enrolledIds, counts)
  }

  /** `cupos_ocupados || 0` */
  function OccupiedOrZero(c: Curso): int
  {
    match c.cuposOcupados
    case Some(n) => n
    case None => 0
  }

  /** `cuposRestantes = cupo_maximo - (cupos_ocupados || 0)` */
  function CuposRestantes(c: Curso): int
  {
    c.cupoMaximo - OccupiedOrZero(c)
  }

  predicate CursoLleno(c: Curso)
  {
    CuposRestantes(c) <= 0
  }

  /** The enroll button's `disabled` attribute. */
  predicate EnrollDisabled(c: Curso, matriculando: bool)
  {
    CursoLleno(c) || matriculando
  }

  /** A course is full exactly when its occupancy has reached its maximum, and the button is off then or while an enrollment is running. */
  lemma EnrollDisabledIff(c: Curso, matriculando: bool)
    ensures CursoLleno(c) <==> OccupiedOrZero(c) >= c.cupoMaximo
    ensures EnrollDisabled(c, matriculando) <==> matriculando || OccupiedOrZero(c) >= c.cupoMaximo
    ensures !matriculando && OccupiedOrZero(c) < c.cupoMaximo ==> !EnrollDisabled(c, matriculando)
  {
  }

  /** For a listed course the button is off exactly when the reported count has reached the maximum (or an enrollment runs). */
  lemma ListedCourseDisabledIff(catalog: seq<Curso>, enrolledIds: seq<int>, counts: map<int, nat>, i: nat, matriculando: bool)
    requires i < |AvailableFrom(catalog, enrolledIds, counts)|
    ensures var c := AvailableFrom(catalog, enrolledIds, counts)[i];
            EnrollDisabled(c, matriculando) <==> matriculando || Occupancy(counts, c.id) >= c.cupoMaximo
  {
  }

  /** Every listed course is one of the catalog's, and every active course the student is not in is listed. */
  lemma {:induction false} AvailableIsFilter(catalog: seq<Curso>, enrolledIds: seq<int>, counts: map<int, nat>, c: Curso)
    ensures c in catalog && Offered(c, enrolledIds) ==> WithCount(c, counts) in AvailableFrom(catalog, enrolledIds, counts)
    ensures c in AvailableFrom(catalog, enrolledIds, counts) ==>
              Offered(c, enrolledIds) && exists d :: d in catalog && c == WithCount(d, counts)
  {
    var r := AvailableFrom(catalog, enrolledIds, counts);
    if c in catalog && Offered(c, enrolledIds) {
      var j :| 0 <= j < |catalog| && catalog[j] == c;
    }
    if c in r {
      var i :| 0 <= i < |r| && r[i] == c;
      var j :| 0 <= j < |catalog| && r[i] == WithCount(catalog[j], counts);
      assert catalog[j] in catalog;
    }
  }

  /** With no enrollments and every course active, every course is offered. */
  lemma {:induction false} NothingEnrolledListsAll(catalog: seq<Curso>, counts: map<int, nat>)
    requires forall j :: 0 <= j < |catalog| ==> catalog[j].activo
    ensures |AvailableFrom(catalog, [], counts)| == |catalog|
    decreases |catalog|
  {
    if |catalog| > 0 {
      NothingEnrolledListsAll(catalog[1..], counts);
    }
  }
}
