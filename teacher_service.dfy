/**
 * The teacher-side operations of src/services/teacherService.ts. Tables
 * the backend reads are parameters; the row an insert creates is returned
 * as the operation's value, and the id the backend assigns to it is a
 * parameter too. Every backend error becomes a thrown `Error` whose message
 * names the operation.
 */
module TeacherService {
  import opened Common
  import opened Tables
  import Seqs
  import Text

  /** A `cursos` row as the teacher screens read it, with the optional enrollment count. */
  datatype TeacherCourse = TeacherCourse(
    id: string, nombre: string, codigo: string, descripcion: string, cupoMaximo: int, activo: bool,
    fechaCreacion: string, profesorAsignado: string, estudiantesCount: Option<nat>)

  /**
   * `getTeacherCourses()`: `user` is the session's user, `perfilNombre` the
   * name on the user's profile (absent when no profile was found), `cursos`
   * the reply of the course query (already ordered by the backend) and
   * `counts` the per-course enrollment counts.
   */
  function GetTeacherCourses(user: Option<string>, perfilNombre: Option<string>, cursos: Reply<seq<TeacherCourse>>,
                             counts: map<string, nat>): (r: Result<seq<TeacherCourse>>)
    ensures user.None? ==> r == Thrown("No autenticado")
    ensures user.Some? && perfilNombre.None? ==> r == Thrown("Perfil no encontrado")
    ensures user.Some? && perfilNombre.Some? && cursos.error.Some? ==>
              r == Thrown("Error al cargar cursos: " + cursos.error.value.message)
    ensures user.Some? && perfilNombre.Some? && cursos.error.None? ==> r.Ok?
    ensures r.Ok? ==>
              var rows := if cursos.data.Some? then cursos.data.value else [];
              && |r.value| == |rows|
              && forall i :: 0 <= i < |rows| ==>
                   r.value[i] == rows[i].(estudiantesCount := Some(if rows[i].id in counts then counts[rows[i].id] else 0))
  {
    if user.None? then Thrown("No autenticado")
    else if perfilNombre.None? then Thrown("Perfil no encontrado")
    else if cursos.error.Some? then Thrown("Error al cargar cursos: " + cursos.error.value.message)
    else
      var rows := if cursos.data.Some? then cursos.data.value else [];
      Ok(seq(|rows|, i requires 0 <= i < |rows| =>
        rows[i].(estudiantesCount := Some(if rows[i].id in counts then counts[rows[i].id] else 0))))
  }

  /** A `matriculas` row as `getCourseStudents` selects it. */
  datatype EnrollmentRow = EnrollmentRow(perfilId: string, createdAt: Option<string>)

  /** A `perfiles` row as `getCourseStudents` selects it. */
  datatype PerfilRow = PerfilRow(id: string, nombre: string, email: string, carrera: Option<string>)

  /** An entry of the course's student list. */
  datatype CourseStudent = CourseStudent(id: string, nombre: string, email: string, carrera: Option<string>,
                                         fechaMatricula: string)

  /** `matriculas.find((m) => m.perfil_id === id)?.created_at || ""` */
  function EnrollmentDate(ms: seq<EnrollmentRow>, id: string): string
  {
    match Seqs.Find(ms, (m: EnrollmentRow) => m.perfilId == id)
    case Some(m) => OrElse(m.createdAt, "")
    case None => ""
  }

  /** The result of `getCourseStudents` and whether it went on to query the profiles. */
  datatype Students = Students(result: Result<seq<CourseStudent>>, profilesQueried: bool)

  /** `getCourseStudents(cursoId)`: the replies of the enrollment query and of the profile query. */
  function GetCourseStudents(matriculas: Reply<seq<EnrollmentRow>>, perfiles: Reply<seq<PerfilRow>>): (r: Students)
    ensures matriculas.error.Some? ==> r == Students(Thrown("Error al cargar estudiantes"), false)
    ensures r.profilesQueried <==>
              matriculas.error.None? && matriculas.data.Some? && |matriculas.data.value| > 0
    ensures matriculas.error.None? && !r.profilesQueried ==> r.result == Ok([])
    ensures r.profilesQueried && perfiles.error.Some? ==> r.result == Thrown("Error al cargar perfiles")
    ensures r.profilesQueried && perfiles.error.None? ==>
              var rows := if perfiles.data.Some? then perfiles.data.value else [];
              && r.result.Ok?
              && |r.result.value| == |rows|
              && forall i :: 0 <= i < |rows| ==>
                   r.result.value[i] == CourseStudent(rows[i].id, rows[i].nombre, rows[i].email, rows[i].carrera,
                                                      EnrollmentDate(matriculas.data.value, rows[i].id))
  {
    if matriculas.error.Some? then Students(Thrown("Error al cargar estudiantes"), false)
    else if matriculas.data.None? || |matriculas.data.value| == 0 then Students(Ok([]), false)
    else if perfiles.error.Some? then Students(Thrown("Error al cargar perfiles"), true)
    else
      var ms := matriculas.data.value;
      var rows := if perfiles.data.Some? then perfiles.data.value else [];
      Students(Ok(seq(|rows|, i requires 0 <= i < |rows| =>
        CourseStudent(rows[i].id, rows[i].nombre, rows[i].email, rows[i].carrera, EnrollmentDate(ms, rows[i].id)))), true)
  }

  /** Each student's date is that of the first enrollment row for that profile, or `""`. */
  lemma EnrollmentDateFirstMatch(ms: seq<EnrollmentRow>, id: string, k: nat)
    requires k < |ms| && ms[k].perfilId == id
    requires forall j :: 0 <= j < k ==> ms[j].perfilId != id
    ensures EnrollmentDate(ms, id) == OrElse(ms[k].createdAt, "")
  {
    Seqs.FindFirst(ms, (m: EnrollmentRow) => m.perfilId == id, k);
  }

  /** `getCourseModules(cursoId)`: every module of the course, hidden ones included, by ascending `orden`. */
  function GetCourseModules(table: seq<ModuleRow>, cursoId: string, error: Option<ApiError>): (r: Result<seq<ModuleRow>>)
    ensures r.Thrown? <==> error.Some?
    ensures error.Some? ==> r.message == "Error al cargar módulos: " + error.value.message
    ensures r.Ok? ==> Seqs.SortedBy(r.value, ModuleOrden)
    ensures r.Ok? ==> forall m :: m in r.value <==> m in table && m.cursoId == cursoId
    ensures r.Ok? ==> multiset(r.value) == multiset(Seqs.Filter(table, (m: ModuleRow) => m.cursoId == cursoId))
  {
    if error.Some? then Thrown("Error al cargar módulos: " + error.value.message)
    else
      var keep := (m: ModuleRow) => m.cursoId == cursoId;
      var sorted := Seqs.SortBy(Seqs.Filter(table, keep), ModuleOrden);
      Seqs.FilterMembership(table, keep);
      assert forall m :: m in sorted <==> m in multiset(Seqs.Filter(table, keep));
      Ok(sorted)
  }

  /** `getModuleContent(moduloId)`: every item of the module, hidden ones included, by ascending `orden`. */
  function GetModuleContent(table: seq<ContentRow>, moduloId: int, error: Option<ApiError>): (r: Result<seq<ContentRow>>)
    ensures r.Thrown? <==> error.Some?
    ensures error.Some? ==> r.message == "Error al cargar contenido: " + error.value.message
    ensures r.Ok? ==> Seqs.SortedBy(r.value, ContentOrden)
    ensures r.Ok? ==> forall c :: c in r.value <==> c in table && c.moduloId == moduloId
    ensures r.Ok? ==> multiset(r.value) == multiset(Seqs.Filter(table, (c: ContentRow) => c.moduloId == moduloId))
  {
    if error.Some? then Thrown("Error al cargar contenido: " + error.value.message)
    else
      var keep := (c: ContentRow) => c.moduloId == moduloId;
      var sorted := Seqs.SortBy(Seqs.Filter(table, keep), ContentOrden);
      Seqs.FilterMembership(table, keep);
      assert forall c :: c in sorted <==> c in multiset(Seqs.Filter(table, keep));
      Ok(sorted)
  }

  /** The largest `orden` among the rows that pass `p`: what the descending `order(...).limit(1)` lookup returns. */
  function MaxOrden<T>(rows: seq<T>, p: T -> bool, orden: T -> int): (m: Option<int>)
    ensures m.None? <==> forall i :: 0 <= i < |rows| ==> !p(rows[i])
    ensures m.Some? ==> forall i :: 0 <= i < |rows| && p(rows[i]) ==> orden(rows[i]) <= m.value
    ensures m.Some? ==> exists i :: 0 <= i < |rows| && p(rows[i]) && orden(rows[i]) == m.value
    decreases |rows|
  {
    if |rows| == 0 then None
    else
      var rest := MaxOrden(rows[1..], p, orden);
      assert forall i :: 1 <= i < |rows| ==> rows[i] == rows[1..][i - 1];
      if !p(rows[0]) then rest
      else if rest.None? || orden(rows[0]) >= rest.value then Some(orden(rows[0]))
      else rest
  }

  /** `(maxOrden?.orden ?? 0) + 1` */
  function NextOrden(max: Option<int>): (n: int)
    ensures max.None? ==> n == 1
    ensures max.Some? ==> n == max.value + 1
  {
    match max
    case Some(m) => m + 1
    case None => 1
  }

  /**
   * `createCourseModule(cursoId, titulo, descripcion)`: `maxOrden` is the
   * `orden` the lookup of the course's last module returned, `None` when
   * it returned no row, which is also what a failed lookup gives since its
   * error is not read; `newId` is the id the backend gives the new row and
   * `insertError` the error of the insert.
   */
  function CreateCourseModule(maxOrden: Option<int>, cursoId: string, titulo: string, descripcion: string,
                              newId: int, insertError: Option<ApiError>): (r: Result<ModuleRow>)
    ensures r.Thrown? <==> insertError.Some?
    ensures insertError.Some? ==> r.message == "Error al crear módulo: " + insertError.value.message
    ensures r.Ok? ==> r.value.cursoId == cursoId && r.value.titulo == titulo && r.value.descripcion == descripcion
    ensures r.Ok? ==> r.value.visible && r.value.id == newId
    ensures r.Ok? && maxOrden.None? ==> r.value.orden == 1
    ensures r.Ok? && maxOrden.Some? ==> r.value.orden == maxOrden.value + 1
  {
    var row := ModuleRow(newId, cursoId, titulo, descripcion, NextOrden(maxOrden), true);
    if insertError.Some? then Thrown("Error al crear módulo: " + insertError.value.message)
    else Ok(row)
  }

  /** The lookup's filter `.eq("curso_id", cursoId)`. */
  function InCourse(cursoId: string): ModuleRow -> bool
  {
    (m: ModuleRow) => m.cursoId == cursoId
  }

  /** The lookup's filter `.eq("modulo_id", moduloId)`. */
  function InModule(moduloId: int): ContentRow -> bool
  {
    (c: ContentRow) => c.moduloId == moduloId
  }

  /**
   * When the lookup answers from the module table, the new module comes
   * after every module of its course, and is the first one in a course
   * without modules.
   */
  lemma CreatedModuleComesLast(table: seq<ModuleRow>, cursoId: string, titulo: string, descripcion: string, newId: int)
    ensures var r := CreateCourseModule(MaxOrden(table, InCourse(cursoId), ModuleOrden), cursoId, titulo, descripcion,
                                        newId, None);
            && r.Ok?
            && (forall i :: 0 <= i < |table| && table[i].cursoId == cursoId ==> table[i].orden < r.value.orden)
            && ((forall i :: 0 <= i < |table| ==> table[i].cursoId != cursoId) ==> r.value.orden == 1)
  {
    var max := MaxOrden(table, InCourse(cursoId), ModuleOrden);
    assert forall i :: 0 <= i < |table| ==> (InCourse(cursoId)(table[i]) <==> table[i].cursoId == cursoId);
    if max.Some? {
      assert forall i :: 0 <= i < |table| && table[i].cursoId == cursoId ==> table[i].orden <= max.value;
    }
  }

  /**
   * When the lookup answers from the module table, positions distinct
   * within each course stay distinct once the created module is added.
   */
  lemma CreateKeepsOrdenDistinct(table: seq<ModuleRow>, cursoId: string, titulo: string, descripcion: string, newId: int)
    requires forall i, j :: 0 <= i < j < |table| && table[i].cursoId == table[j].cursoId ==> table[i].orden != table[j].orden
    ensures var max := MaxOrden(table, InCourse(cursoId), ModuleOrden);
            var t := table + [CreateCourseModule(max, cursoId, titulo, descripcion, newId, None).value];
            forall i, j :: 0 <= i < j < |t| && t[i].cursoId == t[j].cursoId ==> t[i].orden != t[j].orden
  {
    var max := MaxOrden(table, InCourse(cursoId), ModuleOrden);
    var row := CreateCourseModule(max, cursoId, titulo, descripcion, newId, None).value;
    CreatedModuleComesLast(table, cursoId, titulo, descripcion, newId);
    var t := table + [row];
    forall i, j | 0 <= i < j < |t| && t[i].cursoId == t[j].cursoId
      ensures t[i].orden != t[j].orden
    {
      if j == |table| {
        assert t[i] == table[i] && t[j] == row;
      }
    }
  }

  /**
   * A lookup that fails, or a second create that read the same maximum
   * before the first one was inserted, gives the new module a position its
   * course already uses.
   */
  lemma UnansweredLookupRepeatsOrden(cursoId: string, titulo: string, descripcion: string, newId: int)
    ensures var table := [ModuleRow(newId - 1, cursoId, titulo, descripcion, 1, true)];
            var r := CreateCourseModule(None, cursoId, titulo, descripcion, newId, None);
            && MaxOrden(table, InCourse(cursoId), ModuleOrden) == Some(1)
            && r.Ok? && r.value.orden == table[0].orden
  {
    var table := [ModuleRow(newId - 1, cursoId, titulo, descripcion, 1, true)];
    assert InCourse(cursoId)(table[0]);
  }

  /**
   * `createFileContent(moduloId, tipo, ...)` for a "pdf" or "video" item
   * whose file was uploaded to `url`; `maxOrden` is what the lookup of the
   * module's last item returned, as for `CreateCourseModule`.
   */
  function CreateFileContent(maxOrden: Option<int>, moduloId: int, tipo: string, titulo: string, descripcion: string,
                             url: string, archivoNombre: string, archivoSize: int,
                             newId: int, insertError: Option<ApiError>): (r: Result<ContentRow>)
    ensures r.Thrown? <==> insertError.Some?
    ensures insertError.Some? ==> r.message == "Error al crear contenido: " + insertError.value.message
    ensures r.Ok? ==> r.value.moduloId == moduloId && r.value.tipo == tipo && r.value.visible && r.value.id == newId
    ensures r.Ok? ==> r.value.titulo == titulo && r.value.descripcion == descripcion
    ensures r.Ok? ==> r.value.url == Some(url) && r.value.archivoNombre == Some(archivoNombre)
                      && r.value.archivoSize == Some(archivoSize)
    ensures r.Ok? && maxOrden.None? ==> r.value.orden == 1
    ensures r.Ok? && maxOrden.Some? ==> r.value.orden == maxOrden.value + 1
  {
    var row := ContentRow(newId, moduloId, tipo, titulo, descripcion, Some(url), Some(archivoNombre), Some(archivoSize),
                          NextOrden(maxOrden), true);
    if insertError.Some? then Thrown("Error al crear contenido: " + insertError.value.message)
    else Ok(row)
  }

  /** `createLinkOrTextContent(moduloId, tipo, titulo, descripcion, url)` for a "link" or "texto" item. */
  function CreateLinkOrTextContent(maxOrden: Option<int>, moduloId: int, tipo: string, titulo: string,
                                   descripcion: string, url: Option<string>,
                                   newId: int, insertError: Option<ApiError>): (r: Result<ContentRow>)
    ensures r.Thrown? <==> insertError.Some?
    ensures insertError.Some? ==> r.message == "Error al crear contenido: " + insertError.value.message
    ensures r.Ok? ==> r.value.moduloId == moduloId && r.value.tipo == tipo && r.value.visible && r.value.id == newId
    ensures r.Ok? ==> r.value.titulo == titulo && r.value.descripcion == descripcion
    ensures r.Ok? ==> (r.value.url.None? <==> !Truthy(url))
    ensures r.Ok? && Truthy(url) ==> r.value.url == url
    ensures r.Ok? ==> r.value.archivoNombre.None? && r.value.archivoSize.None?
    ensures r.Ok? && maxOrden.None? ==> r.value.orden == 1
    ensures r.Ok? && maxOrden.Some? ==> r.value.orden == maxOrden.value + 1
  {
    var stored := if Truthy(url) then url else None;
    var row := ContentRow(newId, moduloId, tipo, titulo, descripcion, stored, None, None, NextOrden(maxOrden), true);
    if insertError.Some? then Thrown("Error al crear contenido: " + insertError.value.message)
    else Ok(row)
  }

  /**
   * When the lookup answers from the content table, a created item of
   * either kind comes after every item of its module, and is the first one
   * in a module without items.
   */
  lemma CreatedContentComesLast(table: seq<ContentRow>, moduloId: int, tipo: string, titulo: string, descripcion: string,
                                fileUrl: string, archivoNombre: string, archivoSize: int, linkUrl: Option<string>,
                                newId: int)
    ensures var max := MaxOrden(table, InModule(moduloId), ContentOrden);
            var f := CreateFileContent(max, moduloId, tipo, titulo, descripcion, fileUrl, archivoNombre, archivoSize,
                                       newId, None);
            var l := CreateLinkOrTextContent(max, moduloId, tipo, titulo, descripcion, linkUrl, newId, None);
            && f.Ok? && l.Ok?
            && (forall i :: 0 <= i < |table| && table[i].moduloId == moduloId ==>
                  table[i].orden < f.value.orden && table[i].orden < l.value.orden)
            && ((forall i :: 0 <= i < |table| ==> table[i].moduloId != moduloId) ==> f.value.orden == l.value.orden == 1)
  {
    var max := MaxOrden(table, InModule(moduloId), ContentOrden);
    assert forall i :: 0 <= i < |table| ==> (InModule(moduloId)(table[i]) <==> table[i].moduloId == moduloId);
    if max.Some? {
      assert forall i :: 0 <= i < |table| && table[i].moduloId == moduloId ==> table[i].orden <= max.value;
    }
  }

  /** The fields `updateCourseModule` may change; an absent field is left as it is. */
  datatype ModuleUpdate = ModuleUpdate(titulo: Option<string>, descripcion: Option<string>, visible: Option<bool>)

  /** One row after `update(updates)`. */
  function Patched(m: ModuleRow, u: ModuleUpdate): (r: ModuleRow)
    ensures r.id == m.id && r.cursoId == m.cursoId && r.orden == m.orden
    ensures r.titulo == (if u.titulo.Some? then u.titulo.value else m.titulo)
    ensures r.descripcion == (if u.descripcion.Some? then u.descripcion.value else m.descripcion)
    ensures r.visible == (if u.visible.Some? then u.visible.value else m.visible)
  {
    ModuleRow(m.id, m.cursoId,
              if u.titulo.Some? then u.titulo.value else m.titulo,
              if u.descripcion.Some? then u.descripcion.value else m.descripcion,
              m.orden,
              if u.visible.Some? then u.visible.value else m.visible)
  }

  /** The outcome of a write and the table it leaves. */
  datatype Written<T> = Written(outcome: Outcome, table: seq<T>)

  /** `updateCourseModule(moduloId, updates)` */
  function UpdateCourseModule(table: seq<ModuleRow>, moduloId: int, u: ModuleUpdate, error: Option<ApiError>)
    : (w: Written<ModuleRow>)
    ensures w.outcome.Raised? <==> error.Some?
    ensures error.Some? ==> w == Written(Raised("Error al actualizar módulo: " + error.value.message), table)
    ensures |w.table| == |table|
    ensures error.None? ==> forall i :: 0 <= i < |table| ==>
              w.table[i] == if table[i].id == moduloId then Patched(table[i], u) else table[i]
  {
    if error.Some? then Written(Raised("Error al actualizar módulo: " + error.value.message), table)
    else Written(Done, seq(|table|, i requires 0 <= i < |table| =>
                             if table[i].id == moduloId then Patched(table[i], u) else table[i]))
  }

  /** `deleteCourseModule(moduloId)` */
  function DeleteCourseModule(table: seq<ModuleRow>, moduloId: int, error: Option<ApiError>): (w: Written<ModuleRow>)
    ensures w.outcome.Raised? <==> error.Some?
    ensures error.Some? ==> w == Written(Raised("Error al eliminar módulo: " + error.value.message), table)
    ensures error.None? ==> forall m :: m in w.table <==> m in table && m.id != moduloId
  {
    if error.Some? then Written(Raised("Error al eliminar módulo: " + error.value.message), table)
    else
      var keep := (m: ModuleRow) => m.id != moduloId;
      Seqs.FilterMembership(table, keep);
      Written(Done, Seqs.Filter(table, keep))
  }

  /** `deleteModuleContent(contenidoId)` */
  function DeleteModuleContent(table: seq<ContentRow>, contenidoId: int, error: Option<ApiError>): (w: Written<ContentRow>)
    ensures w.outcome.Raised? <==> error.Some?
    ensures error.Some? ==> w == Written(Raised("Error al eliminar contenido: " + error.value.message), table)
    ensures error.None? ==> forall c :: c in w.table <==> c in table && c.id != contenidoId
  {
    if error.Some? then Written(Raised("Error al eliminar contenido: " + error.value.message), table)
    else
      var keep := (c: ContentRow) => c.id != contenidoId;
      Seqs.FilterMembership(table, keep);
      Written(Done, Seqs.Filter(table, keep))
  }

  /** `toggleContentVisibility(contenidoId, visible)` */
  function ToggleContentVisibility(table: seq<ContentRow>, contenidoId: int, visible: bool, error: Option<ApiError>)
    : (w: Written<ContentRow>)
    ensures w.outcome.Raised? <==> error.Some?
    ensures error.Some? ==> w == Written(Raised("Error al actualizar visibilidad: " + error.value.message), table)
    ensures |w.table| == |table|
    ensures error.None? ==> forall i :: 0 <= i < |table| ==>
              w.table[i] == if table[i].id == contenidoId then table[i].(visible := visible) else table[i]
  {
    if error.Some? then Written(Raised("Error al actualizar visibilidad: " + error.value.message), table)
    else Written(Done, seq(|table|, i requires 0 <= i < |table| =>
                             if table[i].id == contenidoId then table[i].(visible := visible) else table[i]))
  }

  /** `file.name.split(".").pop()`: the text after the last `.`, or the whole name when it has none. */
  function FileExt(name: string): (ext: string)
    ensures '.' !in ext
    ensures |ext| <= |name| && name[|name| - |ext|..] == ext
    ensures |ext| < |name| ==> name[|name| - |ext| - 1] == '.'
    ensures '.' !in name ==> ext == name
  {
    var parts := Text.Split(name, '.');
    Text.SplitLastPart(name, '.');
    parts[|parts| - 1]
  }

  /** Where `uploadFile` stores a file and what it reports. */
  datatype Upload = Upload(path: string, outcome: Outcome)

  /**
   * `uploadFile(cursoId, moduloId, file)`: `stamp` and `suffix` stand for
   * `Date.now()` and the random text, `uploadError` for the storage error.
   */
  function UploadFile(cursoId: string, moduloId: nat, name: string, stamp: string, suffix: string,
                      uploadError: Option<ApiError>): (u: Upload)
    ensures u.outcome.Raised? <==> uploadError.Some?
    ensures uploadError.Some? ==> u.outcome.message == "Error al subir archivo: " + uploadError.value.message
  {
    var fileName := stamp + "_" + suffix + "." + FileExt(name);
    var path := Text.Join([cursoId, Text.ShowNat(moduloId), fileName], '/');
    var outcome := if uploadError.Some? then Raised("Error al subir archivo: " + uploadError.value.message) else Done;
    Upload(path, outcome)
  }

  /** The storage path has three segments, the last ending in the file's extension, as long as neither id nor the generated name holds a `/`. */
  lemma UploadPathSegments(cursoId: string, moduloId: nat, name: string, stamp: string, suffix: string,
                           uploadError: Option<ApiError>)
    requires '/' !in cursoId && '/' !in stamp + "_" + suffix + "." + FileExt(name)
    ensures Text.Split(UploadFile(cursoId, moduloId, name, stamp, suffix, uploadError).path, '/')
            == [cursoId, Text.ShowNat(moduloId), stamp + "_" + suffix + "." + FileExt(name)]
  {
    var parts := [cursoId, Text.ShowNat(moduloId), stamp + "_" + suffix + "." + FileExt(name)];
    Text.ShowNatHasNoSlash(moduloId);
    Text.SplitJoin(parts, '/');
  }
}
