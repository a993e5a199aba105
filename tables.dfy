/**
 * Rows of the backend's per-course tables, shared by the student and the
 * teacher services: `modulos_curso` (the modules of a course) and
 * `contenido_modulo` (the items of a module).
 */
module Tables {
  import opened Common

  /** A `modulos_curso` row; `curso_id` is compared with the route's course id as text. */
  datatype ModuleRow = ModuleRow(id: int, cursoId: string, titulo: string, descripcion: string, orden: int, visible: bool)

  /** A `contenido_modulo` row; `tipo` is one of "pdf", "video", "link" and "texto". */
  datatype ContentRow = ContentRow(
    id: int, moduloId: int, tipo: string, titulo: string, descripcion: string, url: Option<string>,
    archivoNombre: Option<string>, archivoSize: Option<int>, orden: int, visible: bool)

  function ModuleOrden(m: ModuleRow): int { m.orden }

  function ContentOrden(c: ContentRow): int { c.orden }
}
