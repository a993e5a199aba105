/**
 * The module list of one course as a student sees it
 * (src/components/StudentProfile/Cursos/StudentCourseModules.tsx): the
 * list is loaded only for an enrolled student; anyone else gets an error
 * toast and is sent back to the course list after a delay.
 */
module StudentCourseModules {
  import opened Common
  import Text
  import Tables

  /** The screen's state cells; `redirect` is the navigation scheduled with `setTimeout`, if any. */
  class ModulesScreen {
    var modules: seq<Tables.ModuleRow>
    var loading: bool
    var toast: Option<Toast>
    var redirect: Option<string>

    constructor ()
      ensures modules == [] && loading && toast == None && redirect == None
    {
      modules := [];
      loading := true;
      toast := None;
      redirect := None;
    }

    /**
     * `loadModules()`: `cursoId` is the route parameter, `enrolled` what
     * `isEnrolledInCourse` resolved to, and `fetched` the outcome of
     * `getStudentCourseModules`.
     */
    method LoadModules(cursoId: Option<string>, enrolled: bool, fetched: Result<seq<Tables.ModuleRow>>)
      modifies this
      ensures cursoId.None? ==>
                modules == old(modules) && loading == old(loading) && toast == old(toast) && redirect == old(redirect)
      ensures cursoId.Some? ==> !loading
      ensures cursoId.Some? && !enrolled ==>
                && modules == old(modules)
                && toast == Some(Toast(ErrorToast, "No estás matriculado en este curso"))
                && redirect == Some("/student/courses")
      ensures cursoId.Some? && enrolled && fetched.Ok? ==>
                modules == fetched.value && toast == old(toast) && redirect == old(redirect)
      ensures cursoId.Some? && enrolled && fetched.Thrown? ==>
                modules == old(modules) && toast == Some(Toast(ErrorToast, "Error al cargar módulos"))
                && redirect == old(redirect)
    {
      if cursoId.None? {
        return;
      }
      loading := true;
      if !enrolled {
        toast := Some(Toast(ErrorToast, "No estás matriculado en este curso"));
        redirect := Some("/student/courses");
        loading := false;
        return;
      }
      match fetched {
        case Ok(data) =>
          modules := data;
        case Thrown(_) =>
          toast := Some(Toast(ErrorToast, "Error al cargar módulos"));
      }
      loading := false;
    }
  }

  /**
   * The path `handleViewContent(moduleId)` navigates to,
   * `/student/courses/${cursoId}/modules/${moduleId}`, as the `/`-joined
   * segments; the router reads the course and module ids back from it as
   * long as the course id holds no `/`.
   */
  function ContentPath(cursoId: string, moduleId: nat): (path: string)
    ensures '/' !in cursoId ==>
              Text.Split(path, '/') == ["", "student", "courses", cursoId, "modules", Text.ShowNat(moduleId)]
  {
    var parts := ["", "student", "courses", cursoId, "modules", Text.ShowNat(moduleId)];
    assert '/' !in cursoId ==> forall i :: 0 <= i < |parts| ==> '/' !in parts[i] by {
      Text.ShowNatHasNoSlash(moduleId);
    }
    assert '/' !in cursoId ==> Text.Split(Text.Join(parts, '/'), '/') == parts by {
      if '/' !in cursoId {
        Text.SplitJoin(parts, '/');
      }
    }
    Text.Join(parts, '/')
  }
}
