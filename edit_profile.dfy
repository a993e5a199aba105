/**
 * The student's profile editor (src/components/StudentProfile/EditProfile.tsx):
 * loading the profile with its fallbacks, the duplicate-free interest chips,
 * and saving, which validates the name and e-mail before sending anything
 * and then updates the sign-in address only when it really changed.
 */
module EditProfile {
  import opened Common
  import Text
  import Seqs
  import Interests
  import AuthService

  /** A `perfiles` row as the editor selects it; `intereses` is `None` when the column is not an array. */
  datatype Perfil = Perfil(id: string, nombre: Option<string>, email: Option<string>, bio: Option<string>,
                           rol: Option<string>, intereses: Option<seq<string>>)

  /** The signed-in user as `auth.getUser()` reports it. */
  datatype AuthUser = AuthUser(id: string, email: Option<string>)

  /** A character of the class `[^\s@]`. */
  predicate Plain(c: char)
  {
    !Text.IsSpace(c) && c != '@'
  }

  predicate AllPlain(s: string, lo: int, hi: int)
    requires 0 <= lo <= hi <= |s|
  {
    forall k :: lo <= k < hi ==> Plain(s[k])
  }

  /**
   * `/^[^\s@]+@[^\s@]+\.[^\s@]+$/.test(s)`: `s` splits as `a@b.c` with
   * `a`, `b` and `c` non-empty and free of white space and `@`.
   */
  predicate EmailPattern(s: string)
  {
    exists i, j :: 0 < i && i + 1 < j < |s| - 1 && s[i] == '@' && s[j] == '.'
                   && AllPlain(s, 0, i) && AllPlain(s, i + 1, j) && AllPlain(s, j + 1, |s|)
  }

  /** An address the pattern accepts has no white space and exactly one `@`, with a `.` somewhere after it. */
  lemma EmailPatternShape(s: string)
    requires EmailPattern(s)
    ensures forall k :: 0 <= k < |s| ==> !Text.IsSpace(s[k])
    ensures exists i :: 0 < i < |s| && s[i] == '@' && (forall k :: 0 <= k < |s| && s[k] == '@' ==> k == i)
                        && '.' in s[i + 1..]
  {
    var i, j :| 0 < i && i + 1 < j < |s| - 1 && s[i] == '@' && s[j] == '.'
                && AllPlain(s, 0, i) && AllPlain(s, i + 1, j) && AllPlain(s, j + 1, |s|);
    forall k | 0 <= k < |s|
      ensures !Text.IsSpace(s[k]) && (s[k] == '@' ==> k == i)
    {
      if k < i {
        assert Plain(s[k]);
      } else if i < k < j {
        assert Plain(s[k]);
      } else if j < k {
        assert Plain(s[k]);
      }
    }
    assert s[i + 1..][j - i - 1] == '.';
  }

  /** Without an `@`, or with white space, an address is rejected. */
  lemma EmailPatternRejects(s: string)
    requires '@' !in s || exists k :: 0 <= k < |s| && Text.IsSpace(s[k])
    ensures !EmailPattern(s)
  {
    if EmailPattern(s) {
      EmailPatternShape(s);
    }
  }

  /** The warning `handleGuardar` stops at, if any: the name is checked before the address. */
  function SaveWarning(nombre: string, email: string): (w: Option<string>)
    ensures w == None <==> Text.Trim(nombre) != "" && EmailPattern(Text.Trim(email))
    ensures Text.Trim(nombre) == "" ==> w == Some("El nombre es obligatorio")
    ensures Text.Trim(nombre) != "" && !EmailPattern(Text.Trim(email)) ==> w == Some("Correo electrónico no válido")
  {
    if Text.Trim(nombre) == "" then Some("El nombre es obligatorio")
    else if !EmailPattern(Text.Trim(email)) then Some("Correo electrónico no válido")
    else None
  }

  /** The row update `handleGuardar` sends. */
  datatype ProfileUpdate = ProfileUpdate(nombre: string, email: string, bio: Option<string>, intereses: seq<string>)

  /** The update built from the form fields: trimmed name and address, and the trimmed bio or `null`. */
  function Payload(nombre: string, email: string, bio: string, intereses: seq<string>): (u: ProfileUpdate)
    ensures u.bio.None? <==> Text.Trim(bio) == ""
    ensures u.bio.Some? ==> u.bio.value == Text.Trim(bio)
    ensures u.intereses == intereses
  {
    ProfileUpdate(Text.Trim(nombre), Text.Trim(email), if Text.Trim(bio) == "" then None else Some(Text.Trim(bio)),
                  intereses)
  }

  /** What is sent after the checks passed: a non-empty name and an address of the accepted shape, without surrounding white space. */
  lemma SentPayloadIsClean(nombre: string, email: string, bio: string, intereses: seq<string>)
    requires SaveWarning(nombre, email).None?
    ensures var u := Payload(nombre, email, bio, intereses);
            && u.nombre != "" && !Text.IsSpace(u.nombre[0]) && !Text.IsSpace(u.nombre[|u.nombre| - 1])
            && EmailPattern(u.email)
            && (u.bio.Some? ==> u.bio.value != "" && !Text.IsSpace(u.bio.value[0]))
  {
  }

  /** `p.email || auth.user.email || ""` */
  function LoadedEmail(p: Perfil, authEmail: Option<string>): (e: string)
    ensures Truthy(p.email) ==> e == p.email.value
    ensures !Truthy(p.email) ==> e == OrElse(authEmail, "")
  {
    OrElse(p.email, OrElse(authEmail, ""))
  }

  /** `Array.isArray(p.intereses) ? p.intereses : []` */
  function LoadedIntereses(p: Perfil): (xs: seq<string>)
    ensures p.intereses.None? ==> xs == []
    ensures p.intereses.Some? ==> xs == p.intereses.value
  {
    match p.intereses
    case Some(xs) => xs
    case None => []
  }

  /**
   * The effect of one `handleGuardar()`: the row update sent, the address
   * change asked for, whether `cargarPerfil` runs next, and the new
   * `toast` and `guardando` cells.
   */
  datatype SaveStep = SaveStep(sent: Option<ProfileUpdate>, emailSent: Option<string>, reload: bool,
                               toast: Option<Toast>, guardando: bool)

  /**
   * `handleGuardar()` from `setGuardando(true)` to its `finally`, entered
   * once the checks passed, with the update `u`: `upError` is the error of the row update,
   * `authEmail` the signed-in address and `emailError` the error of the
   * address change to `newEmail`.
   */
  function SendStep(u: ProfileUpdate, upError: Option<ApiError>, newEmail: string, authEmail: Option<string>,
                    emailError: Option<ApiError>): SaveStep
  {
    if upError.Some? then
      SaveStep(Some(u), None, false,
               Some(Toast(ErrorToast, "No se pudo actualizar el perfil: " + OrElse(Some(upError.value.message), "Error"))),
               false)
    else
      var change := AuthService.UpdateAuthEmailIfChanged(authEmail, newEmail, emailError);
      SaveStep(Some(u), change.sent, true, Some(Toast(SuccessToast, "Perfil actualizado exitosamente")), false)
  }

  /**
   * `handleGuardar()` on the form fields, with `loaded` saying whether a
   * profile is loaded; the other parameters are those of `SendStep`.
   */
  function Save(loaded: bool, nombre: string, email: string, bio: string, intereses: seq<string>,
                toast: Option<Toast>, guardando: bool,
                upError: Option<ApiError>, authEmail: Option<string>, emailError: Option<ApiError>): SaveStep
  {
    if !loaded then SaveStep(None, None, false, toast, guardando)
    else
      var warning := SaveWarning(nombre, email);
      if warning.Some? then SaveStep(None, None, false, Some(Toast(WarningToast, warning.value)), guardando)
      else SendStep(Payload(nombre, email, bio, intereses), upError, Text.Trim(email), authEmail, emailError)
  }

  /**
   * What saving does: the update is sent only when a profile is loaded and
   * no warning applies, the address change only after the update
   * succeeded, and the toast and the busy flag follow the outcome.
   */
  lemma SaveOutcome(loaded: bool, nombre: string, email: string, bio: string, intereses: seq<string>,
                    toast: Option<Toast>, guardando: bool,
                    upError: Option<ApiError>, authEmail: Option<string>, emailError: Option<ApiError>)
    ensures var st := Save(loaded, nombre, email, bio, intereses, toast, guardando, upError, authEmail, emailError);
            && (st.sent.Some? <==> loaded && SaveWarning(nombre, email).None?)
            && (st.sent.Some? ==> st.sent.value == Payload(nombre, email, bio, intereses))
            && (st.emailSent.Some? ==> st.sent.Some? && upError.None?)
            && (st.sent.Some? && upError.None? ==>
                  st.emailSent == AuthService.UpdateAuthEmailIfChanged(authEmail, Text.Trim(email), emailError).sent)
            && (st.reload <==> st.sent.Some? && upError.None?)
    ensures var st := Save(loaded, nombre, email, bio, intereses, toast, guardando, upError, authEmail, emailError);
            && (!loaded ==> st.toast == toast)
            && (loaded && SaveWarning(nombre, email).Some? ==>
                  st.toast == Some(Toast(WarningToast, SaveWarning(nombre, email).value)))
            && (st.sent.Some? && upError.Some? ==>
                  st.toast == Some(Toast(ErrorToast, "No se pudo actualizar el perfil: " + OrElse(Some(upError.value.message), "Error"))))
            && (st.reload ==> st.toast == Some(Toast(SuccessToast, "Perfil actualizado exitosamente")))
            && (st.sent.None? ==> st.guardando == guardando)
            && (st.sent.Some? ==> !st.guardando)
  {
  }

  /** The editor's state cells. */
  class EditProfileForm {
    var perfil: Option<Perfil>
    var nombre: string
    var email: string
    var bio: string
    var intereses: seq<string>
    var inputInteres: string
    var loading: bool
    var guardando: bool
    var toast: Option<Toast>

    constructor ()
      ensures perfil == None && nombre == "" && email == "" && bio == "" && intereses == []
      ensures inputInteres == "" && loading && !guardando && toast == None
    {
      perfil := None;
      nombre := "";
      email := "";
      bio := "";
      intereses := [];
      inputInteres := "";
      loading := true;
      guardando := false;
      toast := None;
    }

    /** `cargarPerfil()`: `user` is what `auth.getUser()` returned, `reply` the profile lookup. */
    method CargarPerfil(user: Option<AuthUser>, reply: Reply<Perfil>)
      modifies this
      ensures !loading && inputInteres == old(inputInteres) && guardando == old(guardando)
      ensures user.None? ==>
                && toast == Some(Toast(ErrorToast, "Debes iniciar sesión para editar tu perfil"))
                && perfil == old(perfil) && nombre == old(nombre) && email == old(email)
                && bio == old(bio) && intereses == old(intereses)
      ensures user.Some? && reply.error.Some? ==>
                && toast == Some(Toast(ErrorToast, "Error al cargar perfil"))
                && perfil == old(perfil) && nombre == old(nombre) && email == old(email)
                && bio == old(bio) && intereses == old(intereses)
      ensures user.Some? && reply.error.None? && reply.data.None? ==>
                && toast == old(toast)
                && perfil == old(perfil) && nombre == old(nombre) && email == old(email)
                && bio == old(bio) && intereses == old(intereses)
      ensures user.Some? && reply.error.None? && reply.data.Some? ==>
                var p := reply.data.value;
                && toast == old(toast) && perfil == Some(p)
                && nombre == OrElse(p.nombre, "") && email == LoadedEmail(p, user.value.email)
                && bio == OrElse(p.bio, "") && intereses == LoadedIntereses(p)
    {
      loading := true;
      if user.None? {
        toast := Some(Toast(ErrorToast, "Debes iniciar sesión para editar tu perfil"));
        loading := false;
        return;
      }
      if reply.error.Some? {
        toast := Some(Toast(ErrorToast, "Error al cargar perfil"));
      } else if reply.data.Some? {
        var p := reply.data.value;
        perfil := Some(p);
        nombre := OrElse(p.nombre, "");
        email := LoadedEmail(p, user.value.email);
        bio := OrElse(p.bio, "");
        intereses := LoadedIntereses(p);
      }
      loading := false;
    }

    /** `handleAddInteres()` */
    method HandleAddInteres()
      modifies this
      ensures Text.Trim(old(inputInteres)) == "" ==> intereses == old(intereses) && inputInteres == old(inputInteres)
      ensures Text.Trim(old(inputInteres)) != "" ==>
                intereses == Interests.AddUnique(old(intereses), Text.Trim(old(inputInteres))) && inputInteres == ""
      ensures Seqs.NoDuplicates(old(intereses)) ==> Seqs.NoDuplicates(intereses)
      ensures perfil == old(perfil) && nombre == old(nombre) && email == old(email) && bio == old(bio)
      ensures loading == old(loading) && guardando == old(guardando) && toast == old(toast)
    {
      var v := Text.Trim(inputInteres);
      if v == "" {
        return;
      }
      if v in intereses {
        inputInteres := "";
        return;
      }
      assert Seqs.NoDuplicates(intereses) ==> Seqs.NoDuplicates(intereses + [v]) by {
        if Seqs.NoDuplicates(intereses) {
          Interests.AddKeepsNoDuplicates(intereses, v);
        }
      }
      intereses := intereses + [v];
      inputInteres := "";
    }

    /** `removeInteres(value)` */
    method RemoveInteres(value: string)
      modifies this
      ensures intereses == Seqs.RemoveAll(old(intereses), value)
      ensures perfil == old(perfil) && nombre == old(nombre) && email == old(email) && bio == old(bio)
      ensures inputInteres == old(inputInteres) && loading == old(loading) && guardando == old(guardando)
      ensures toast == old(toast)
    {
      intereses := Seqs.RemoveAll(intereses, value);
    }

    /** `handleGuardar()` from `setGuardando(true)` to its `finally`, once the update `u` was sent, as `SendStep` says. */
    method SendUpdate(u: ProfileUpdate, upError: Option<ApiError>, newEmail: string, authEmail: Option<string>,
                      emailError: Option<ApiError>)
      returns (emailSent: Option<string>, reload: bool)
      modifies this`toast, this`guardando
      ensures SaveStep(Some(u), emailSent, reload, toast, guardando)
              == SendStep(u, upError, newEmail, authEmail, emailError)
    {
      emailSent, reload := None, false;
      guardando := true;
      if upError.Some? {
        toast := Some(Toast(ErrorToast, "No se pudo actualizar el perfil: " + OrElse(Some(upError.value.message), "Error")));
      } else {
        var change := AuthService.UpdateAuthEmailIfChanged(authEmail, newEmail, emailError);
        emailSent := change.sent;
        if change.outcome.Raised? {
          toast := Some(Toast(InfoToast, "Perfil actualizado. Revisa tu correo para confirmar el cambio de email"));
        }
        toast := Some(Toast(SuccessToast, "Perfil actualizado exitosamente"));
        reload := true;
      }
      guardando := false;
    }

    /**
     * `handleGuardar()`: `upError` is the error of the row update,
     * `authEmail` the signed-in address and `emailError` the error of the
     * address change. `sent` is the row update made, `emailSent` the
     * address change asked for, and `reload` whether `cargarPerfil` runs
     * next.
     */
    method HandleGuardar(upError: Option<ApiError>, authEmail: Option<string>, emailError: Option<ApiError>)
      returns (sent: Option<ProfileUpdate>, emailSent: Option<string>, reload: bool)
      modifies this`toast, this`guardando
      ensures SaveStep(sent, emailSent, reload, toast, guardando)
              == Save(old(perfil).Some?, old(nombre), old(email), old(bio), old(intereses), old(toast), old(guardando),
                      upError, authEmail, emailError)
    {
      sent, emailSent, reload := None, None, false;
      if perfil.None? {
        return;
      }
      var warning := SaveWarning(nombre, email);
      if warning.Some? {
        toast := Some(Toast(WarningToast, warning.value));
        return;
      }
      var u := Payload(nombre, email, bio, intereses);
      sent := Some(u);
      emailSent, reload := SendUpdate(u, upError, Text.Trim(email), authEmail, emailError);
    }
  }
}
