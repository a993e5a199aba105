/**
 * The sign-in rules of src/services/authService.ts. Each backend call's
 * reply is a parameter; each function also reports which later backend
 * call it went on to make, so that "no lookup" and "no insert" on an early
 * exit are part of the result.
 */
module AuthService {
  import opened Common
  import Text

  /** The value `getCurrentSessionWithRole` resolves to. */
  datatype SessionInfo = SessionInfo(isAuthenticated: bool, role: Option<string>)

  /** A `perfiles` row as selected by `.select("rol")`; `rol` may be null. */
  datatype RolRow = RolRow(rol: Option<string>)

  /** The result of a service call together with whether it looked up the profile. */
  datatype Resolved<T> = Resolved(result: T, profileQueried: bool)

  /**
   * `getCurrentSessionWithRole()`: `sessionUser` is the session's user id,
   * `perfil` the reply of the `.single()` profile lookup.
   */
  function GetCurrentSessionWithRole(sessionUser: Option<string>, perfil: Reply<RolRow>): (r: Resolved<SessionInfo>)
    ensures sessionUser.None? ==> r == Resolved(SessionInfo(false, None), false)
    ensures sessionUser.Some? ==> r.profileQueried && r.result.isAuthenticated
    ensures r.result.role.Some? <==>
              sessionUser.Some? && perfil.error.None? && perfil.data.Some? && Truthy(perfil.data.value.rol)
    ensures r.result.role.Some? ==> r.result.role == perfil.data.value.rol
    ensures !r.result.isAuthenticated ==> r.result.role.None?
  {
    if sessionUser.None? then Resolved(SessionInfo(false, None), false)
    else if perfil.error.Some? || perfil.data.None? || !Truthy(perfil.data.value.rol) then
      Resolved(SessionInfo(true, None), true)
    else Resolved(SessionInfo(true, perfil.data.value.rol), true)
  }

  /** `ensureRecoverySession()` */
  function EnsureRecoverySession(sessionUser: Option<string>): (r: Outcome)
    ensures r.Raised? <==> sessionUser.None?
    ensures r.Raised? ==> r.message == "Sesión de recuperación no válida"
  {
    if sessionUser.None? then Raised("Sesión de recuperación no válida") else Done
  }

  /** Whether the listener registered by `onAuthRecovery` runs its callback for `event`. */
  function OnAuthRecovery(event: string): (invoked: bool)
    ensures invoked <==> event == "PASSWORD_RECOVERY"
  {
    event == "PASSWORD_RECOVERY"
  }

  /** `updatePassword(newPassword)`, given the error of `updateUser`. */
  function UpdatePassword(updateError: Option<ApiError>): (r: Outcome)
    ensures r.Done? <==> updateError.None?
    ensures r.Raised? ==> r.message == "Error al actualizar contraseña: " + updateError.value.message
  {
    match updateError
    case None => Done
    case Some(e) => Raised("Error al actualizar contraseña: " + e.message)
  }

  /**
   * `loginWithEmailPassword(email, password)`: `authError` is the sign-in
   * error, `perfil` the reply of the profile lookup. The role is resolved to
   * as stored, possibly null or empty.
   */
  function LoginWithEmailPassword(authError: Option<ApiError>, perfil: Reply<RolRow>): (r: Resolved<Result<Option<string>>>)
    ensures authError.Some? ==> r == Resolved(Thrown("Correo o contraseña incorrectos."), false)
    ensures authError.None? ==> r.profileQueried
    ensures authError.None? && (perfil.error.Some? || perfil.data.None?) ==>
              r.result == Thrown("No se pudo obtener el perfil del usuario.")
    ensures r.result.Ok? <==> authError.None? && perfil.error.None? && perfil.data.Some?
    ensures r.result.Ok? ==> r.result.value == perfil.data.value.rol
  {
    if authError.Some? then Resolved(Thrown("Correo o contraseña incorrectos."), false)
    else if perfil.error.Some? || perfil.data.None? then
      Resolved(Thrown("No se pudo obtener el perfil del usuario."), true)
    else Resolved(Ok(perfil.data.value.rol), true)
  }

  /** The registration payload. */
  datatype RegisterPayload = RegisterPayload(
    email: string, password: string, nombreCompleto: string, intereses: seq<string>, carrera: string)

  /** The row `signUpWithProfile` inserts into `perfiles`. */
  datatype PerfilInsert = PerfilInsert(
    id: string, nombre: string, rol: string, intereses: seq<string>, carrera: string)

  /** The outcome of `signUpWithProfile`: the new user id or the error, and the profile row it sent to the insert, if it got that far (whether or not the insert succeeded). */
  datatype SignUpOutcome = SignUpOutcome(result: Result<string>, insertSent: Option<PerfilInsert>)

  /**
   * `signUpWithProfile(payload)`: `signUpError`/`newUser` is the reply of
   * `auth.signUp`, `insertError` the error of the profile insert.
   */
  function SignUpWithProfile(payload: RegisterPayload, signUpError: Option<ApiError>, newUser: Option<string>,
                             insertError: Option<ApiError>): (r: SignUpOutcome)
    ensures signUpError.Some? || newUser.None? ==> r.insertSent.None? && r.result.Thrown?
    ensures signUpError.Some? ==>
              r.result.message == "Error al registrar usuario: " + signUpError.value.message
    ensures signUpError.None? && newUser.None? ==> r.result.message == "Error al registrar usuario: "
    ensures r.insertSent.Some? <==> signUpError.None? && newUser.Some?
    ensures r.insertSent.Some? ==>
              && r.insertSent.value.id == newUser.value
              && r.insertSent.value.rol == "estudiante"
              && r.insertSent.value.nombre == payload.nombreCompleto
              && r.insertSent.value.intereses == payload.intereses
              && r.insertSent.value.carrera == payload.carrera
    ensures r.result.Ok? <==> signUpError.None? && newUser.Some? && insertError.None?
    ensures r.result.Ok? ==> r.result.value == newUser.value
    ensures r.insertSent.Some? && insertError.Some? ==>
              r.result == Thrown("Error al guardar perfil: " + insertError.value.message)
  {
    if signUpError.Some? || newUser.None? then
      var detail := if signUpError.Some? then signUpError.value.message else "";
      SignUpOutcome(Thrown("Error al registrar usuario: " + detail), None)
    else
      var row := PerfilInsert(newUser.value, payload.nombreCompleto, "estudiante", payload.intereses, payload.carrera);
      if insertError.Some? then
        SignUpOutcome(Thrown("Error al guardar perfil: " + insertError.value.message), Some(row))
      else SignUpOutcome(Ok(newUser.value), Some(row))
  }

  /** The two e-mail addresses are the same once lower-cased. */
  predicate SameEmail(a: string, b: string)
  {
    Text.ToLower(a) == Text.ToLower(b)
  }

  /** The outcome of `updateAuthEmailIfChanged` and the address it asked the backend to set, if any. */
  datatype EmailUpdate = EmailUpdate(outcome: Outcome, sent: Option<string>)

  /**
   * `updateAuthEmailIfChanged(newEmail)`: `current` is the signed-in user's
   * e-mail, `updateError` the error of `updateUser`.
   */
  function UpdateAuthEmailIfChanged(current: Option<string>, newEmail: string, updateError: Option<ApiError>): (r: EmailUpdate)
    ensures r.sent.None? <==> !Truthy(current) || SameEmail(current.value, newEmail)
    ensures r.sent.Some? ==> r.sent.value == newEmail
    ensures r.sent.None? ==> r.outcome == Done
    ensures r.outcome.Raised? <==> r.sent.Some? && updateError.Some?
    ensures r.outcome.Raised? ==> r.outcome.message == updateError.value.message
  {
    if !Truthy(current) || SameEmail(current.value, newEmail) then EmailUpdate(Done, None)
    else
      match updateError
      case None => EmailUpdate(Done, Some(newEmail))
      case Some(e) => EmailUpdate(Raised(e.message), Some(newEmail))
  }

  /** Changing only the letter case of the address never triggers an update. */
  lemma {:induction false} CaseOnlyChangeSendsNothing(current: string, newEmail: string, updateError: Option<ApiError>)
    requires |current| == |newEmail|
    requires forall i :: 0 <= i < |current| ==> Text.LowerChar(current[i]) == Text.LowerChar(newEmail[i])
    ensures UpdateAuthEmailIfChanged(Some(current), newEmail, updateError) == EmailUpdate(Done, None)
  {
    assert Text.ToLower(current) == Text.ToLower(newEmail);
  }
}
