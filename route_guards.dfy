/**
 * The two route guards: `RoleProtectedRoute` (src/context/RoleProtectedRoute.tsx),
 * which compares one required role by equality, and `ProtectedRoute`
 * (src/components/ProtectedRoute.tsx), which only asks whether someone is
 * signed in. Both read the session store's current value.
 */
module RouteGuards {
  import opened Common
  import opened AuthContext

  /** What a guard renders. */
  datatype Decision = ShowChildren | RedirectLogin | RedirectUnauthorized

  /** The path of a `<Navigate>`, or `None` when the children are shown. */
  function RedirectPath(d: Decision): Option<string>
  {
    match d
    case ShowChildren => None
    case RedirectLogin => Some("/login")
    case RedirectUnauthorized => Some("/unauthorized")
  }

  /** `RoleProtectedRoute({ role })` evaluated against the context value `s`. */
  function RoleProtectedRoute(s: AuthState, role: string): (d: Decision)
    ensures d == RedirectLogin <==> !s.isAuthenticated
    ensures d == RedirectUnauthorized <==> s.isAuthenticated && s.role != Some(role)
    ensures d == ShowChildren <==> s.isAuthenticated && s.role == Some(role)
  {
    if !s.isAuthenticated then RedirectLogin
    else if s.role != Some(role) then RedirectUnauthorized
    else ShowChildren
  }

  /** `ProtectedRoute` evaluated against the context value `s`. */
  function ProtectedRoute(s: AuthState): (d: Decision)
    ensures d == ShowChildren <==> s.isAuthenticated
    ensures d == RedirectLogin <==> !s.isAuthenticated
    ensures d != RedirectUnauthorized
  {
    if s.isAuthenticated then ShowChildren else RedirectLogin
  }

  /**
   * With the corrected `checkSession()`, a completed logout stays in force
   * whatever profile lookups answer afterwards: every guarded route still
   * redirects to /login.
   */
  lemma LogoutSurvivesLateLookups(s: AuthState, later: seq<Step>, role: string)
    requires forall i :: 0 <= i < |later| ==> later[i].ProfileSeen?
    ensures var t := RunSteps(s, [Whole(Logout(false))] + later, true);
            t == AuthState(false, None) && RoleProtectedRoute(t, role) == RedirectLogin && ProtectedRoute(t) == RedirectLogin
  {
    var steps := [Whole(Logout(false))] + later;
    assert steps[1..] == later;
    LateProfilesKeepSignedOut(AfterLogout(s, false), later);
  }

  /** A user with no role is refused every role-gated route, even when signed in. */
  lemma NoRoleIsUnauthorized(role: string)
    ensures RoleProtectedRoute(AuthState(true, None), role) == RedirectUnauthorized
  {
  }

  /** `ProtectedRoute` never consults the role. */
  lemma ProtectedRouteIgnoresRole(s: AuthState, otherRole: Option<string>)
    ensures ProtectedRoute(s) == ProtectedRoute(s.(role := otherRole))
  {
  }

  /** Whatever a user held before, a completed logout sends every guarded route to /login. */
  lemma LogoutRedirectsToLogin(s: AuthState, role: string)
    ensures RoleProtectedRoute(AfterLogout(s, false), role) == RedirectLogin
    ensures ProtectedRoute(AfterLogout(s, false)) == RedirectLogin
  {
  }

  /** After `login(rol)` exactly the routes requiring `rol` open. */
  lemma LoginOpensOwnRoleOnly(s: AuthState, rol: string, role: string)
    ensures RoleProtectedRoute(AfterLogin(s, rol), role) == ShowChildren <==> rol == role
  {
  }

  /** Wherever a role-gated route shows its children, the plain guard does too. */
  lemma RoleGateIsStricter(s: AuthState, role: string)
    ensures RoleProtectedRoute(s, role) == ShowChildren ==> ProtectedRoute(s) == ShowChildren
  {
  }
}
