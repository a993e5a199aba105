/**
 * The application-wide session store: whether someone is signed in and
 * with which role (`AuthProvider` in src/context/AuthContext.tsx).
 *
 * The two React state cells become the two fields of `AuthProvider`; the
 * backend's answers (the session, the profile row, whether sign-out
 * rejected) are parameters. Each transition is also given as a function on
 * `AuthState`, so that whole sequences of calls can be reasoned about.
 */
module AuthContext {
  import opened Common

  /** A snapshot of the context value `{ isAuthenticated, role }`. */
  datatype AuthState = AuthState(isAuthenticated: bool, role: Option<string>)

  /** The state before any call: `useState(false)` and `useState(null)`. */
  function Initial(): (s: AuthState)
    ensures !s.isAuthenticated && s.role == None
  {
    AuthState(false, None)
  }

  /** A role is only ever held by a signed-in user. */
  predicate RoleImpliesAuthenticated(s: AuthState)
  {
    s.role.Some? ==> s.isAuthenticated
  }

  /** `login(rol)` */
  function AfterLogin(s: AuthState, rol: string): (t: AuthState)
  {
    AuthState(true, Some(rol))
  }

  /** `logout()`: the reset happens only once `signOut` has resolved. */
  function AfterLogout(s: AuthState, signOutRejected: bool): (t: AuthState)
  {
    if signOutRejected then s else AuthState(false, None)
  }

  /**
   * `checkSession()`: `sessionUser` is the user of the current session, if
   * any; `perfil` is the profile row the lookup returned (`None` when the
   * lookup failed or found no row), holding its possibly null `rol`.
   */
  function AfterCheckSession(s: AuthState, sessionUser: Option<string>, perfil: Option<Option<string>>): (t: AuthState)
  {
    if sessionUser.None? then s
    else if perfil.Some? && Truthy(perfil.value) then AuthState(true, perfil.value)
    else AuthState(true, s.role)
  }

  /** One call made on the provider, with the backend's answers to it. */
  datatype Event =
    | Login(rol: string)
    | Logout(signOutRejected: bool)
    | CheckSession(sessionUser: Option<string>, perfil: Option<Option<string>>)

  function Apply(s: AuthState, e: Event): AuthState
  {
    match e
    case Login(rol) => AfterLogin(s, rol)
    case Logout(rejected) => AfterLogout(s, rejected)
    case CheckSession(user, perfil) => AfterCheckSession(s, user, perfil)
  }

  /** The state reached by performing `events` in order from `s`. */
  function Run(s: AuthState, events: seq<Event>): AuthState
    decreases |events|
  {
    if |events| == 0 then s else Run(Apply(s, events[0]), events[1..])
  }

  lemma LoginSetsBothFields(s: AuthState, rol: string)
    ensures AfterLogin(s, rol).isAuthenticated
    ensures AfterLogin(s, rol).role == Some(rol)
  {
  }

  lemma LogoutResets(s: AuthState, signOutRejected: bool)
    ensures signOutRejected ==> AfterLogout(s, signOutRejected) == s
    ensures !signOutRejected ==> AfterLogout(s, signOutRejected) == Initial()
  {
  }

  lemma CheckSessionOutcome(s: AuthState, sessionUser: Option<string>, perfil: Option<Option<string>>)
    ensures sessionUser.None? ==> AfterCheckSession(s, sessionUser, perfil) == s
    ensures sessionUser.Some? ==> AfterCheckSession(s, sessionUser, perfil).isAuthenticated
    ensures sessionUser.Some? && perfil.Some? && Truthy(perfil.value) ==>
              AfterCheckSession(s, sessionUser, perfil).role == perfil.value
    ensures sessionUser.Some? && !(perfil.Some? && Truthy(perfil.value)) ==>
              AfterCheckSession(s, sessionUser, perfil).role == s.role
  {
  }

  /** Every single call keeps "a role implies signed in". */
  lemma ApplyPreservesInvariant(s: AuthState, e: Event)
    requires RoleImpliesAuthenticated(s)
    ensures RoleImpliesAuthenticated(Apply(s, e))
  {
  }

  /** From the initial state, any sequence of calls keeps "a role implies signed in". */
  lemma {:induction false} RunPreservesInvariant(s: AuthState, events: seq<Event>)
    requires RoleImpliesAuthenticated(s)
    ensures RoleImpliesAuthenticated(Run(s, events))
    decreases |events|
  {
    if |events| > 0 {
      ApplyPreservesInvariant(s, events[0]);
      RunPreservesInvariant(Apply(s, events[0]), events[1..]);
    }
  }

  /** Every state reached from the initial one by a sequence of whole, non-overlapping calls holds a role only when signed in. */
  lemma ReachableStatesKeepInvariant(events: seq<Event>)
    ensures RoleImpliesAuthenticated(Run(Initial(), events))
  {
    RunPreservesInvariant(Initial(), events);
  }

  /** Checking the session twice against the same answers is the same as checking it once. */
  lemma CheckSessionIdempotent(s: AuthState, sessionUser: Option<string>, perfil: Option<Option<string>>)
    ensures AfterCheckSession(AfterCheckSession(s, sessionUser, perfil), sessionUser, perfil)
            == AfterCheckSession(s, sessionUser, perfil)
  {
  }

  /**
   * One step of the provider when `checkSession()` is split at its `await`
   * of the profile lookup, so that other calls can complete in between:
   * `SessionSeen` is the part up to the lookup, run once a session was
   * found, and `ProfileSeen` the part after it.
   */
  datatype Step =
    | Whole(e: Event)
    | SessionSeen
    | ProfileSeen(perfil: Option<Option<string>>)

  /** `if (perfil?.rol) setRole(perfil.rol)`, the part of `checkSession()` after the lookup. */
  function AfterProfileSeen(s: AuthState, perfil: Option<Option<string>>): AuthState
  {
    if perfil.Some? && Truthy(perfil.value) then s.(role := perfil.value) else s
  }

  /**
   * The same part, setting the role only while the user is still signed in,
   * so that a `logout()` completed during the lookup is neither undone nor
   * followed by a role.
   */
  function AfterProfileSeenFixed(s: AuthState, perfil: Option<Option<string>>): AuthState
  {
    if s.isAuthenticated && perfil.Some? && Truthy(perfil.value) then s.(role := perfil.value) else s
  }

  /** One step; `fixed` selects `AfterProfileSeenFixed` for the part after the lookup. */
  function ApplyStep(s: AuthState, st: Step, fixed: bool): AuthState
  {
    match st
    case Whole(e) => Apply(s, e)
    case SessionSeen => s.(isAuthenticated := true)
    case ProfileSeen(perfil) => if fixed then AfterProfileSeenFixed(s, perfil) else AfterProfileSeen(s, perfil)
  }

  /** The state reached by performing `steps` in order from `s`. */
  function RunSteps(s: AuthState, steps: seq<Step>, fixed: bool): AuthState
    decreases |steps|
  {
    if |steps| == 0 then s else RunSteps(ApplyStep(s, steps[0], fixed), steps[1..], fixed)
  }

  /** With nothing in between, the two parts make one whole `checkSession()`, in either version. */
  lemma HalvesMakeWholeCall(s: AuthState, user: string, perfil: Option<Option<string>>, fixed: bool)
    ensures ApplyStep(ApplyStep(s, SessionSeen, fixed), ProfileSeen(perfil), fixed)
            == AfterCheckSession(s, Some(user), perfil)
  {
  }

  /**
   * As written: a `logout()` that completes while the profile lookup is
   * pending is followed by `setRole`, which leaves a role without a
   * signed-in user.
   */
  lemma LogoutDuringLookupBreaksInvariant(rol: string)
    requires rol != ""
    ensures var t := RunSteps(Initial(), [SessionSeen, Whole(Logout(false)), ProfileSeen(Some(Some(rol)))], false);
            t == AuthState(false, Some(rol)) && !RoleImpliesAuthenticated(t)
  {
    var steps := [SessionSeen, Whole(Logout(false)), ProfileSeen(Some(Some(rol)))];
    var s1 := ApplyStep(Initial(), SessionSeen, false);
    var s2 := ApplyStep(s1, Whole(Logout(false)), false);
    assert steps[1..] == [Whole(Logout(false)), ProfileSeen(Some(Some(rol)))];
    assert steps[1..][1..] == [ProfileSeen(Some(Some(rol)))];
    assert RunSteps(Initial(), steps, false) == RunSteps(s2, [ProfileSeen(Some(Some(rol)))], false);
  }

  /** Corrected: with the role set only while signed in, every interleaving keeps "a role implies signed in". */
  lemma {:induction false} FixedStepsKeepInvariant(s: AuthState, steps: seq<Step>)
    requires RoleImpliesAuthenticated(s)
    ensures RoleImpliesAuthenticated(RunSteps(s, steps, true))
    decreases |steps|
  {
    if |steps| > 0 {
      var t := ApplyStep(s, steps[0], true);
      if steps[0].Whole? {
        ApplyPreservesInvariant(s, steps[0].e);
      }
      FixedStepsKeepInvariant(t, steps[1..]);
    }
  }

  /** Corrected: lookups that answer once the user is signed out change nothing. */
  lemma {:induction false} LateProfilesKeepSignedOut(s: AuthState, steps: seq<Step>)
    requires !s.isAuthenticated
    requires forall i :: 0 <= i < |steps| ==> steps[i].ProfileSeen?
    ensures RunSteps(s, steps, true) == s
    decreases |steps|
  {
    if |steps| > 0 {
      assert ApplyStep(s, steps[0], true) == s;
      LateProfilesKeepSignedOut(s, steps[1..]);
    }
  }

  /**
   * Corrected, on the interleaving that breaks the code as written: the
   * lookup answering after the `logout()` leaves the context signed out
   * with no role.
   */
  lemma FixedLookupAfterLogoutStaysSignedOut(rol: string)
    requires rol != ""
    ensures RunSteps(Initial(), [SessionSeen, Whole(Logout(false)), ProfileSeen(Some(Some(rol)))], true)
            == AuthState(false, None)
  {
    var steps := [SessionSeen, Whole(Logout(false)), ProfileSeen(Some(Some(rol)))];
    var s2 := ApplyStep(ApplyStep(Initial(), SessionSeen, true), Whole(Logout(false)), true);
    assert steps[1..] == [Whole(Logout(false)), ProfileSeen(Some(Some(rol)))];
    assert steps[1..][1..] == [ProfileSeen(Some(Some(rol)))];
    assert RunSteps(Initial(), steps, true) == RunSteps(s2, [ProfileSeen(Some(Some(rol)))], true);
  }

  /** The provider component's two state cells. */
  class AuthProvider {
    var isAuthenticated: bool
    var role: Option<string>

    function State(): AuthState
      reads this
    {
      AuthState(isAuthenticated, role)
    }

    constructor ()
      ensures State() == Initial()
    {
      isAuthenticated := false;
      role := None;
    }

    method Login(rol: string)
      modifies this
      ensures State() == AfterLogin(old(State()), rol)
    {
      isAuthenticated := true;
      role := Some(rol);
    }

    /** `signOutRejected` is whether `supabase.auth.signOut()` rejected; then `logout` rethrows. */
    method Logout(signOutRejected: bool) returns (thrown: bool)
      modifies this
      ensures thrown == signOutRejected
      ensures State() == AfterLogout(old(State()), signOutRejected)
    {
      if signOutRejected {
        return true;
      }
      isAuthenticated := false;
      role := None;
      return false;
    }

    method CheckSession(sessionUser: Option<string>, perfil: Option<Option<string>>)
      modifies this
      ensures State() == AfterCheckSession(old(State()), sessionUser, perfil)
    {
      if sessionUser.Some? {
        isAuthenticated := true;
        if perfil.Some? && Truthy(perfil.value) {
          role := perfil.value;
        }
      }
    }
  }
}
