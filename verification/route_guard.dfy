/** The route guard (`ProtectedRoute` of
    src/components/layout/ProtectedRoute.tsx) as a pure decision over the
    session flags and the requested location. The guard returns its
    decision; performing the navigation is the caller's step. */
module RouteGuard {
  import opened Types
  import AuthContext

  /** The parts of a router location the model keeps. */
  datatype Location = Location(pathname: string, search: string, hash: string)

  /** The navigation state a redirect attaches: `{ from: location }`. */
  datatype RouteState = RouteState(from: Option<Location>)

  /** A navigation request: `navigate(to, { replace })`. */
  datatype Navigation = Navigation(to: string, replace: bool)

  datatype Decision =
    | ShowLoading
    | Redirect(to: string, state: RouteState, replace: bool)
    | RenderChildren

  /** The login entry point. */
  const LoginPath: string := "/login"

  /** Loading wins over everything; otherwise an unauthenticated visitor
      is sent to the login page with the requested location recorded,
      replacing the history entry; an authenticated one sees the
      protected content. */
  function Decide(isLoading: bool, isAuthenticated: bool, location: Location): (d: Decision)
    ensures isLoading <==> d.ShowLoading?
    ensures !isLoading && !isAuthenticated <==> d.Redirect?
    ensures !isLoading && isAuthenticated <==> d.RenderChildren?
    ensures d.Redirect? ==> d.to == LoginPath && d.replace && d.state.from == Some(location)
  {
    if isLoading then ShowLoading
    else if !isAuthenticated then Redirect(LoginPath, RouteState(Some(location)), true)
    else RenderChildren
  }

  /** The guard as the application mounts it: fed from the provider's
      context value. It only reads that value; the state is not an output. */
  function Guard(s: AuthContext.AuthState, location: Location): (d: Decision)
    ensures s.isLoading ==> d.ShowLoading?
    ensures !s.isLoading && s.user.None? ==> d == Redirect(LoginPath, RouteState(Some(location)), true)
    ensures !s.isLoading && s.user.Some? ==> d.RenderChildren?
  {
    var v := AuthContext.Value(s);
    Decide(v.isLoading, v.isAuthenticated, location)
  }

  /** The decision depends on the session only through its two flags:
      two sessions with the same flags are treated alike, whichever
      user they hold. */
  lemma GuardReadsOnlyFlags(s1: AuthContext.AuthState, s2: AuthContext.AuthState, location: Location)
    requires s1.isLoading == s2.isLoading
    requires AuthContext.IsAuthenticated(s1) == AuthContext.IsAuthenticated(s2)
    ensures Guard(s1, location) == Guard(s2, location)
  {
  }

  /** While the provider is still bootstrapping, the guard never
      redirects, whatever the store holds. */
  lemma NoRedirectBeforeBootstrap(location: Location)
    ensures Guard(AuthContext.Initial(), location) == ShowLoading
  {
  }
}
