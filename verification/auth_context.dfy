/** The session manager (`AuthProvider` of src/context/AuthContext.tsx).
    Its state is the in-memory user and the loading flag; every step that
    touches persistence takes and returns the store explicitly, since the
    provider is the store's only writer. The async `login` is split into
    `LoginBegin` (before the await) and `LoginEnd` (after it settles). */
module AuthContext {
  import opened Types
  import AuthApi

  datatype AuthState = AuthState(user: Option<User>, isLoading: bool)

  /** The value the provider hands to its consumers. */
  datatype ContextValue = ContextValue(user: Option<User>, isAuthenticated: bool, isLoading: bool)

  /** The fallback message when a failed response carries no error. */
  const LoginFailedMessage: string := "Login failed"

  /** The state on mount, before the bootstrap effect has run. */
  function Initial(): (s: AuthState)
    ensures s.user.None? && s.isLoading
  {
    AuthState(None, true)
  }

  /** `isAuthenticated: !!user`. */
  predicate IsAuthenticated(s: AuthState) {
    s.user.Some?
  }

  /** The context value: `isAuthenticated` is derived from `user`, never
      stored, so the two cannot disagree. */
  function Value(s: AuthState): (v: ContextValue)
    ensures v.user == s.user && v.isLoading == s.isLoading
    ensures v.isAuthenticated <==> v.user.Some?
  {
    ContextValue(s.user, IsAuthenticated(s), s.isLoading)
  }

  /** The mount effect: adopt the stored user only when the store also
      holds a truthy token; loading ends either way. */
  function Bootstrap(s: AuthState, store: AuthApi.Store): (r: AuthState)
    ensures !r.isLoading
    ensures AuthApi.HasSession(store) ==> r.user == AuthApi.GetCurrentUser(store)
    ensures !AuthApi.HasSession(store) ==> r.user == s.user
  {
    var stored := AuthApi.GetCurrentUser(store);
    AuthState(if stored.Some? && AuthApi.IsAuthenticated(store) then stored else s.user, false)
  }

  /** `login`, up to its await: loading starts, the user is untouched. */
  function LoginBegin(s: AuthState): (r: AuthState)
    ensures r.isLoading && r.user == s.user
  {
    s.(isLoading := true)
  }

  /** `login`, once the awaited service call has settled. A successful
      response installs its user and resolves. A failed response leaves
      the user alone and rejects with the response's error, or "Login
      failed" when that is missing or empty. A rejected service call
      leaves the user alone and passes its rejection on. Loading ends on
      every path (the `finally`). */
  function LoginEnd(s: AuthState, settled: Settled<User>): (r: (AuthState, Outcome<string>))
    ensures !r.0.isLoading
    ensures settled.Responded? && settled.response.success ==>
      r.0.user == Some(settled.response.data) && r.1.Pass?
    ensures !(settled.Responded? && settled.response.success) ==> r.0.user == s.user && r.1.Fail?
    ensures settled.Responded? && !settled.response.success && Truthy(settled.response.error) ==>
      r.1.error == settled.response.error.value
    ensures settled.Responded? && !settled.response.success && !Truthy(settled.response.error) ==>
      r.1.error == LoginFailedMessage
    ensures settled.Threw? ==> r.1 == Fail(settled.error)
  {
    match settled
    case Responded(response) =>
      if response.success then
        (AuthState(Some(response.data), false), Pass)
      else
        (s.(isLoading := false), Fail(OrElse(response.error, LoginFailedMessage)))
    case Threw(error) =>
      (s.(isLoading := false), Fail(error))
  }

  /** The whole `login(email, password)` call against the demo service:
      begin, call the service (which writes the store), settle. */
  function Login(s: AuthState, store: AuthApi.Store, email: string, password: string)
    : (r: (AuthState, AuthApi.Store, Outcome<string>))
    ensures r.2.Pass? && !r.0.isLoading
    ensures IsAuthenticated(r.0) && r.0.user.value.email == email
    ensures AuthApi.HasSession(r.1) && r.1.user == r.0.user
  {
    var (store', response) := AuthApi.Login(store, email, password);
    var (s', outcome) := LoginEnd(LoginBegin(s), Responded(response));
    (s', store', outcome)
  }

  /** `logout()`: clears both keys and the user; loading is untouched. */
  function Logout(s: AuthState, store: AuthApi.Store): (r: (AuthState, AuthApi.Store))
    ensures r.0.user.None? && r.0.isLoading == s.isLoading
    ensures r.1.user.None? && r.1.token.None?
  {
    (s.(user := None), AuthApi.Logout(store))
  }

  /** Logging out twice is the same as logging out once. */
  lemma LogoutIdempotent(s: AuthState, store: AuthApi.Store)
    ensures var (s1, st1) := Logout(s, store); Logout(s1, st1) == (s1, st1)
  {
  }

  /** The session invariant: the provider is authenticated exactly when
      the store holds a session, and then both agree on the user. */
  predicate Consistent(s: AuthState, store: AuthApi.Store) {
    && (IsAuthenticated(s) <==> AuthApi.HasSession(store))
    && (IsAuthenticated(s) ==> s.user == AuthApi.GetCurrentUser(store))
  }

  /** Bootstrapping the freshly mounted provider establishes the
      invariant from any store, half-written ones included. */
  lemma BootstrapEstablishesConsistency(store: AuthApi.Store)
    ensures Consistent(Bootstrap(Initial(), store), store)
    ensures IsAuthenticated(Bootstrap(Initial(), store)) <==> AuthApi.HasSession(store)
  {
  }

  /** A completed login and a logout each leave the invariant holding,
      from any prior state. */
  lemma StepsPreserveConsistency(s: AuthState, store: AuthApi.Store, email: string, password: string)
    ensures var (s1, st1, _) := Login(s, store, email, password); Consistent(s1, st1)
    ensures var (s2, st2) := Logout(s, store); Consistent(s2, st2)
  {
  }

  /** A login that fails, by a failed response or by the service call
      rejecting, writes nothing and keeps the user, so the invariant
      survives it. */
  lemma FailedLoginPreservesConsistency(s: AuthState, store: AuthApi.Store, settled: Settled<User>)
    requires Consistent(s, store)
    requires !(settled.Responded? && settled.response.success)
    ensures Consistent(LoginEnd(LoginBegin(s), settled).0, store)
    ensures LoginEnd(LoginBegin(s), settled).1.Fail?
  {
  }

  /** A session survives a restart: bootstrapping a fresh provider from
      the store a login wrote yields the same user. */
  lemma LoginSurvivesRestart(s: AuthState, store: AuthApi.Store, email: string, password: string)
    ensures var (s1, st1, _) := Login(s, store, email, password);
      Bootstrap(Initial(), st1).user == s1.user
  {
  }
}
