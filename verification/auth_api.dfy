/** The simulated authentication service (`authApi` of src/services/api.ts)
    over an abstract persisted store. The store has two independent keys,
    `user` and `token`; serialisation is abstracted away, so the `user`
    key holds a `User` value directly. */
module AuthApi {
  import opened Types
  import JsStrings

  /** The persisted key/value namespace: `None` is an absent key. */
  datatype Store = Store(user: Option<User>, token: Option<string>)

  /** The opaque token every demo login stores. */
  const DemoToken: string := "demo-token-12345"

  /** The message of a successful login response. */
  const LoginSuccessMessage: string := "Login successful!"

  /** A store with neither key: a fresh installation. */
  const EmptyStore: Store := Store(None, None)

  /** The display name derived from an email: `email.split('@')[0]`. */
  function NameFromEmail(email: string): (name: string)
    ensures name <= email
    ensures '@' !in name
    ensures |name| == |email| || email[|name|] == '@'
  {
    JsStrings.PrefixBefore(email, '@')
  }

  /** The user the demo manufactures from any credentials. */
  function BuildUser(email: string): (u: User)
    ensures u.id == "1" && u.email == email && u.role == UserRole && u.avatar.None?
    ensures u.name <= email && '@' !in u.name
    ensures |u.name| == |email| || email[|u.name|] == '@'
  {
    User("1", NameFromEmail(email), email, None, UserRole)
  }

  /** `authApi.login(email, password)`: accepts any credentials, writes
      both keys and resolves with a successful response carrying the
      user. The password is ignored. */
  function Login(store: Store, email: string, password: string): (r: (Store, ApiResponse<User>))
    ensures r.1.success && r.1.data == BuildUser(email)
    ensures r.1.message == Some(LoginSuccessMessage) && r.1.error.None?
    ensures r.0.user == Some(r.1.data) && r.0.token == Some(DemoToken)
  {
    var u := BuildUser(email);
    (Store(Some(u), Some(DemoToken)), ApiResponse(u, true, Some(LoginSuccessMessage), None))
  }

  /** `authApi.logout()`: removes both keys whatever was there. */
  function Logout(store: Store): (r: Store)
    ensures r.user.None? && r.token.None?
  {
    Store(None, None)
  }

  /** `authApi.getCurrentUser()`: the stored user, or `null` when the
      `user` key is absent. */
  function GetCurrentUser(store: Store): (r: Option<User>)
    ensures r.None? <==> store.user.None?
    ensures r.Some? ==> Some(r.value) == store.user
  {
    store.user
  }

  /** `authApi.isAuthenticated()`: the `token` key holds a truthy
      (non-empty) string. */
  predicate IsAuthenticated(store: Store) {
    Truthy(store.token)
  }

  /** The store holds a session the provider accepts at bootstrap. */
  predicate HasSession(store: Store) {
    GetCurrentUser(store).Some? && IsAuthenticated(store)
  }

  /** `IsAuthenticated` tells an absent or empty token apart from a
      real one, in both directions. */
  lemma IsAuthenticatedIffToken(store: Store)
    ensures IsAuthenticated(store) <==> (store.token.Some? && |store.token.value| > 0)
  {
  }

  /** Round trip: after `login(e, p)` the store reports the user with
      email `e` and reports itself authenticated, whatever it held
      before. */
  lemma LoginRoundTrip(store: Store, email: string, password: string)
    ensures var s := Login(store, email, password).0;
      && GetCurrentUser(s).Some?
      && GetCurrentUser(s).value.email == email
      && GetCurrentUser(s).value.name == NameFromEmail(email)
      && IsAuthenticated(s)
      && HasSession(s)
  {
  }

  /** After `logout` nothing is stored and the store is not
      authenticated; a second `logout` changes nothing. */
  lemma LogoutClears(store: Store)
    ensures GetCurrentUser(Logout(store)).None?
    ensures !IsAuthenticated(Logout(store)) && !HasSession(Logout(store))
    ensures Logout(Logout(store)) == Logout(store)
    ensures Logout(store) == EmptyStore
  {
  }

  /** Logging in again replaces the stored user wholesale: the previous
      user plays no part in the new store. */
  lemma LoginReplacesUser(s1: Store, s2: Store, email: string, p1: string, p2: string)
    ensures Login(s1, email, p1).0 == Login(s2, email, p2).0
  {
  }
}
