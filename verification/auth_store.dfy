/** The client's auth store (`stores/authStore.ts`): who is signed in, in
    which tenant and with which role, mirrored into four browser-storage
    keys; and the subset of the state the persistence layer keeps. */
module AuthStore {
  import opened Wrappers
  import opened Client
  import Access

  datatype AuthState = AuthState(
    user: Option<ClientUser>, token: Option<string>, tenant: Option<ClientTenant>, role: Option<string>,
    isAuthenticated: bool, isLoading: bool, error: Option<string>, rememberMe: bool)

  const Initial := AuthState(None, None, None, None, false, false, None, false)

  /** What a storage key holds: the token and role as text, the user and
      tenant as their JSON serialisation (kept here as the records). */
  datatype Stored = Text(s: string) | UserJson(user: ClientUser) | TenantJson(tenant: ClientTenant)

  type Storage = map<string, Stored>

  const TokenKey := "auth_token"
  const UserKey := "auth_user"
  const TenantKey := "auth_tenant"
  const RoleKey := "auth_role"
  const AuthKeys: set<string> := {TokenKey, UserKey, TenantKey, RoleKey}

  /** The store and the browser storage it writes. */
  datatype World = World(state: AuthState, storage: Storage)

  /** The fields of the login answer the store reads. */
  datatype LoginAnswer = LoginAnswer(user: ClientUser, token: string, role: string)

  /** The fields of the registration answer the store reads. */
  datatype RegisterAnswer = RegisterAnswer(user: ClientUser, token: string, tenant: ClientTenant)

  /** The four keys written after a successful sign-in. */
  function SignedInStorage(storage: Storage, user: ClientUser, token: string, tenant: ClientTenant, role: string): (st: Storage)
    ensures AuthKeys <= st.Keys
    ensures st[TokenKey] == Text(token) && st[UserKey] == UserJson(user)
    ensures st[TenantKey] == TenantJson(tenant) && st[RoleKey] == Text(role)
    ensures forall k :: k !in AuthKeys ==> (k in st <==> k in storage) && (k in storage ==> st[k] == storage[k])
  {
    storage[TokenKey := Text(token)][UserKey := UserJson(user)][TenantKey := TenantJson(tenant)][RoleKey := Text(role)]
  }

  /** `login(email, password, rememberMe = false)`: the credentials are
      posted without a tenant, so the server picks the first membership;
      the tenant record is then fetched with the new token.  Nothing is
      stored unless both requests succeed. */
  function Login(w: World, email: string, password: string, rememberMe: bool,
                 resp: Answer<LoginAnswer>, tenantResp: Answer<ClientTenant>): (r: Step<World, ()>)
    ensures |r.requests| >= 1 && r.requests[0] == Request(POST, "/auth/login", map[], map["email" := Str(email), "password" := Str(password)])
    ensures "tenant_id" !in r.requests[0].body
    ensures !r.state.state.isLoading
    ensures resp.Answered? && tenantResp.Answered? ==>
              && r.result == Resolved(())
              && r.requests == [r.requests[0], Get("/tenant", map[])]
              && r.state.state == AuthState(Some(resp.data.user), Some(resp.data.token), Some(tenantResp.data),
                                            Some(resp.data.role), true, false, None, rememberMe)
              && r.state.storage == SignedInStorage(w.storage, resp.data.user, resp.data.token, tenantResp.data, resp.data.role)
    ensures resp.Failed? ==> |r.requests| == 1
    ensures resp.Failed? || tenantResp.Failed? ==>
              && r.result.Rejected?
              && r.state.storage == w.storage
              && r.state.state == w.state.(isLoading := false, error := Some(ErrorMessage(r.result.serverError, "Login failed. Please try again.")))
  {
    var post := Request(POST, "/auth/login", map[], map["email" := Str(email), "password" := Str(password)]);
    var failed := (e: Option<string>) => w.state.(isLoading := false, error := Some(ErrorMessage(e, "Login failed. Please try again.")));
    match resp
    case Failed(e) => Step(World(failed(e), w.storage), [post], Rejected(e))
    case Answered(a) =>
      var lookup := Get("/tenant", map[]);
      match tenantResp
      case Failed(e) => Step(World(failed(e), w.storage), [post, lookup], Rejected(e))
      case Answered(t) =>
        Step(World(AuthState(Some(a.user), Some(a.token), Some(t), Some(a.role), true, false, None, rememberMe),
                   SignedInStorage(w.storage, a.user, a.token, t, a.role)),
             [post, lookup], Resolved(()))
  }

  /** `register(data)`: the creator of a tenant is its admin, so the role
      stored and set is always "admin"; `rememberMe` is left as it was. */
  function Register(w: World, data: Obj, resp: Answer<RegisterAnswer>): (r: Step<World, ()>)
    ensures r.requests == [Request(POST, "/auth/register", map[], data)]
    ensures !r.state.state.isLoading && r.state.state.rememberMe == w.state.rememberMe
    ensures resp.Answered? ==>
              && r.result == Resolved(())
              && r.state.state.role == Some("admin") && r.state.state.isAuthenticated
              && r.state.state.user == Some(resp.data.user) && r.state.state.token == Some(resp.data.token)
              && r.state.state.tenant == Some(resp.data.tenant) && r.state.state.error.None?
    ensures resp.Answered? ==>
              r.state.storage == SignedInStorage(w.storage, resp.data.user, resp.data.token, resp.data.tenant, "admin")
    ensures resp.Failed? ==>
              && r.result == Rejected(resp.serverError) && r.state.storage == w.storage
              && r.state.state == w.state.(isLoading := false, error := Some(ErrorMessage(resp.serverError, "Registration failed. Please try again.")))
  {
    var req := Request(POST, "/auth/register", map[], data);
    match resp
    case Failed(e) =>
      Step(World(w.state.(isLoading := false, error := Some(ErrorMessage(e, "Registration failed. Please try again."))), w.storage),
           [req], Rejected(e))
    case Answered(a) =>
      Step(World(w.state.(user := Some(a.user), token := Some(a.token), tenant := Some(a.tenant), role := Some("admin"),
                          isAuthenticated := true, isLoading := false, error := None),
                 SignedInStorage(w.storage, a.user, a.token, a.tenant, "admin")),
           [req], Resolved(()))
  }

  /** `logout()`: the four keys go, and so does everything that says who
      is signed in; `isLoading` and `rememberMe` stay. */
  function Logout(w: World): (r: World)
    ensures r.storage.Keys == w.storage.Keys - AuthKeys
    ensures forall k :: k in r.storage ==> r.storage[k] == w.storage[k]
    ensures r.state == AuthState(None, None, None, None, false, w.state.isLoading, None, w.state.rememberMe)
  {
    World(w.state.(user := None, token := None, tenant := None, role := None, isAuthenticated := false, error := None),
          w.storage - AuthKeys)
  }

  /** Logging out twice is logging out once, and afterwards every guarded
      page sends the visitor to the sign-in page. */
  lemma LogoutIdempotent(w: World, required: Option<Access.Role>)
    ensures Logout(Logout(w)) == Logout(w)
    ensures Access.ProtectedRoute(Logout(w).state.isAuthenticated, None, required) == Access.Redirect("/login")
  {
  }

  /** `clearError()`. */
  function ClearError(w: World): (r: World)
    ensures r == World(w.state.(error := None), w.storage)
  {
    World(w.state.(error := None), w.storage)
  }

  /** `setToken(token)`: stores the token and marks the visitor signed in,
      without touching the user, tenant or role. */
  function SetToken(w: World, token: string): (r: World)
    ensures r.storage == w.storage[TokenKey := Text(token)]
    ensures r.state == w.state.(token := Some(token), isAuthenticated := true)
  {
    World(w.state.(token := Some(token), isAuthenticated := true), w.storage[TokenKey := Text(token)])
  }

  /** `validateToken()`: without a token (none, or the empty string) it
      answers false at once; otherwise it asks for the tenant, answers
      whether the status was 200, and logs out when the request fails.
      `resp` is the status of an answered request. */
  function ValidateToken(w: World, resp: Answer<int>): (r: Step<World, bool>)
    ensures w.state.token.None? || w.state.token.value == "" ==> r == Step(w, [], Resolved(false))
    ensures w.state.token.Some? && w.state.token.value != "" ==>
              && r.requests == [Get("/tenant", map[])]
              && (resp.Answered? ==> r.state == w && r.result == Resolved(resp.data == 200))
              && (resp.Failed? ==> r.state == Logout(w) && r.result == Resolved(false))
    ensures r.result.Resolved?
  {
    if w.state.token.None? || w.state.token.value == "" then Step(w, [], Resolved(false))
    else
      match resp
      case Answered(status) => Step(w, [Get("/tenant", map[])], Resolved(status == 200))
      case Failed(_) => Step(Logout(w), [Get("/tenant", map[])], Resolved(false))
  }

  /** The state the persistence layer writes out. */
  datatype Persisted = Persisted(
    user: Option<ClientUser>, token: Option<string>, tenant: Option<ClientTenant>, role: Option<string>,
    isAuthenticated: bool, rememberMe: bool)

  /** `partialize`: everything but `isLoading` and `error`. */
  function Partialize(s: AuthState): (p: Persisted)
    ensures p.user == s.user && p.token == s.token && p.tenant == s.tenant && p.role == s.role
    ensures p.isAuthenticated == s.isAuthenticated && p.rememberMe == s.rememberMe
  {
    Persisted(s.user, s.token, s.tenant, s.role, s.isAuthenticated, s.rememberMe)
  }

  /** Rehydration: the persisted fields over a fresh store. */
  function Rehydrate(p: Persisted): (s: AuthState)
    ensures !s.isLoading && s.error.None?
  {
    Initial.(user := p.user, token := p.token, tenant := p.tenant, role := p.role,
             isAuthenticated := p.isAuthenticated, rememberMe := p.rememberMe)
  }

  /** A reload restores everything except a pending request and an error
      message, and what it restores is written out unchanged again. */
  lemma ReloadKeepsSession(s: AuthState)
    ensures Rehydrate(Partialize(s)) == s.(isLoading := false, error := None)
    ensures Partialize(Rehydrate(Partialize(s))) == Partialize(s)
    ensures forall l: bool, e: Option<string> :: Partialize(s.(isLoading := l, error := e)) == Partialize(s)
  {
  }

  /** After a registration the session holds the admin role, so the route
      guard renders every page, admin-only ones included. */
  lemma RegisteredUserPassesEveryGuard(w: World, data: Obj, a: RegisterAnswer, required: Option<Access.Role>)
    ensures var s := Register(w, data, Answered(a)).state.state;
            Access.ProtectedRoute(s.isAuthenticated, s.role, required) == Access.Render
  {
  }
}
