/** The route table of `routes/routes.go`: each endpoint with the chain of
    guards its route group installs, in order. */
module Routes {
  import opened Wrappers
  import opened Seqs
  import opened Jwt
  import opened Middleware
  import Access

  datatype Verb = GET | POST | PUT | PATCH | DELETE

  datatype Guard = RequireAuth | RequireTenant | RequireRoles(allowed: seq<string>)

  datatype Route = Route(verb: Verb, path: string, guards: seq<Guard>)

  const Authed: seq<Guard> := [RequireAuth]
  const InTenant: seq<Guard> := [RequireAuth, RequireTenant]
  const AdminOnly: seq<Guard> := [RequireAuth, RequireTenant, RequireRoles(["admin"])]
  const AdminOrManager: seq<Guard> := [RequireAuth, RequireTenant, RequireRoles(["admin", "manager"])]

  /** A route group: each endpoint behind the group's guard chain. */
  function Group(guards: seq<Guard>, endpoints: seq<(Verb, string)>): (rs: seq<Route>)
    ensures |rs| == |endpoints|
    ensures forall k :: 0 <= k < |rs| ==> rs[k] == Route(endpoints[k].0, endpoints[k].1, guards)
  {
    seq(|endpoints|, k requires 0 <= k < |endpoints| => Route(endpoints[k].0, endpoints[k].1, guards))
  }

  const PublicRoutes: seq<Route> := Group([], [
    (POST, "/api/auth/register"),
    (POST, "/api/auth/login")
  ])

  const AccountRoutes: seq<Route> := Group(Authed, [
    (GET, "/api/tenants/my"),
    (POST, "/api/tenants/switch/:tenant_id")
  ])

  const AdminRoutes: seq<Route> := Group(AdminOnly, [
    (PUT, "/api/tenant"),
    (POST, "/api/tenant/users"),
    (DELETE, "/api/tenant/users/:user_id"),
    (PUT, "/api/tenant/users/:user_id/role"),
    (GET, "/api/tenant/audit-logs")
  ])

  const ManagerRoutes: seq<Route> := Group(AdminOrManager, [
    (GET, "/api/tenant/users")
  ])

  /** Tenant routes open to every role. */
  const TenantRoutes: seq<Route> := Group(InTenant, [
    (GET, "/api/tenant"),
    (GET, "/api/dashboard/stats"),
    (POST, "/api/contacts"),
    (GET, "/api/contacts"),
    (GET, "/api/contacts/search"),
    (GET, "/api/contacts/:id"),
    (PATCH, "/api/contacts/:id"),
    (DELETE, "/api/contacts/:id"),
    (GET, "/api/pipeline/stages"),
    (GET, "/api/pipeline/stages/:id"),
    (POST, "/api/pipeline/stages"),
    (PATCH, "/api/pipeline/stages/:id"),
    (DELETE, "/api/pipeline/stages/:id"),
    (PUT, "/api/pipeline/stages/reorder"),
    (POST, "/api/deals"),
    (GET, "/api/deals"),
    (GET, "/api/deals/pipeline-value"),
    (GET, "/api/deals/:id"),
    (PATCH, "/api/deals/:id"),
    (DELETE, "/api/deals/:id"),
    (PUT, "/api/deals/:id/move"),
    (PUT, "/api/deals/:id/status")
  ])

  const ApiRoutes: seq<Route> := PublicRoutes + AccountRoutes + AdminRoutes + ManagerRoutes + TenantRoutes

  /** Runs one guard. */
  function RunGuard(g: Guard, header: string, validate: Validator, ctx: Ctx): Gate
  {
    match g
    case RequireAuth => AuthMiddleware(header, validate, ctx)
    case RequireTenant => TenantMiddleware(ctx)
    case RequireRoles(allowed) => RoleMiddleware(allowed, ctx)
  }

  /** Runs a guard chain from a fresh context; the first abort wins. */
  function RunGuards(guards: seq<Guard>, header: string, validate: Validator, ctx: Ctx): (g: Gate)
    ensures guards == [] ==> g == Next(ctx)
  {
    if guards == [] then Next(ctx)
    else
      match RunGuard(guards[0], header, validate, ctx)
      case Abort(status, error) => Abort(status, error)
      case Next(ctx') => RunGuards(guards[1..], header, validate, ctx')
  }

  /** The outcome of the guards for a request with the given header. */
  function Admit(r: Route, header: string, validate: Validator): Gate
  {
    RunGuards(r.guards, header, validate, EmptyCtx)
  }

  /** Registration and login are reachable without credentials. */
  lemma PublicRoutesNeedNoToken(r: Route, header: string, validate: Validator)
    requires r in PublicRoutes
    ensures Admit(r, header, validate) == Next(EmptyCtx)
  {
  }

  /** Every other API route checks the token first and answers 401 when
      the header or the token is bad. */
  lemma {:induction false} ProtectedRoutesRejectBadTokens(r: Route, header: string, validate: Validator)
    requires r in ApiRoutes && r !in PublicRoutes
    requires ExtractToken(header).Err? || validate(ExtractToken(header).value).None?
    ensures Admit(r, header, validate).Abort? && Admit(r, header, validate).status == StatusUnauthorized
  {
    GuardedRoutesStartWithAuth(r);
    assert RunGuard(r.guards[0], header, validate, EmptyCtx).Abort?;
  }

  /** Every route outside the public group runs the token check first. */
  lemma GuardedRoutesStartWithAuth(r: Route)
    requires r in ApiRoutes && r !in PublicRoutes
    ensures r.guards != [] && r.guards[0] == RequireAuth
  {
    assert r in AccountRoutes || r in AdminRoutes || r in ManagerRoutes || r in TenantRoutes;
    if r in AccountRoutes {
      assert r.guards == Authed;
    } else if r in AdminRoutes {
      assert r.guards == AdminOnly;
    } else if r in ManagerRoutes {
      assert r.guards == AdminOrManager;
    } else {
      assert r.guards == InTenant;
    }
  }

  /** The outcome of a chain for a header whose token validates to `c`. */
  lemma {:induction false} AdminOutcome(r: Route, header: string, validate: Validator, c: Claims)
    requires r in AdminRoutes
    requires ExtractToken(header).Ok? && validate(ExtractToken(header).value) == Some(c)
    ensures Admit(r, header, validate).Next? <==> c.tenantId != 0 && c.role == "admin"
  {
    assert r.guards == AdminOnly;
    var ctx := WithClaims(EmptyCtx, c);
    assert AdminOnly[1..] == [RequireTenant, RequireRoles(["admin"])];
    assert AdminOnly[1..][1..] == [RequireRoles(["admin"])];
    assert RunGuard(RequireAuth, header, validate, EmptyCtx) == Next(ctx);
    assert Admit(r, header, validate) == RunGuards(AdminOnly[1..], header, validate, ctx);
    if c.tenantId != 0 {
      assert RunGuards(AdminOnly[1..], header, validate, ctx) == RunGuards(AdminOnly[1..][1..], header, validate, ctx);
      assert RunGuards(AdminOnly[1..][1..], header, validate, ctx) == RoleMiddleware(["admin"], ctx);
    }
  }

  /** The user list admits exactly admins and managers of the tenant; for
      the three known roles that is the client's "level at least manager". */
  lemma {:induction false} UsersRouteOutcome(header: string, validate: Validator, c: Claims)
    requires ExtractToken(header).Ok? && validate(ExtractToken(header).value) == Some(c)
    ensures (Admit(ManagerRoutes[0], header, validate).Next?
             <==> c.tenantId != 0 && (c.role == "admin" || c.role == "manager"))
    ensures forall role: Access.Role ::
              (Access.RoleName(role) in ["admin", "manager"]) <==> Access.Rank(role) >= Access.Rank(Access.Manager)
  {
    var ctx := WithClaims(EmptyCtx, c);
    assert AdminOrManager[1..] == [RequireTenant, RequireRoles(["admin", "manager"])];
    assert AdminOrManager[1..][1..] == [RequireRoles(["admin", "manager"])];
    assert RunGuard(RequireAuth, header, validate, EmptyCtx) == Next(ctx);
    assert Admit(ManagerRoutes[0], header, validate) == RunGuards(AdminOrManager[1..], header, validate, ctx);
    if c.tenantId != 0 {
      assert RunGuards(AdminOrManager[1..], header, validate, ctx) == RunGuards(AdminOrManager[1..][1..], header, validate, ctx);
      assert RunGuards(AdminOrManager[1..][1..], header, validate, ctx) == RoleMiddleware(["admin", "manager"], ctx);
    }
  }

  /** The admin-only list is the client's "level at least admin". */
  lemma AdminListIsTopLevel(role: Access.Role)
    ensures Access.RoleName(role) in ["admin"] <==> Access.Rank(role) >= Access.Rank(Access.Admin)
  {
  }

  /** Contact, pipeline and deal routes (and the tenant summary) admit any
      role, provided the token names a tenant. */
  lemma {:induction false} TenantRoutesAnyRole(r: Route, header: string, validate: Validator, c: Claims)
    requires r in TenantRoutes
    requires ExtractToken(header).Ok? && validate(ExtractToken(header).value) == Some(c)
    ensures Admit(r, header, validate).Next? <==> c.tenantId != 0
  {
    assert r.guards == InTenant;
    assert InTenant[1..] == [RequireTenant];
    assert InTenant[1..][1..] == [];
    var ctx := WithClaims(EmptyCtx, c);
    assert RunGuard(RequireAuth, header, validate, EmptyCtx) == Next(ctx);
    assert Admit(r, header, validate) == RunGuards(InTenant[1..], header, validate, ctx);
  }

  /** Listing and switching memberships needs only a valid token. */
  lemma {:induction false} AccountRoutesNeedOnlyToken(r: Route, header: string, validate: Validator, c: Claims)
    requires r in AccountRoutes
    requires ExtractToken(header).Ok? && validate(ExtractToken(header).value) == Some(c)
    ensures Admit(r, header, validate) == Next(WithClaims(EmptyCtx, c))
  {
    assert r.guards == Authed;
    assert Authed[1..] == [];
  }
}
