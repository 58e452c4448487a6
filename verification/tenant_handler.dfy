/** The tenant-administration endpoints (`handler/tenant_handler.go`): the
    caller's tenant, the list of all tenants, the tenant's users and their
    roles, and the audit trail. */
module TenantHandler {
  import opened Wrappers
  import opened Seqs
  import opened Scopes
  import opened Entities
  import opened Strconv
  import opened Http
  import opened Memberships
  import opened AuthService
  import opened Text
  import TenantService

  const TenantNotFound := "Tenant not found"
  const InvalidUserId := "Invalid user ID"
  const TenantUpdated := "Tenant updated successfully"
  const UserCreatedAndAdded := "User created and added to tenant successfully"
  const UserAdded := "User added to tenant successfully"
  const RoleUpdated := "User role updated successfully"
  const UserRemoved := "User removed successfully"

  /** A paginated listing: one page of rows, the number of rows in the
      whole result, and the paging values the client sent. */
  datatype Listing<T> = Listing(items: seq<T>, total: nat, page: int, pageSize: int)

  /** The page `p` cuts from `rows` read newest first: row `k` of it is
      the row that many places from the end, past the offset, and the page
      is as long as what is left after the offset, up to the limit. */
  function NewestFirst<R>(rows: seq<R>, p: Page): (r: seq<R>)
    requires p.offset >= 0 && p.limit >= 1
    ensures |r| == WindowLength(|rows|, p.offset, p.limit) && |r| <= p.limit
    ensures forall k :: 0 <= k < |r| ==> p.offset + k < |rows| && r[k] == rows[|rows| - 1 - (p.offset + k)]
    ensures forall k :: 0 <= k < |r| ==> r[k] in rows
  {
    WindowOfReverse(rows, p.offset, p.limit);
    var r := ApplyPage(Reverse(rows), p);
    assert forall k :: 0 <= k < |r| ==> r[k] in rows by {
      forall k | 0 <= k < |r|
        ensures r[k] in rows
      {
        assert r[k] == rows[|rows| - 1 - (p.offset + k)];
      }
    }
    r
  }

  // ---------------------------------------------------------------------
  // The tenant itself
  // ---------------------------------------------------------------------

  /** `GET /tenant`: the caller's tenant, or 404. */
  function GetTenant(db: Db, tenant: nat): (r: Reply<Tenant>)
    ensures r.Reply? <==> exists k :: 0 <= k < |db.tenants| && db.tenants[k].id == tenant
    ensures r.Reply? ==> r.status == StatusOK && r.data in db.tenants && r.data.id == tenant
    ensures r.Error? ==> r == Error(StatusNotFound, TenantNotFound)
  {
    match TenantService.FindTenant(db.tenants, tenant)
    case None => Error(StatusNotFound, TenantNotFound)
    case Some(t) => Reply(StatusOK, "", t)
  }

  /** `GetAllTenants`: every tenant, newest first, one page at a time; the
      total counts all tenants.  No route is registered for it. */
  function GetAllTenants(db: Db, q: QueryString): (r: Reply<Listing<Tenant>>)
    ensures r.Reply? && r.status == StatusOK
    ensures (r.data.page, r.data.pageSize) == PageParams(q, "10")
    ensures r.data.total == |db.tenants|
    ensures |r.data.items| <= ClampPageSize(r.data.pageSize)
    ensures var p := Paginate(r.data.page, r.data.pageSize);
            && |r.data.items| == WindowLength(|db.tenants|, p.offset, p.limit)
            && forall k :: 0 <= k < |r.data.items| ==>
                 p.offset + k < |db.tenants| && r.data.items[k] == db.tenants[|db.tenants| - 1 - (p.offset + k)]
  {
    var paging := PageParams(q, "10");
    Reply(StatusOK, "", Listing(NewestFirst(db.tenants, Paginate(paging.0, paging.1)), |db.tenants|, paging.0, paging.1))
  }

  /** The body of `PUT /tenant`; an empty field means "keep". */
  datatype TenantPatch = TenantPatch(name: string, status: string)

  /** The handler's merge of the request into the stored tenant. */
  function MergeTenant(t: Tenant, p: TenantPatch): Tenant
  {
    t.(name := if p.name != "" then p.name else t.name,
       status := if p.status != "" then p.status else t.status)
  }

  /** Merging keeps the key, applies each non-empty field, keeps the rest,
      and merging the same request twice changes nothing more. */
  lemma MergeTenantFields(t: Tenant, p: TenantPatch)
    ensures MergeTenant(t, p).id == t.id
    ensures p.name != "" ==> MergeTenant(t, p).name == p.name
    ensures p.name == "" ==> MergeTenant(t, p).name == t.name
    ensures p.status != "" ==> MergeTenant(t, p).status == p.status
    ensures p.status == "" ==> MergeTenant(t, p).status == t.status
    ensures p == TenantPatch("", "") ==> MergeTenant(t, p) == t
    ensures MergeTenant(MergeTenant(t, p), p) == MergeTenant(t, p)
  {
  }

  /** `PUT /tenant`: the caller's tenant with the request's non-empty
      fields, written back in full. */
  function UpdateTenant(db: Db, tenant: nat, user: nat, body: Result<TenantPatch>): (r: (Db, Reply<Tenant>))
    ensures body.Err? ==> r == (db, Error(StatusBadRequest, body.msg))
    ensures body.Ok? && TenantService.FindTenant(db.tenants, tenant).None? ==> r == (db, Error(StatusNotFound, TenantNotFound))
    ensures r.1.Error? ==> r.0 == db
    ensures r.1.Reply? <==> body.Ok? && TenantService.FindTenant(db.tenants, tenant).Some?
    ensures r.1.Reply? ==> var t := r.1.data;
              && r.1.status == StatusOK && r.1.message == TenantUpdated
              && t == MergeTenant(TenantService.FindTenant(db.tenants, tenant).value, body.value)
              && t.id == tenant
              && r.0 == Audit(db.(tenants := TenantService.SaveTenant(db.tenants, t)), tenant, user, "update", "tenant", tenant)
  {
    match body
    case Err(e) => (db, Error(StatusBadRequest, e))
    case Ok(req) =>
      match TenantService.FindTenant(db.tenants, tenant)
      case None => (db, Error(StatusNotFound, TenantNotFound))
      case Some(stored) =>
        var t := MergeTenant(stored, req);
        (Audit(db.(tenants := TenantService.SaveTenant(db.tenants, t)), tenant, user, "update", "tenant", tenant),
         Reply(StatusOK, TenantUpdated, t))
  }

  /** Saving a tenant whose key is stored makes every lookup of that key
      answer the saved tenant. */
  lemma {:induction false} SavedTenantIsFound(tenants: seq<Tenant>, t: Tenant)
    requires exists k :: 0 <= k < |tenants| && tenants[k].id == t.id
    ensures TenantService.FindTenant(TenantService.SaveTenant(tenants, t), t.id) == Some(t)
  {
    var saved := TenantService.SaveTenant(tenants, t);
    var k :| 0 <= k < |tenants| && tenants[k].id == t.id;
    assert saved[k].id == t.id;
    var found := TenantService.FindTenant(saved, t.id);
    var j :| 0 <= j < |saved| && saved[j] == found.value;
    assert tenants[j].id == t.id;
  }

  /** What `PUT /tenant` answers is what `GET /tenant` answers next. */
  lemma UpdateThenGet(db: Db, tenant: nat, user: nat, body: Result<TenantPatch>)
    requires UpdateTenant(db, tenant, user, body).1.Reply?
    ensures var (db', reply) := UpdateTenant(db, tenant, user, body);
            GetTenant(db', tenant) == Reply(StatusOK, "", reply.data)
  {
    var (db', reply) := UpdateTenant(db, tenant, user, body);
    var stored := TenantService.FindTenant(db.tenants, tenant).value;
    var j :| 0 <= j < |db.tenants| && db.tenants[j] == stored;
    SavedTenantIsFound(db.tenants, reply.data);
  }

  // ---------------------------------------------------------------------
  // The tenant's users
  // ---------------------------------------------------------------------

  /** `GET /tenant/users`: one page of the tenant's memberships and their
      number. */
  function GetTenantUsers(db: Db, tenant: nat, q: QueryString): (r: Reply<Listing<Membership>>)
    ensures r.Reply? && r.status == StatusOK
    ensures (r.data.page, r.data.pageSize) == PageParams(q, "10")
    ensures r.data.total == Count(db.memberships, (m: Membership) => m.tenantId == tenant)
    ensures |r.data.items| <= ClampPageSize(r.data.pageSize)
    ensures forall m :: m in r.data.items ==> m in db.memberships && m.tenantId == tenant
  {
    var (page, pageSize) := PageParams(q, "10");
    var (items, total) := TenantService.GetTenantUsers(db, tenant, page, pageSize);
    Reply(StatusOK, "", Listing(items, total, page, pageSize))
  }

  /** The body of `POST /tenant/users` after JSON decoding. */
  datatype AddUserRequest = AddUserRequest(email: string, password: string, fullName: string, role: string)

  /** The request's tags: `Email` is `required,email`, `Role` is
      `required`. */
  function AddUserFailures(validEmail: string -> bool): AddUserRequest -> seq<string>
  {
    (req: AddUserRequest) => RequiredEmail("Email", req.email, validEmail) + RequiredString("Role", req.role)
  }

  /** Binding accepts exactly a request with a well-formed email and a
      role. */
  lemma AddUserBinding(body: Result<AddUserRequest>, validEmail: string -> bool)
    ensures Validate(body, AddUserFailures(validEmail)).Ok? <==>
              body.Ok? && body.value.email != "" && validEmail(body.value.email) && body.value.role != ""
    ensures body.Ok? && body.value.email == "" && body.value.role != "" ==>
              Validate(body, AddUserFailures(validEmail)) == Err(RequiredFieldError("Email"))
  {
  }

  /** What `POST /tenant/users` answers: the user and whether it was
      created. */
  datatype AddedUser = AddedUser(user: User, isNewUser: bool)

  /** `POST /tenant/users`: a new user is created (or an existing one is
      reused) and given a membership.  The audit action and the message
      both say which case happened.  A service error is a 400; the
      database is then whatever the service left. */
  function AddUser(db: Db, tenant: nat, actor: nat, body: Result<AddUserRequest>, validEmail: string -> bool,
                   lookupFailure: Option<string>): (r: (Db, Reply<AddedUser>))
    ensures var bound := Validate(body, AddUserFailures(validEmail));
            bound.Err? ==> r == (db, Error(StatusBadRequest, bound.msg))
    ensures r.1.Error? ==> r.1.status == StatusBadRequest
    ensures r.1.Reply? ==> var AddedUser(u, isNew) := r.1.data;
              && Validate(body, AddUserFailures(validEmail)).Ok?
              && r.1.status == StatusCreated
              && (r.1.message == UserCreatedAndAdded <==> isNew)
              && (r.1.message == UserAdded <==> !isNew)
              && (isNew <==> FindUserByEmail(db.users, body.value.email).None?)
              && |r.0.auditLogs| > 0
              && r.0.auditLogs[|r.0.auditLogs| - 1]
                 == AuditLog(tenant, actor, if isNew then "create_user" else "add_user", "user", u.id)
              && CheckUserAccess(r.0.memberships, tenant, u.id)
  {
    match Validate(body, AddUserFailures(validEmail))
    case Err(e) => (db, Error(StatusBadRequest, e))
    case Ok(req) =>
      var (db', res) := TenantService.AddUser(db, tenant, req.email, req.password, req.fullName, req.role, lookupFailure);
      match res
      case Err(e) => (db', Error(StatusBadRequest, e))
      case Ok((u, isNew)) =>
        var action := if isNew then "create_user" else "add_user";
        var message := if isNew then UserCreatedAndAdded else UserAdded;
        (Audit(db', tenant, actor, action, "user", u.id), Reply(StatusCreated, message, AddedUser(u, isNew)))
  }

  /** `PUT /tenant/users/:user_id/role`: the path's user gets the body's
      role in the caller's tenant. */
  function UpdateUserRole(db: Db, tenant: nat, actor: nat, userIdParam: string, body: Result<string>): (r: (Db, Reply<()>))
    ensures ParseUint32(userIdParam).None? ==> r == (db, Error(StatusBadRequest, InvalidUserId))
    ensures r.1.Error? ==> r.0 == db && r.1.status == StatusBadRequest
    ensures r.1.Reply? <==> ParseUint32(userIdParam).Some? && body.Ok? && body.value != ""
    ensures r.1.Reply? ==> var user := ParseUint32(userIdParam).value;
              && r.1 == Reply(StatusOK, RoleUpdated, ())
              && |r.0.memberships| == |db.memberships|
              && (forall k :: 0 <= k < |db.memberships| ==>
                    r.0.memberships[k] == if IsPair(db.memberships[k], tenant, user) then db.memberships[k].(role := body.value)
                                          else db.memberships[k])
              && r.0.auditLogs == db.auditLogs + [AuditLog(tenant, actor, "update_role", "user", user)]
  {
    match ParseUint32(userIdParam)
    case None => (db, Error(StatusBadRequest, InvalidUserId))
    case Some(user) =>
      match BindRequired(body, "", "Role")
      case Err(e) => (db, Error(StatusBadRequest, e))
      case Ok(role) =>
        (Audit(TenantService.UpdateUserRole(db, tenant, user, role), tenant, actor, "update_role", "user", user),
         Reply(StatusOK, RoleUpdated, ()))
  }

  /** After a role change, the membership the access checks find carries
      the new role. */
  lemma RoleChangeReadsBack(db: Db, tenant: nat, actor: nat, user: nat, role: string)
    requires role != "" && user <= MaxUint32
    requires FindByTenantAndUser(db.memberships, tenant, user).Some?
    ensures var (db', reply) := UpdateUserRole(db, tenant, actor, NatToString(user), Ok(role));
            && reply.Reply?
            && FindByTenantAndUser(db'.memberships, tenant, user)
               == Some(FindByTenantAndUser(db.memberships, tenant, user).value.(role := role))
  {
    ParseUint32NatToString(user);
    UpdateRoleReadsBack(db.memberships, tenant, user, role, tenant, user);
  }

  /** `DELETE /tenant/users/:user_id`: the path's user loses the caller's
      tenant, whether or not it was a member. */
  function RemoveUser(db: Db, tenant: nat, actor: nat, userIdParam: string): (r: (Db, Reply<()>))
    ensures ParseUint32(userIdParam).None? ==> r == (db, Error(StatusBadRequest, InvalidUserId))
    ensures r.1.Reply? <==> ParseUint32(userIdParam).Some?
    ensures r.1.Reply? ==> var user := ParseUint32(userIdParam).value;
              && r.1 == Reply(StatusOK, UserRemoved, ())
              && !CheckUserAccess(r.0.memberships, tenant, user)
              && (forall t, u :: !(t == tenant && u == user) ==>
                    CheckUserAccess(r.0.memberships, t, u) == CheckUserAccess(db.memberships, t, u))
              && r.0.auditLogs == db.auditLogs + [AuditLog(tenant, actor, "remove", "user", user)]
  {
    match ParseUint32(userIdParam)
    case None => (db, Error(StatusBadRequest, InvalidUserId))
    case Some(user) =>
      var db' := TenantService.RemoveUserFromTenant(db, tenant, user);
      assert forall t, u :: !(t == tenant && u == user) ==>
               CheckUserAccess(db'.memberships, t, u) == CheckUserAccess(db.memberships, t, u) by {
        forall t, u | !(t == tenant && u == user)
          ensures CheckUserAccess(db'.memberships, t, u) == CheckUserAccess(db.memberships, t, u)
        {
          DeleteRevokesAccess(db.memberships, tenant, user, t, u);
        }
      }
      DeleteRevokesAccess(db.memberships, tenant, user, tenant, user);
      (Audit(db', tenant, actor, "remove", "user", user), Reply(StatusOK, UserRemoved, ()))
  }

  // ---------------------------------------------------------------------
  // The audit trail
  // ---------------------------------------------------------------------

  /** The tenant's audit entries, oldest first. */
  function TenantLogs(logs: seq<AuditLog>, tenant: nat): seq<AuditLog>
  {
    Filter(logs, (e: AuditLog) => e.tenantId == tenant)
  }

  /** `GET /tenant/audit-logs`: the tenant's entries, newest first, one page
      at a time, with their number.  The page skips the scope's offset
      (`(page - 1) * size`) counted from the newest entry and keeps at most
      its limit (the clamped size). */
  function GetAuditLogs(db: Db, tenant: nat, q: QueryString): (r: Reply<Listing<AuditLog>>)
    ensures r.Reply? && r.status == StatusOK
    ensures (r.data.page, r.data.pageSize) == PageParams(q, "20")
    ensures r.data.total == Count(db.auditLogs, (e: AuditLog) => e.tenantId == tenant)
    ensures |r.data.items| <= ClampPageSize(r.data.pageSize)
    ensures forall k :: 0 <= k < |r.data.items| ==> r.data.items[k] in db.auditLogs && r.data.items[k].tenantId == tenant
    ensures var all := TenantLogs(db.auditLogs, tenant);
            var p := Paginate(r.data.page, r.data.pageSize);
            && |r.data.items| == WindowLength(|all|, p.offset, p.limit)
            && forall k :: 0 <= k < |r.data.items| ==>
                 p.offset + k < |all| && r.data.items[k] == all[|all| - 1 - (p.offset + k)]
  {
    var paging := PageParams(q, "20");
    var all := TenantLogs(db.auditLogs, tenant);
    Reply(StatusOK, "", Listing(NewestFirst(all, Paginate(paging.0, paging.1)), |all|, paging.0, paging.1))
  }

  /** The entry an action has just written heads the first page of the
      trail, and the total grows by one. */
  lemma LatestEntryFirst(db: Db, tenant: nat, actor: nat, action: string, resource: string, resourceId: nat, q: QueryString)
    requires "page" !in q
    ensures var r := GetAuditLogs(Audit(db, tenant, actor, action, resource, resourceId), tenant, q);
            && |r.data.items| > 0
            && r.data.items[0] == AuditLog(tenant, actor, action, resource, resourceId)
            && r.data.total == GetAuditLogs(db, tenant, q).data.total + 1
  {
    var e := AuditLog(tenant, actor, action, resource, resourceId);
    var db' := Audit(db, tenant, actor, action, resource, resourceId);
    var pred := (x: AuditLog) => x.tenantId == tenant;
    FilterAppend(db.auditLogs, [e], pred);
    assert Filter([e], pred) == [e] by {
      assert [e][1..] == [];
    }
    var all := TenantLogs(db'.auditLogs, tenant);
    assert all == TenantLogs(db.auditLogs, tenant) + [e];
    var (page, pageSize) := PageParams(q, "20");
    assert page == 1;
    assert Paginate(page, pageSize) == Page(0, ClampPageSize(pageSize));
  }

  /** With no paging in the query, tenants and users come ten to a page and
      audit entries twenty. */
  lemma DefaultPaging(q: QueryString)
    requires "page" !in q && "page_size" !in q
    ensures PageParams(q, "10") == (1, 10)
    ensures PageParams(q, "20") == (1, 20)
  {
    DefaultsParse();
  }
}
