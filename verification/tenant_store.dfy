/** The client's tenant store (`stores/tenantStore.ts`): the tenant, its
    members and its audit log, each list with its own pagination slice. */
module TenantStore {
  import opened Wrappers
  import opened Client

  datatype PageSlice = PageSlice(page: int, pageSize: int, total: int)

  /** The two independent slices: one for the members list, one for the
      audit log. */
  datatype TenantPagination = TenantPagination(users: PageSlice, logs: PageSlice)

  datatype TenantStoreState = TenantStoreState(
    tenantInfo: Option<ClientTenant>, tenantUsers: seq<TenantUser>, auditLogs: seq<AuditEntry>,
    isLoading: bool, error: Option<string>, pagination: TenantPagination)

  const Initial := TenantStoreState(None, [], [], false, None,
                                    TenantPagination(PageSlice(1, 20, 0), PageSlice(1, 20, 0)))

  /** The paged bodies of `GET /tenant/users` and `GET /tenant/audit-logs`. */
  datatype UsersResponse = UsersResponse(users: seq<TenantUser>, page: int, pageSize: int, total: int)
  datatype LogsResponse = LogsResponse(logs: seq<AuditEntry>, page: int, pageSize: int, total: int)

  function PageQuery(page: int, pageSize: int): Obj
  {
    map["page" := Num(page), "page_size" := Num(pageSize)]
  }

  /** `fetchTenantInfo()`. */
  function FetchTenantInfo(s: TenantStoreState, resp: Answer<ClientTenant>): (r: Step<TenantStoreState, ()>)
    ensures r.requests == [Get("/tenant", map[])]
    ensures !r.state.isLoading && r.state.pagination == s.pagination && r.state.tenantUsers == s.tenantUsers
    ensures resp.Answered? ==> r.state.tenantInfo == Some(resp.data) && r.state.error.None? && r.result == Resolved(())
    ensures resp.Failed? ==> && r.state.tenantInfo == s.tenantInfo && r.result == Rejected(resp.serverError)
                             && r.state.error == Some(ErrorMessage(resp.serverError, "Failed to fetch tenant info"))
  {
    var req := Get("/tenant", map[]);
    match resp
    case Answered(t) => Step(s.(tenantInfo := Some(t), isLoading := false, error := None), [req], Resolved(()))
    case Failed(e) => Step(s.(error := Some(ErrorMessage(e, "Failed to fetch tenant info")), isLoading := false), [req], Rejected(e))
  }

  /** `updateTenant(data)`: the answered tenant replaces the stored one;
      nothing is refetched. */
  function UpdateTenant(s: TenantStoreState, data: Obj, resp: Answer<ClientTenant>): (r: Step<TenantStoreState, ()>)
    ensures r.requests == [Request(PUT, "/tenant", map[], data)]
    ensures !r.state.isLoading && r.state.pagination == s.pagination && r.state.tenantUsers == s.tenantUsers
    ensures resp.Answered? ==> r.state.tenantInfo == Some(resp.data) && r.state.error.None? && r.result == Resolved(())
    ensures resp.Failed? ==> && r.state.tenantInfo == s.tenantInfo && r.result == Rejected(resp.serverError)
                             && r.state.error == Some(ErrorMessage(resp.serverError, "Failed to update tenant"))
  {
    var req := Request(PUT, "/tenant", map[], data);
    match resp
    case Answered(t) => Step(s.(tenantInfo := Some(t), isLoading := false, error := None), [req], Resolved(()))
    case Failed(e) => Step(s.(error := Some(ErrorMessage(e, "Failed to update tenant")), isLoading := false), [req], Rejected(e))
  }

  /** `fetchTenantUsers(page = 1, page_size = 20)`: only the members
      slice of the pagination changes. */
  function FetchTenantUsers(s: TenantStoreState, page: int, pageSize: int, resp: Answer<UsersResponse>)
    : (r: Step<TenantStoreState, ()>)
    ensures r.requests == [Get("/tenant/users", PageQuery(page, pageSize))]
    ensures !r.state.isLoading && r.state.pagination.logs == s.pagination.logs
    ensures r.state.auditLogs == s.auditLogs && r.state.tenantInfo == s.tenantInfo
    ensures resp.Answered? ==> && r.result == Resolved(()) && r.state.error.None?
                               && r.state.tenantUsers == resp.data.users
                               && r.state.pagination.users == PageSlice(resp.data.page, resp.data.pageSize, resp.data.total)
    ensures resp.Failed? ==> && r.result == Rejected(resp.serverError)
                             && r.state.tenantUsers == s.tenantUsers && r.state.pagination == s.pagination
                             && r.state.error == Some(ErrorMessage(resp.serverError, "Failed to fetch users"))
  {
    var req := Get("/tenant/users", PageQuery(page, pageSize));
    match resp
    case Answered(d) =>
      Step(s.(tenantUsers := d.users,
              pagination := s.pagination.(users := PageSlice(d.page, d.pageSize, d.total)),
              isLoading := false, error := None), [req], Resolved(()))
    case Failed(e) =>
      Step(s.(error := Some(ErrorMessage(e, "Failed to fetch users")), isLoading := false), [req], Rejected(e))
  }

  /** `fetchAuditLogs(page = 1, page_size = 20)`: only the audit-log
      slice of the pagination changes. */
  function FetchAuditLogs(s: TenantStoreState, page: int, pageSize: int, resp: Answer<LogsResponse>)
    : (r: Step<TenantStoreState, ()>)
    ensures r.requests == [Get("/tenant/audit-logs", PageQuery(page, pageSize))]
    ensures !r.state.isLoading && r.state.pagination.users == s.pagination.users
    ensures r.state.tenantUsers == s.tenantUsers && r.state.tenantInfo == s.tenantInfo
    ensures resp.Answered? ==> && r.result == Resolved(()) && r.state.error.None?
                               && r.state.auditLogs == resp.data.logs
                               && r.state.pagination.logs == PageSlice(resp.data.page, resp.data.pageSize, resp.data.total)
    ensures resp.Failed? ==> && r.result == Rejected(resp.serverError)
                             && r.state.auditLogs == s.auditLogs && r.state.pagination == s.pagination
                             && r.state.error == Some(ErrorMessage(resp.serverError, "Failed to fetch audit logs"))
  {
    var req := Get("/tenant/audit-logs", PageQuery(page, pageSize));
    match resp
    case Answered(d) =>
      Step(s.(auditLogs := d.logs,
              pagination := s.pagination.(logs := PageSlice(d.page, d.pageSize, d.total)),
              isLoading := false, error := None), [req], Resolved(()))
    case Failed(e) =>
      Step(s.(error := Some(ErrorMessage(e, "Failed to fetch audit logs")), isLoading := false), [req], Rejected(e))
  }

  /** The shared shape of the member mutations: the request, then on
      success `fetchTenantUsers` with the stored page and page size of
      the members slice.  A failure of either request is reported with
      the mutation's own fallback message and rethrown. */
  function MemberMutation(s: TenantStoreState, req: Request, resp: Answer<()>, refetch: Answer<UsersResponse>, fallback: string)
    : (r: Step<TenantStoreState, ()>)
    ensures !r.state.isLoading && r.state.pagination.logs == s.pagination.logs && r.state.auditLogs == s.auditLogs
    ensures resp.Failed? ==> && r.requests == [req]
                             && r.state == s.(isLoading := false, error := Some(ErrorMessage(resp.serverError, fallback)))
                             && r.result == Rejected(resp.serverError)
    ensures resp.Answered? ==>
              r.requests == [req, Get("/tenant/users", PageQuery(s.pagination.users.page, s.pagination.users.pageSize))]
    ensures resp.Answered? && refetch.Answered? ==>
              && r.result == Resolved(())
              && r.state == FetchTenantUsers(s, s.pagination.users.page, s.pagination.users.pageSize, refetch).state
    ensures resp.Answered? && refetch.Failed? ==>
              && r.result == Rejected(refetch.serverError)
              && r.state.error == Some(ErrorMessage(refetch.serverError, fallback))
              && r.state.tenantUsers == s.tenantUsers && r.state.pagination == s.pagination
  {
    match resp
    case Failed(e) => Step(s.(isLoading := false, error := Some(ErrorMessage(e, fallback))), [req], Rejected(e))
    case Answered(_) =>
      var f := FetchTenantUsers(s.(isLoading := true, error := None), s.pagination.users.page, s.pagination.users.pageSize, refetch);
      match f.result
      case Resolved(_) => Step(f.state.(isLoading := false), [req] + f.requests, Resolved(()))
      case Rejected(e) =>
        Step(f.state.(error := Some(ErrorMessage(e, fallback)), isLoading := false), [req] + f.requests, Rejected(e))
  }

  /** `addUser(data)`. */
  function AddUser(s: TenantStoreState, data: Obj, resp: Answer<()>, refetch: Answer<UsersResponse>): Step<TenantStoreState, ()>
  {
    MemberMutation(s, Request(POST, "/tenant/users", map[], data), resp, refetch, "Failed to add user")
  }

  /** The body `updateUserRole` sends. */
  function RoleBody(role: string): Obj { map["role" := Str(role)] }

  /** `updateUserRole(userId, role)`. */
  function UpdateUserRole(s: TenantStoreState, userId: nat, role: string, resp: Answer<()>, refetch: Answer<UsersResponse>)
    : Step<TenantStoreState, ()>
  {
    MemberMutation(s, Request(PUT, ItemPath("/tenant/users", userId) + "/role", map[], RoleBody(role)), resp, refetch,
                   "Failed to update user role")
  }

  /** `removeUser(userId)`. */
  function RemoveUser(s: TenantStoreState, userId: nat, resp: Answer<()>, refetch: Answer<UsersResponse>): Step<TenantStoreState, ()>
  {
    MemberMutation(s, Request(DELETE, ItemPath("/tenant/users", userId), map[], map[]), resp, refetch, "Failed to remove user")
  }

  /** `clearError()`. */
  function ClearError(s: TenantStoreState): (r: TenantStoreState)
    ensures r.error.None? && r == s.(error := None)
  {
    s.(error := None)
  }

  /** Each member mutation, once its own request succeeds, reloads the
      members page being shown, and the audit-log slice is never touched. */
  lemma MemberMutationsRefetchShownPage(s: TenantStoreState, data: Obj, userId: nat, role: string,
                                        done: Answer<()>, refetch: Answer<UsersResponse>)
    requires done.Answered?
    ensures var shown := Get("/tenant/users", PageQuery(s.pagination.users.page, s.pagination.users.pageSize));
            && AddUser(s, data, done, refetch).requests[1] == shown
            && UpdateUserRole(s, userId, role, done, refetch).requests[1] == shown
            && RemoveUser(s, userId, done, refetch).requests[1] == shown
    ensures UpdateUserRole(s, userId, role, done, refetch).requests[0].body["role"] == Str(role)
    ensures RemoveUser(s, userId, done, refetch).state.pagination.logs == s.pagination.logs
  {
  }

  /** The two lists page independently: loading one page of either list,
      in either order, leaves the other slice as it was. */
  lemma SlicesAreIndependent(s: TenantStoreState, up: int, us: int, lp: int, ls: int,
                             users: Answer<UsersResponse>, logs: Answer<LogsResponse>)
    ensures var a := FetchAuditLogs(FetchTenantUsers(s, up, us, users).state, lp, ls, logs).state;
            var b := FetchTenantUsers(FetchAuditLogs(s, lp, ls, logs).state, up, us, users).state;
            a.pagination == b.pagination && a.tenantUsers == b.tenantUsers && a.auditLogs == b.auditLogs
  {
  }
}
