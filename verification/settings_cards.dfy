/** The view logic of the settings page: the audit-log card
    (`AuditLogsCard.tsx`), the members card (`UsersManagementCard.tsx`)
    and its change-role dialog (`ChangeRoleDialog.tsx`). */
module SettingsCards {
  import opened Wrappers
  import opened Seqs
  import opened Text
  import opened Client
  import TenantStore

  // ---------------------------------------------------------------------
  // Audit logs
  // ---------------------------------------------------------------------

  /** The label of an action: `create_user` reads "Create User". */
  function FormatAction(action: string): string
  {
    TitleWords(action)
  }

  /** Underscores become spaces, the first letter of every word is
      upper-cased, and every other character is kept. */
  lemma FormatActionShape(action: string)
    ensures |FormatAction(action)| == |action|
    ensures forall i :: 0 <= i < |action| && action[i] == '_' ==> FormatAction(action)[i] == ' '
    ensures forall i :: 0 <= i < |action| && action[i] != '_' && (i == 0 || action[i - 1] == '_') ==>
              FormatAction(action)[i] == UpperChar(action[i])
    ensures forall i :: 0 < i < |action| && action[i] != '_' && action[i - 1] != '_' ==>
              FormatAction(action)[i] == action[i]
  {
    TitleWordsPointwise(action);
  }

  datatype BadgeColor = Green | Red | Blue | Gray

  /** `getActionBadgeColor`: the first matching rule wins. */
  function ActionBadge(action: string): (c: BadgeColor)
    ensures c == Green <==> Contains(action, "create") || Contains(action, "add")
    ensures c == Red <==> !(Contains(action, "create") || Contains(action, "add"))
                          && (Contains(action, "delete") || Contains(action, "remove"))
    ensures c == Blue <==> !(Contains(action, "create") || Contains(action, "add"))
                           && !(Contains(action, "delete") || Contains(action, "remove"))
                           && (Contains(action, "update") || Contains(action, "edit"))
  {
    if Contains(action, "create") || Contains(action, "add") then Green
    else if Contains(action, "delete") || Contains(action, "remove") then Red
    else if Contains(action, "update") || Contains(action, "edit") then Blue
    else Gray
  }

  /** The card's filter controls; "all" switches a select off. */
  datatype LogFilter = LogFilter(search: string, action: string, resource: string)

  /** A log is kept when the search occurs in its action or resource
      (ignoring case) or in its user id's digits, and the selects are
      "all" or equal to it. */
  predicate LogMatches(log: AuditEntry, f: LogFilter)
  {
    && (Contains(Lower(log.action), Lower(f.search)) || Contains(Lower(log.resource), Lower(f.search))
        || Contains(NatToString(log.userId), f.search))
    && (f.action == "all" || log.action == f.action)
    && (f.resource == "all" || log.resource == f.resource)
  }

  /** `filteredLogs`: the loaded page, narrowed in place. */
  function FilteredLogs(logs: seq<AuditEntry>, f: LogFilter): (r: seq<AuditEntry>)
    ensures forall l :: l in r <==> l in logs && LogMatches(l, f)
    ensures IsSubsequence(r, logs)
  {
    FilterIsSubsequence(logs, l => LogMatches(l, f));
    Filter(logs, l => LogMatches(l, f))
  }

  /** With nothing typed and both selects on "all", every loaded log is
      shown, in order. */
  lemma NoFilterShowsAll(logs: seq<AuditEntry>)
    ensures FilteredLogs(logs, LogFilter("", "all", "all")) == logs
  {
    forall l | l in logs
      ensures LogMatches(l, LogFilter("", "all", "all"))
    {
      EmptyIsContained(Lower(l.action));
    }
    FilterAll(logs, l => LogMatches(l, LogFilter("", "all", "all")));
  }

  function Actions(logs: seq<AuditEntry>): (r: seq<string>)
    ensures |r| == |logs| && forall k :: 0 <= k < |logs| ==> r[k] == logs[k].action
  {
    if |logs| == 0 then [] else [logs[0].action] + Actions(logs[1..])
  }

  function Resources(logs: seq<AuditEntry>): (r: seq<string>)
    ensures |r| == |logs| && forall k :: 0 <= k < |logs| ==> r[k] == logs[k].resource
  {
    if |logs| == 0 then [] else [logs[0].resource] + Resources(logs[1..])
  }

  /** The options of the action select: each action of the loaded logs
      exactly once. */
  function UniqueActions(logs: seq<AuditEntry>): (r: seq<string>)
    ensures NoDuplicates(r)
    ensures forall a :: a in r <==> exists l :: l in logs && l.action == a
  {
    var acts := Actions(logs);
    assert forall a :: a in acts <==> exists l :: l in logs && l.action == a by {
      forall a ensures a in acts <==> exists l :: l in logs && l.action == a {
        if a in acts {
          var k :| 0 <= k < |acts| && acts[k] == a;
          assert logs[k] in logs;
        }
        if exists l :: l in logs && l.action == a {
          var l :| l in logs && l.action == a;
          var k :| 0 <= k < |logs| && logs[k] == l;
          assert acts[k] == a;
        }
      }
    }
    Dedup(acts)
  }

  /** The options of the resource select: each resource once. */
  function UniqueResources(logs: seq<AuditEntry>): (r: seq<string>)
    ensures NoDuplicates(r)
    ensures forall a :: a in r <==> exists l :: l in logs && l.resource == a
  {
    var res := Resources(logs);
    assert forall a :: a in res <==> exists l :: l in logs && l.resource == a by {
      forall a ensures a in res <==> exists l :: l in logs && l.resource == a {
        if a in res {
          var k :| 0 <= k < |res| && res[k] == a;
          assert logs[k] in logs;
        }
        if exists l :: l in logs && l.resource == a {
          var l :| l in logs && l.resource == a;
          var k :| 0 <= k < |logs| && logs[k] == l;
          assert res[k] == a;
        }
      }
    }
    Dedup(res)
  }

  /** Choosing an option the select offers never empties the card on its
      own: the log it came from is still shown. */
  lemma OfferedActionKeepsItsLog(logs: seq<AuditEntry>, l: AuditEntry)
    requires l in logs
    ensures l.action in UniqueActions(logs)
    ensures l in FilteredLogs(logs, LogFilter("", l.action, "all"))
  {
    EmptyIsContained(Lower(l.action));
  }

  /** The card's pager: page `currentPage` of the log slice's page count. */
  datatype Pager = Pager(previousDisabled: bool, nextDisabled: bool)

  function LogsPager(currentPage: int, p: TenantStore.PageSlice): (g: Pager)
    ensures g.previousDisabled <==> currentPage == 1
    ensures p.pageSize > 0 ==> (g.nextDisabled <==> currentPage * p.pageSize >= p.total)
  {
    NextDisabledCoversTotal(currentPage, p.total, p.pageSize);
    Pager(PreviousDisabled(currentPage), NextDisabled(currentPage, p.total, p.pageSize))
  }

  /** The card loads page `currentPage` with twenty entries per page. */
  function LoadLogs(s: TenantStore.TenantStoreState, currentPage: int, resp: Answer<TenantStore.LogsResponse>)
    : (r: Step<TenantStore.TenantStoreState, ()>)
    ensures r.requests == [Get("/tenant/audit-logs", map["page" := Num(currentPage), "page_size" := Num(20)])]
    ensures r.state.pagination.users == s.pagination.users
  {
    TenantStore.FetchAuditLogs(s, currentPage, 20, resp)
  }

  // ---------------------------------------------------------------------
  // Members
  // ---------------------------------------------------------------------

  /** The members card's controls: the search box and the role select. */
  datatype UserFilter = UserFilter(search: string, role: string)

  /** A member is kept when the search occurs (ignoring case) in the
      preloaded user's name or email and the role select is "all" or
      equal.  Without a preloaded user the optional chain yields
      `undefined`, which never matches. */
  predicate UserMatches(tu: TenantUser, f: UserFilter)
  {
    && tu.user.Some?
    && (Contains(Lower(tu.user.value.fullName), Lower(f.search)) || Contains(Lower(tu.user.value.email), Lower(f.search)))
    && (f.role == "all" || tu.role == f.role)
  }

  function FilteredUsers(users: seq<TenantUser>, f: UserFilter): (r: seq<TenantUser>)
    ensures forall u :: u in r <==> u in users && UserMatches(u, f)
    ensures IsSubsequence(r, users)
  {
    FilterIsSubsequence(users, u => UserMatches(u, f));
    Filter(users, u => UserMatches(u, f))
  }

  /** An empty search hides exactly the members without a preloaded user
      (when the role select is "all"). */
  lemma EmptySearchHidesOnlyBareMembers(users: seq<TenantUser>, tu: TenantUser)
    requires tu in users
    ensures tu in FilteredUsers(users, UserFilter("", "all")) <==> tu.user.Some?
  {
    if tu.user.Some? {
      EmptyIsContained(Lower(tu.user.value.fullName));
    }
  }

  function UsersPager(currentPage: int, p: TenantStore.PageSlice): (g: Pager)
    ensures g.previousDisabled <==> currentPage == 1
    ensures p.pageSize > 0 ==> (g.nextDisabled <==> currentPage * p.pageSize >= p.total)
  {
    LogsPager(currentPage, p)
  }

  /** The card loads page `currentPage` with twenty members per page. */
  function LoadUsers(s: TenantStore.TenantStoreState, currentPage: int, resp: Answer<TenantStore.UsersResponse>)
    : (r: Step<TenantStore.TenantStoreState, ()>)
    ensures r.requests == [Get("/tenant/users", map["page" := Num(currentPage), "page_size" := Num(20)])]
    ensures r.state.pagination.logs == s.pagination.logs
  {
    TenantStore.FetchTenantUsers(s, currentPage, 20, resp)
  }

  // ---------------------------------------------------------------------
  // Change-role dialog
  // ---------------------------------------------------------------------

  /** The selection the dialog opens with, as written.
      `UsersManagementCard` renders `ChangeRoleDialog` once a member has
      been picked for either dialog, and from then on keeps it mounted
      with the last picked member. The dialog only hides itself while
      closed. So `useState(user.role)` is read on that first mount alone,
      and every later opening finds the radio the previous one left
      checked. `kept` is that radio, `None` before the first mount. */
  function OpenedSelectionAsWritten(kept: Option<string>, tu: TenantUser): (selected: string)
    ensures kept.None? ==> selected == tu.role
    ensures kept.Some? ==> selected == kept.value
  {
    match kept
    case None => tu.role
    case Some(role) => role
  }

  /** One opening as written: the dialog opens for `tu`, the user clicks
      the radio `click` (if any) and closes it.  The radio left checked is
      kept for the next opening. */
  function AfterOpening(kept: Option<string>, tu: TenantUser, click: Option<string>): (after: Option<string>)
    ensures after.Some?
    ensures click.Some? ==> after.value == click.value
    ensures click.None? && kept.Some? ==> after == kept
    ensures click.None? && kept.None? ==> after == Some(tu.role)
  {
    Some(if click.Some? then click.value else OpenedSelectionAsWritten(kept, tu))
  }

  /** As written: open the dialog for one member and cancel it without a
      click, then open it for a member with another role.  The first
      member's role is still checked, "Update Role" is enabled, and
      submitting straight away sends a PUT that gives the second member
      the first member's role. */
  lemma StaleSelectionSendsPut(s: TenantStore.TenantStoreState, first: TenantUser, second: TenantUser,
                               resp: Answer<()>, refetch: Answer<TenantStore.UsersResponse>)
    requires first.role != second.role
    ensures var selected := OpenedSelectionAsWritten(AfterOpening(None, first, None), second);
            && selected == first.role
            && !SubmitDisabled(second, selected, false)
            && SubmitRole(s, second, selected, resp, refetch).step.Some?
            && SubmitRole(s, second, selected, resp, refetch).step.value.requests[0]
               == Request(PUT, ItemPath("/tenant/users", second.userId) + "/role", map[], map["role" := Str(first.role)])
  {
  }

  /** The evidently intended opening: the member's own role, whatever an
      earlier opening left checked (a `key` per member on the dialog). */
  function InitialSelection(tu: TenantUser): string { tu.role }

  /** The submit button: off while unchanged or loading. */
  function SubmitDisabled(tu: TenantUser, selected: string, isLoading: bool): (d: bool)
    ensures !d <==> selected != tu.role && !isLoading
  {
    isLoading || selected == tu.role
  }

  /** After a submission: whether the dialog is still open, and the
      store's step (`None` when no request was made). */
  datatype RoleSubmit = RoleSubmit(open: bool, step: Option<Step<TenantStore.TenantStoreState, ()>>)

  /** `handleSubmit`: an unchanged role closes the dialog without a
      request; otherwise `updateUserRole(user.user_id, selected)`, which
      closes the dialog only when it resolves. */
  function SubmitRole(s: TenantStore.TenantStoreState, tu: TenantUser, selected: string,
                      resp: Answer<()>, refetch: Answer<TenantStore.UsersResponse>): (r: RoleSubmit)
    ensures selected == tu.role ==> r == RoleSubmit(false, None)
    ensures selected != tu.role ==>
              && r.step == Some(TenantStore.UpdateUserRole(s, tu.userId, selected, resp, refetch))
              && (r.open <==> r.step.value.result.Rejected?)
  {
    if selected == tu.role then RoleSubmit(false, None)
    else
      var st := TenantStore.UpdateUserRole(s, tu.userId, selected, resp, refetch);
      RoleSubmit(st.result.Rejected?, Some(st))
  }

  /** With the dialog reset for each member, submitting straight away,
      before touching the radios, never sends a request; a changed role
      sends one PUT for the member's user id. */
  lemma SubmitRoleRequests(s: TenantStore.TenantStoreState, tu: TenantUser, selected: string,
                           resp: Answer<()>, refetch: Answer<TenantStore.UsersResponse>)
    ensures SubmitRole(s, tu, InitialSelection(tu), resp, refetch).step.None?
    ensures selected != tu.role ==>
              SubmitRole(s, tu, selected, resp, refetch).step.value.requests[0]
                == Request(PUT, ItemPath("/tenant/users", tu.userId) + "/role", map[], map["role" := Str(selected)])
  {
  }
}
