/** Client-side access control: the role hierarchy shared by the route
    guard (`ProtectedRoute.tsx`) and the navigation sidebar (`Sidebar.tsx`). */
module Access {
  import opened Wrappers
  import opened Seqs
  import opened Text

  /** The roles a tenant membership can carry. */
  datatype Role = Admin | Manager | Member

  function RoleName(r: Role): (s: string)
  {
    match r
    case Admin => "admin"
    case Manager => "manager"
    case Member => "member"
  }

  /** The inverse of `RoleName` on the three role names. */
  function ParseRole(s: string): (r: Option<Role>)
    ensures r.Some? ==> RoleName(r.value) == s
  {
    if s == "admin" then Some(Admin)
    else if s == "manager" then Some(Manager)
    else if s == "member" then Some(Member)
    else None
  }

  lemma ParseRoleName(r: Role)
    ensures ParseRole(RoleName(r)) == Some(r)
  {
  }

  /** `roleHierarchy[r]` for the three names the hierarchy lists. */
  function Rank(r: Role): (n: nat)
    ensures 1 <= n <= 3
    ensures n == 3 <==> r == Admin
  {
    match r
    case Admin => 3
    case Manager => 2
    case Member => 1
  }

  /** `role ? roleHierarchy[role] : 0` for the role string the store holds:
      0 when no role (or the empty string) is held, the rank of a listed
      name, and `None` (JavaScript's `undefined`) for any other string,
      such as a role the server accepted on a membership update. */
  function Level(role: Option<string>): (l: Option<nat>)
    ensures role.None? || role == Some("") ==> l == Some(0)
    ensures forall r :: role == Some(RoleName(r)) ==> l == Some(Rank(r))
    ensures l.None? <==> role.Some? && role.value != "" && ParseRole(role.value).None?
    ensures l.Some? ==> l.value <= 3
  {
    match role
    case None => Some(0)
    case Some(s) =>
      if s == "" then Some(0)
      else match ParseRole(s)
        case Some(r) => Some(Rank(r))
        case None => None
  }

  /** JavaScript's `level < required`: false when the level is undefined. */
  predicate Below(level: Option<nat>, required: nat)
  {
    level.Some? && level.value < required
  }

  /** JavaScript's `level >= required`: also false when the level is
      undefined. */
  predicate Reaches(level: Option<nat>, required: nat)
  {
    level.Some? && level.value >= required
  }

  // ---------------------------------------------------------------------
  // ProtectedRoute
  // ---------------------------------------------------------------------

  datatype RouteDecision = Render | Redirect(to: string)

  /** `ProtectedRoute`: sign-in first, then the hierarchy check, which
      redirects only when the user's level is known and below the
      requirement. */
  function ProtectedRoute(isAuthenticated: bool, role: Option<string>, requiredRole: Option<Role>): (d: RouteDecision)
    ensures !isAuthenticated ==> d == Redirect("/login")
    ensures isAuthenticated && requiredRole.None? ==> d == Render
    ensures isAuthenticated && requiredRole.Some? ==>
              (d == Render <==> Level(role).None? || Level(role).value >= Rank(requiredRole.value))
              && (d != Render ==> d == Redirect("/dashboard"))
  {
    if !isAuthenticated then Redirect("/login")
    else if requiredRole.Some? && Below(Level(role), Rank(requiredRole.value)) then Redirect("/dashboard")
    else Render
  }

  /** A known role that passes a requirement is passed by every role ranked
      at least as high. */
  lemma ProtectedRouteMonotone(role: Option<string>, higher: Option<string>, required: Option<Role>)
    requires ProtectedRoute(true, role, required) == Render
    requires Level(role).Some? && Level(higher).Some? && Level(higher).value >= Level(role).value
    ensures ProtectedRoute(true, higher, required) == Render
  {
  }

  /** Holding no role fails every requirement, and admin passes every one. */
  lemma ProtectedRouteExtremes(required: Role)
    ensures ProtectedRoute(true, None, Some(required)) == Redirect("/dashboard")
    ensures ProtectedRoute(true, Some(""), Some(required)) == Redirect("/dashboard")
    ensures ProtectedRoute(true, Some("admin"), Some(required)) == Render
  {
  }

  // ---------------------------------------------------------------------
  // Sidebar
  // ---------------------------------------------------------------------

  datatype NavItem = NavItem(name: string, href: string, requiredRole: Option<Role>)

  const Navigation: seq<NavItem> := [
    NavItem("Dashboard", "/dashboard", None),
    NavItem("Contacts", "/dashboard/contacts", None),
    NavItem("Settings", "/dashboard/settings", Some(Admin))
  ]

  /** `canAccess`: the sidebar's version of the hierarchy check, which
      shows a guarded item only when the user's level is known and reaches
      the requirement. */
  function CanAccess(item: NavItem, role: Option<string>): (ok: bool)
    ensures item.requiredRole.None? ==> ok
    ensures item.requiredRole.Some? ==>
              (ok <==> Level(role).Some? && Level(role).value >= Rank(item.requiredRole.value))
  {
    item.requiredRole.None? || Reaches(Level(role), Rank(item.requiredRole.value))
  }

  /** For a role the hierarchy knows (or no role at all) the sidebar shows
      an item exactly when the route guard renders a page with the item's
      requirement. For any other role string the guard renders every page
      while the sidebar hides every guarded item. */
  lemma CanAccessAgreesWithGuard(item: NavItem, role: Option<string>)
    ensures Level(role).Some? ==>
              (CanAccess(item, role) <==> ProtectedRoute(true, role, item.requiredRole) == Render)
    ensures Level(role).None? ==>
              && ProtectedRoute(true, role, item.requiredRole) == Render
              && (CanAccess(item, role) <==> item.requiredRole.None?)
  {
  }

  /** The role "owner" is not in the hierarchy: the guard lets its holder
      onto the admin-only settings page that the sidebar does not list. */
  lemma UnknownRoleSeesHiddenPage()
    ensures ProtectedRoute(true, Some("owner"), Some(Admin)) == Render
    ensures !CanAccess(Navigation[2], Some("owner"))
  {
  }

  /** The navigation entries a role sees, in menu order. */
  function VisibleItems(role: Option<string>): (items: seq<NavItem>)
    ensures forall it :: it in items <==> it in Navigation && CanAccess(it, role)
  {
    Filter(Navigation, it => CanAccess(it, role))
  }

  /** Settings appears only for admins; Dashboard and Contacts for everyone. */
  lemma SettingsOnlyForAdmins(role: Option<string>)
    ensures Navigation[2] in VisibleItems(role) <==> role == Some("admin")
    ensures Navigation[0] in VisibleItems(role) && Navigation[1] in VisibleItems(role)
  {
    assert Navigation[2] in Navigation;
    assert Navigation[0] in Navigation && Navigation[1] in Navigation;
  }

  /** `isActive`: the dashboard link needs the exact path; every other link
      is active under its prefix. */
  function IsActive(pathname: string, href: string): (active: bool)
    ensures href == "/dashboard" ==> (active <==> pathname == href)
    ensures href != "/dashboard" ==> (active <==> StartsWith(pathname, href))
  {
    if href == "/dashboard" then pathname == href else StartsWith(pathname, href)
  }

  /** On a contacts page the Contacts link is active and the Dashboard link
      is not, although "/dashboard" is a prefix of the path. */
  lemma ContactsPathHighlightsOneLink(rest: string)
    ensures IsActive("/dashboard/contacts" + rest, "/dashboard/contacts")
    ensures !IsActive("/dashboard/contacts" + rest, "/dashboard")
  {
    var p := "/dashboard/contacts" + rest;
    assert p[..|"/dashboard/contacts"|] == "/dashboard/contacts";
    assert |p| != |"/dashboard"|;
  }
}
