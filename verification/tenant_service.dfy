/** Tenant administration (`service/tenant_service.go` over
    `repository/tenant_repository.go` and the membership repository). */
module TenantService {
  import opened Wrappers
  import opened Seqs
  import opened Entities
  import opened Memberships
  import opened AuthService
  import opened Bcrypt

  const InvalidRole := "invalid role. must be: admin, manager, or member"
  const PasswordRequired := "password is required for new user"
  const UserInTenant := "user already exists in this tenant"

  /** The roles a membership may be given through `AddUser`. */
  const Roles: seq<string> := ["admin", "manager", "member"]

  /** `TenantRepository.FindByID`. */
  function FindTenant(tenants: seq<Tenant>, id: nat): (r: Option<Tenant>)
    ensures r.Some? <==> exists k :: 0 <= k < |tenants| && tenants[k].id == id
    ensures r.Some? ==> r.value in tenants && r.value.id == id
  {
    if |tenants| == 0 then None
    else if tenants[0].id == id then Some(tenants[0])
    else
      var r := FindTenant(tenants[1..], id);
      assert forall k :: 1 <= k < |tenants| ==> tenants[k] == tenants[1..][k - 1];
      r
  }

  /** `TenantRepository.Update` (GORM `Save`): the row with the key is
      overwritten in full. */
  function SaveTenant(tenants: seq<Tenant>, t: Tenant): (r: seq<Tenant>)
    ensures |r| == |tenants|
    ensures forall k :: 0 <= k < |tenants| ==> r[k] == if tenants[k].id == t.id then t else tenants[k]
  {
    if |tenants| == 0 then []
    else [if tenants[0].id == t.id then t else tenants[0]] + SaveTenant(tenants[1..], t)
  }

  /** `GetTenantUsers`: the membership repository's page of the tenant. */
  function GetTenantUsers(db: Db, tenant: nat, page: int, pageSize: int): (r: (seq<Membership>, nat))
    ensures r.1 == Count(db.memberships, (m: Membership) => m.tenantId == tenant)
    ensures forall m :: m in r.0 ==> m in db.memberships && m.tenantId == tenant
  {
    FindUsersByTenant(db.memberships, tenant, page, pageSize)
  }

  /** `AddUser`: the role is checked first; an unknown email creates an
      active user (a password is then required, and bcrypt must accept
      it), a known one is reused;
      the user must not already belong to the tenant.  `lookupFailure` is
      a database error other than "not found" from the email lookup.  The
      answer carries the database afterwards, the user and whether the
      user is new. */
  function AddUser(db: Db, tenant: nat, email: string, password: string, fullName: string, role: string,
                   lookupFailure: Option<string>): (r: (Db, Result<(User, bool)>))
    ensures role !in Roles ==> r == (db, Err(InvalidRole))
    ensures role in Roles && lookupFailure.Some? ==> r == (db, Err(lookupFailure.value))
    ensures (role in Roles && lookupFailure.None? && FindUserByEmail(db.users, email).None? && password == "") ==>
              r == (db, Err(PasswordRequired))
    ensures (role in Roles && lookupFailure.None? && FindUserByEmail(db.users, email).None?
             && |Utf8(password)| > MaxPasswordBytes) ==>
              r == (db, Err(PasswordTooLong))
    ensures (role in Roles && lookupFailure.None? && FindUserByEmail(db.users, email).Some?
             && FindByTenantAndUser(db.memberships, tenant, FindUserByEmail(db.users, email).value.id).Some?) ==>
              r == (db, Err(UserInTenant))
    ensures r.1.Ok? ==> var (user, isNew) := r.1.value;
              && role in Roles && lookupFailure.None?
              && (isNew <==> FindUserByEmail(db.users, email).None?)
              && (isNew ==> && user == User(db.nextId, email, HashOf(password), fullName, true) && password != ""
                            && |Utf8(password)| <= MaxPasswordBytes)
              && (!isNew ==> user == FindUserByEmail(db.users, email).value)
              && FindByTenantAndUser(db.memberships, tenant, user.id).None?
              && r.0.nextId > 0
              && r.0.memberships == db.memberships + [Membership(r.0.nextId - 1, tenant, user.id, role)]
              && CheckUserAccess(r.0.memberships, tenant, user.id)
  {
    if role !in Roles then (db, Err(InvalidRole))
    else if lookupFailure.Some? then (db, Err(lookupFailure.value))
    else
      var found := FindUserByEmail(db.users, email);
      if found.None? && password == "" then (db, Err(PasswordRequired))
      else if found.None? && GenerateFromPassword(password).Err? then (db, Err(GenerateFromPassword(password).msg))
      else
        var (db1, user) := Joining(db, email, password, fullName);
        if FindByTenantAndUser(db1.memberships, tenant, user.id).Some? then (db1, Err(UserInTenant))
        else (CreateMembership(db1, tenant, user.id, role).0, Ok((user, found.None?)))
  }

  /** The user `AddUser` adds and the database once that user exists: the
      known user as it is, or a new active user under the next key. */
  function Joining(db: Db, email: string, password: string, fullName: string): (r: (Db, User))
  {
    match FindUserByEmail(db.users, email)
    case Some(u) => (db, u)
    case None =>
      var u := User(db.nextId, email, HashOf(password), fullName, true);
      (db.(users := db.users + [u], nextId := db.nextId + 1), u)
  }

  lemma JoiningKeepsValid(db: Db, email: string, password: string, fullName: string)
    requires Valid(db)
    ensures Valid(Joining(db, email, password, fullName).0)
  {
    if FindUserByEmail(db.users, email).None? {
      var (db1, u) := Joining(db, email, password, fullName);
      AppendBatchKeepsKeys(db.users, [u], UserKey, db.nextId, db1.nextId);
      ValidAfter(db, db1);
    }
  }

  /** A new user whose password bcrypt accepts always lands in the
      tenant, as long as no membership names a key not yet handed out; a
      password over 72 bytes is refused. */
  lemma NewUserIsAdded(db: Db, tenant: nat, email: string, password: string, fullName: string, role: string)
    requires forall k :: 0 <= k < |db.memberships| ==> db.memberships[k].userId < db.nextId
    requires role in Roles && password != "" && FindUserByEmail(db.users, email).None?
    ensures var r := AddUser(db, tenant, email, password, fullName, role, None);
            r.1 == if |Utf8(password)| <= MaxPasswordBytes
                   then Ok((User(db.nextId, email, HashOf(password), fullName, true), true))
                   else Err(PasswordTooLong)
  {
  }

  /** `RemoveUserFromTenant`: the pair's membership goes, whether or not
      there was one; nothing else changes. */
  function RemoveUserFromTenant(db: Db, tenant: nat, user: nat): (r: Db)
    ensures r == db.(memberships := r.memberships)
    ensures forall m :: m in r.memberships <==> m in db.memberships && !IsPair(m, tenant, user)
  {
    db.(memberships := DeleteMembership(db.memberships, tenant, user))
  }

  /** `UpdateUserRole`: any role string is written to the pair's
      membership; a missing membership is not an error. */
  function UpdateUserRole(db: Db, tenant: nat, user: nat, role: string): (r: Db)
    ensures r == db.(memberships := r.memberships) && |r.memberships| == |db.memberships|
    ensures forall k :: 0 <= k < |db.memberships| ==>
              r.memberships[k] == if IsPair(db.memberships[k], tenant, user) then db.memberships[k].(role := role)
                                  else db.memberships[k]
  {
    db.(memberships := UpdateRole(db.memberships, tenant, user, role))
  }

  /** After a successful `AddUser`, removing the user from the tenant takes
      the access away again. */
  lemma AddThenRemove(db: Db, tenant: nat, email: string, password: string, fullName: string, role: string)
    requires AddUser(db, tenant, email, password, fullName, role, None).1.Ok?
    ensures var (db', res) := AddUser(db, tenant, email, password, fullName, role, None);
            && CheckUserAccess(db'.memberships, tenant, res.value.0.id)
            && !CheckUserAccess(RemoveUserFromTenant(db', tenant, res.value.0.id).memberships, tenant, res.value.0.id)
  {
    var (db', res) := AddUser(db, tenant, email, password, fullName, role, None);
    DeleteRevokesAccess(db'.memberships, tenant, res.value.0.id, tenant, res.value.0.id);
  }

  lemma AddUserKeepsValid(db: Db, tenant: nat, email: string, password: string, fullName: string, role: string,
                          lookupFailure: Option<string>)
    requires Valid(db)
    ensures Valid(AddUser(db, tenant, email, password, fullName, role, lookupFailure).0)
  {
    var r := AddUser(db, tenant, email, password, fullName, role, lookupFailure);
    var found := FindUserByEmail(db.users, email);
    if role in Roles && lookupFailure.None? && (found.Some? || (password != "" && GenerateFromPassword(password).Ok?)) {
      var (db1, user) := Joining(db, email, password, fullName);
      JoiningKeepsValid(db, email, password, fullName);
      if FindByTenantAndUser(db1.memberships, tenant, user.id).None? {
        CreateMembershipKeepsValid(db1, tenant, user.id, role);
      }
    }
  }

  lemma RemoveUserKeepsValid(db: Db, tenant: nat, user: nat)
    requires Valid(db)
    ensures Valid(RemoveUserFromTenant(db, tenant, user))
  {
    FilterKeepsKeys(db.memberships, MembershipKey, db.nextId, (m: Membership) => !IsPair(m, tenant, user));
    ValidAfter(db, RemoveUserFromTenant(db, tenant, user));
  }

  lemma UpdateUserRoleKeepsValid(db: Db, tenant: nat, user: nat, role: string)
    requires Valid(db)
    ensures Valid(UpdateUserRole(db, tenant, user, role))
  {
    var db' := UpdateUserRole(db, tenant, user, role);
    SameKeysKeepsKeys(db.memberships, db'.memberships, MembershipKey, db.nextId);
    ValidAfter(db, db');
  }
}
