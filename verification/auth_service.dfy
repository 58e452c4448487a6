/** Registration, login and tenant creation (`service/auth_service.go`).
    Passwords are hashed and compared through `Bcrypt`. */
module AuthService {
  import opened Wrappers
  import opened Seqs
  import opened Entities
  import opened Memberships
  import opened Bcrypt

  const EmailTaken := "user with this email already exists"
  const InvalidCredentials := "invalid email or password"
  const AccountInactive := "user account is inactive"
  const AlreadyMember := "user already belongs to this tenant"

  /** `UserRepository.FindByEmail`: the user with this email (the column is
      unique). */
  function FindUserByEmail(users: seq<User>, email: string): (r: Option<User>)
    ensures r.Some? <==> exists k :: 0 <= k < |users| && users[k].email == email
    ensures r.Some? ==> r.value in users && r.value.email == email
  {
    if |users| == 0 then None
    else if users[0].email == email then Some(users[0])
    else
      var r := FindUserByEmail(users[1..], email);
      assert forall k :: 1 <= k < |users| ==> users[k] == users[1..][k - 1];
      r
  }

  /** `Register`: a taken email is refused, then a password bcrypt
      refuses; otherwise an active user with the hashed password is
      inserted under a fresh key. */
  function Register(db: Db, email: string, password: string, fullName: string): (r: Result<(Db, User)>)
    ensures r.Err? <==> FindUserByEmail(db.users, email).Some? || |Utf8(password)| > MaxPasswordBytes
    ensures FindUserByEmail(db.users, email).Some? ==> r == Err(EmailTaken)
    ensures FindUserByEmail(db.users, email).None? && |Utf8(password)| > MaxPasswordBytes ==> r == Err(PasswordTooLong)
    ensures r.Ok? ==> var (db', u) := r.value;
              && u == User(db.nextId, email, HashOf(password), fullName, true)
              && db' == db.(users := db.users + [u], nextId := db.nextId + 1)
  {
    if FindUserByEmail(db.users, email).Some? then Err(EmailTaken)
    else
      var hash :- GenerateFromPassword(password);
      var u := User(db.nextId, email, hash, fullName, true);
      Ok((db.(users := db.users + [u], nextId := db.nextId + 1), u))
  }

  /** `Login`: an unknown email and a wrong password give the same error;
      an inactive account is refused before the password is compared. */
  function Login(db: Db, email: string, password: string): (r: Result<User>)
    ensures FindUserByEmail(db.users, email).None? ==> r == Err(InvalidCredentials)
    ensures FindUserByEmail(db.users, email).Some? && !FindUserByEmail(db.users, email).value.isActive ==>
              r == Err(AccountInactive)
    ensures r.Ok? <==> (&& FindUserByEmail(db.users, email).Some?
                        && FindUserByEmail(db.users, email).value.isActive
                        && Verify(FindUserByEmail(db.users, email).value.passwordHash, password))
    ensures r.Ok? ==> r.value in db.users && r.value.email == email && r.value.isActive
    ensures r.Err? ==> r.msg == InvalidCredentials || r.msg == AccountInactive
  {
    match FindUserByEmail(db.users, email)
    case None => Err(InvalidCredentials)
    case Some(u) =>
      if !u.isActive then Err(AccountInactive)
      else if !Verify(u.passwordHash, password) then Err(InvalidCredentials)
      else Ok(u)
  }

  /** A freshly registered user logs in with every password whose first
      72 bytes, as the key schedule reads them, are the registered one's;
      without NUL characters that is the password given and no other. */
  lemma RegisterThenLogin(db: Db, email: string, password: string, fullName: string, attempt: string)
    requires Register(db, email, password, fullName).Ok?
    ensures var (db', u) := Register(db, email, password, fullName).value;
            Login(db', email, attempt) == if Key(attempt) == Key(password) then Ok(u) else Err(InvalidCredentials)
    ensures '\0' !in password && '\0' !in attempt && |Utf8(attempt)| <= MaxPasswordBytes ==>
              (Login(Register(db, email, password, fullName).value.0, email, attempt).Ok? <==> attempt == password)
  {
    var (db', u) := Register(db, email, password, fullName).value;
    assert db'.users[|db.users|] == u;
    var found := FindUserByEmail(db'.users, email);
    var k :| 0 <= k < |db'.users| && db'.users[k] == found.value;
    if k < |db.users| {
      assert false;
    }
    assert found == Some(u);
    VerifyHashOf(password, attempt);
    if '\0' !in password && '\0' !in attempt && |Utf8(attempt)| <= MaxPasswordBytes {
      OnlyThePasswordVerifies(password, attempt);
    }
  }

  /** The result of `CreateTenantForUser`: the database afterwards (a
      failure can leave keys consumed) and the tenant or the error. */
  datatype TenantCreation = TenantCreation(db: Db, result: Result<Tenant>)

  /** `CreateTenantForUser`: an active tenant is inserted, then the user's
      admin membership.  `membershipFailure` is the database's answer to
      the second insert; when it fails the tenant is deleted again. */
  function CreateTenantForUser(db: Db, userId: nat, tenantName: string, membershipFailure: Option<string>)
    : (r: TenantCreation)
    ensures membershipFailure.None? ==>
              && r.result == Ok(Tenant(db.nextId, tenantName, "active"))
              && r.db.tenants == db.tenants + [r.result.value]
              && r.db.memberships == db.memberships + [Membership(db.nextId + 1, db.nextId, userId, "admin")]
              && r.db == db.(tenants := r.db.tenants, memberships := r.db.memberships, nextId := db.nextId + 2)
    ensures membershipFailure.Some? ==>
              && r.result == Err(membershipFailure.value)
              && r.db == db.(tenants := r.db.tenants, nextId := db.nextId + 1)
              && forall x :: x in r.db.tenants <==> x in db.tenants && x.id != db.nextId
  {
    var t := Tenant(db.nextId, tenantName, "active");
    var withTenant := db.(tenants := db.tenants + [t], nextId := db.nextId + 1);
    match membershipFailure
    case Some(e) =>
      var rolledBack := Filter(withTenant.tenants, (x: Tenant) => x.id != t.id);
      TenantCreation(withTenant.(tenants := rolledBack), Err(e))
    case None =>
      var (db', _) := CreateMembership(withTenant, t.id, userId, "admin");
      TenantCreation(db', Ok(t))
  }

  /** In a well-formed database the rollback restores the tenant table
      exactly. */
  lemma RollbackRestoresTenants(db: Db, userId: nat, tenantName: string, failure: string)
    requires Valid(db)
    ensures CreateTenantForUser(db, userId, tenantName, Some(failure)).db == db.(nextId := db.nextId + 1)
  {
    NoTenantWithKey(db.tenants, Tenant(db.nextId, tenantName, "active"), db.nextId);
  }

  /** Deleting the new key again leaves the old tenants, as long as none
      of them already used that key. */
  lemma {:induction false} NoTenantWithKey(tenants: seq<Tenant>, t: Tenant, nextId: nat)
    requires t.id == nextId
    ensures (forall k :: 0 <= k < |tenants| ==> tenants[k].id < nextId) ==>
              Filter(tenants + [t], (x: Tenant) => x.id != t.id) == tenants
    decreases |tenants|
  {
    if forall k :: 0 <= k < |tenants| ==> tenants[k].id < nextId {
      if |tenants| == 0 {
        assert Filter([t], (x: Tenant) => x.id != t.id) == Filter([t][1..], (x: Tenant) => x.id != t.id);
      } else {
        assert (tenants + [t])[1..] == tenants[1..] + [t];
        NoTenantWithKey(tenants[1..], t, nextId);
        assert tenants[0].id < nextId;
        assert tenants == [tenants[0]] + tenants[1..];
      }
    }
  }

  /** The creator is the new tenant's admin, provided no membership
      already names the key the tenant receives. */
  lemma CreatorIsAdmin(db: Db, userId: nat, tenantName: string)
    requires forall k :: 0 <= k < |db.memberships| ==> db.memberships[k].tenantId < db.nextId
    ensures var r := CreateTenantForUser(db, userId, tenantName, None);
            FindByTenantAndUser(r.db.memberships, r.result.value.id, userId) ==
              Some(Membership(db.nextId + 1, db.nextId, userId, "admin"))
  {
    var r := CreateTenantForUser(db, userId, tenantName, None);
    var m := Membership(db.nextId + 1, db.nextId, userId, "admin");
    assert r.db.memberships[|db.memberships|] == m;
    var found := FindByTenantAndUser(r.db.memberships, db.nextId, userId).value;
    var k :| 0 <= k < |r.db.memberships| && r.db.memberships[k] == found;
    if k < |db.memberships| {
      assert false;
    }
  }

  /** `AddUserToTenant`: an existing membership of the pair is refused;
      otherwise one with the given role is inserted. */
  function AddUserToTenant(db: Db, tenant: nat, user: nat, role: string): (r: Result<Db>)
    ensures r.Err? <==> FindByTenantAndUser(db.memberships, tenant, user).Some?
    ensures r.Err? ==> r.msg == AlreadyMember
    ensures r.Ok? ==> r.value == db.(memberships := db.memberships + [Membership(db.nextId, tenant, user, role)],
                                     nextId := db.nextId + 1)
    ensures r.Ok? ==> CheckUserAccess(r.value.memberships, tenant, user)
  {
    if FindByTenantAndUser(db.memberships, tenant, user).Some? then Err(AlreadyMember)
    else Ok(CreateMembership(db, tenant, user, role).0)
  }

  /** Adding the same pair twice fails the second time. */
  lemma AddTwiceFails(db: Db, tenant: nat, user: nat, role: string, role': string)
    requires AddUserToTenant(db, tenant, user, role).Ok?
    ensures AddUserToTenant(AddUserToTenant(db, tenant, user, role).value, tenant, user, role') == Err(AlreadyMember)
  {
    var db' := AddUserToTenant(db, tenant, user, role).value;
    AccessIffFound(db'.memberships, tenant, user);
  }

  lemma RegisterKeepsValid(db: Db, email: string, password: string, fullName: string)
    requires Valid(db) && Register(db, email, password, fullName).Ok?
    ensures Valid(Register(db, email, password, fullName).value.0)
  {
    var (db', u) := Register(db, email, password, fullName).value;
    AppendBatchKeepsKeys(db.users, [u], UserKey, db.nextId, db'.nextId);
    ValidAfter(db, db');
  }

  lemma CreateTenantForUserKeepsValid(db: Db, userId: nat, tenantName: string, membershipFailure: Option<string>)
    requires Valid(db)
    ensures Valid(CreateTenantForUser(db, userId, tenantName, membershipFailure).db)
  {
    var r := CreateTenantForUser(db, userId, tenantName, membershipFailure);
    if membershipFailure.None? {
      NewTenantKeepsKeys(db, userId, tenantName);
      ValidAfter(db, r.db);
    } else {
      RollbackRestoresTenants(db, userId, tenantName, membershipFailure.value);
      ValidAfter(db, r.db);
    }
  }

  lemma NewTenantKeepsKeys(db: Db, userId: nat, tenantName: string)
    requires Valid(db)
    ensures var r := CreateTenantForUser(db, userId, tenantName, None);
            && KeysOk(r.db.tenants, TenantKey, r.db.nextId)
            && KeysOk(r.db.memberships, MembershipKey, r.db.nextId)
  {
    var t := Tenant(db.nextId, tenantName, "active");
    var m := Membership(db.nextId + 1, db.nextId, userId, "admin");
    AppendBatchKeepsKeys(db.tenants, [t], TenantKey, db.nextId, db.nextId + 2);
    AppendBatchKeepsKeys(db.memberships, [m], MembershipKey, db.nextId, db.nextId + 2);
  }
}
