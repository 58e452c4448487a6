/** The account endpoints (`handler/auth_handler.go`): registration, login,
    the caller's tenants, and switching tenant.  A token is modelled by the
    claims it is signed over; signing cannot fail here. */
module AuthHandler {
  import opened Wrappers
  import opened Seqs
  import opened Text
  import opened Entities
  import opened Strconv
  import opened Http
  import opened Memberships
  import opened Jwt
  import AuthService
  import Bcrypt

  const RegistrationSuccessful := "Registration successful"
  const LoginSuccessful := "Login successful"
  const NoTenant := "User not associated with any tenant"
  const SpecifiedTenantDenied := "Access denied to specified tenant"
  const InvalidTenantId := "Invalid tenant ID"
  const TenantDenied := "Access denied to this tenant"
  const FetchAccessFailed := "Failed to fetch tenant access"
  const TenantSwitched := "Tenant switched successfully"

  // ---------------------------------------------------------------------
  // Registration
  // ---------------------------------------------------------------------

  /** The body of `POST /auth/register` after JSON decoding. */
  datatype RegisterRequest = RegisterRequest(email: string, password: string, fullName: string, tenantName: string)

  /** Its tags: `Email` is `required,email`, `Password` is
      `required,min=6`, `FullName` and `TenantName` are `required`. */
  function RegisterFailures(validEmail: string -> bool): RegisterRequest -> seq<string>
  {
    (req: RegisterRequest) =>
      RequiredEmail("Email", req.email, validEmail)
      + (if req.password == "" then [RequiredFieldError("Password")]
         else if |req.password| < 6 then [TagError("Password", "min")] else [])
      + RequiredString("FullName", req.fullName)
      + RequiredString("TenantName", req.tenantName)
  }

  /** What a successful registration answers. */
  datatype Registration = Registration(user: User, tenant: Tenant, token: Claims)

  /** `POST /auth/register`: the user is created, then a tenant with the
      user as its admin, and an admin token for that tenant is issued.
      When the tenant cannot be created the user stays registered.
      `membershipFailure` is the database's answer to the admin
      membership insert. */
  function Register(db: Db, body: Result<RegisterRequest>, validEmail: string -> bool, membershipFailure: Option<string>)
    : (r: (Db, Reply<Registration>))
    ensures var bound := Validate(body, RegisterFailures(validEmail));
            bound.Err? ==> r == (db, Error(StatusBadRequest, bound.msg))
    ensures r.1.Error? ==> r.1.status == StatusBadRequest
    ensures var bound := Validate(body, RegisterFailures(validEmail));
            bound.Ok? ==> (AuthService.FindUserByEmail(db.users, bound.value.email).Some? <==>
                           r == (db, Error(StatusBadRequest, AuthService.EmailTaken)))
    ensures var bound := Validate(body, RegisterFailures(validEmail));
            bound.Ok? && AuthService.FindUserByEmail(db.users, bound.value.email).None?
            && |Bcrypt.Utf8(bound.value.password)| > Bcrypt.MaxPasswordBytes ==>
              r == (db, Error(StatusBadRequest, Bcrypt.PasswordTooLong))
    ensures r.1.Reply? <==> && Validate(body, RegisterFailures(validEmail)).Ok?
                            && AuthService.FindUserByEmail(db.users, body.value.email).None?
                            && |Bcrypt.Utf8(body.value.password)| <= Bcrypt.MaxPasswordBytes
                            && membershipFailure.None?
    ensures r.1.Reply? ==> var Registration(u, t, token) := r.1.data;
              && r.1.status == StatusCreated && r.1.message == RegistrationSuccessful
              && u == User(db.nextId, body.value.email, Bcrypt.HashOf(body.value.password), body.value.fullName, true)
              && t == Tenant(db.nextId + 1, body.value.tenantName, "active")
              && token == Claims(u.id, u.email, t.id, "admin")
              && r.0.users == db.users + [u]
              && r.0.tenants == db.tenants + [t]
              && r.0.memberships == db.memberships + [Membership(db.nextId + 2, t.id, u.id, "admin")]
    ensures r.1.Error? && membershipFailure.Some? && Validate(body, RegisterFailures(validEmail)).Ok?
            && AuthService.FindUserByEmail(db.users, body.value.email).None?
            && |Bcrypt.Utf8(body.value.password)| <= Bcrypt.MaxPasswordBytes ==>
              && r.1.error == membershipFailure.value
              && |r.0.users| == |db.users| + 1
              && r.0.users[|db.users|].email == body.value.email
  {
    match Validate(body, RegisterFailures(validEmail))
    case Err(e) => (db, Error(StatusBadRequest, e))
    case Ok(req) =>
      match AuthService.Register(db, req.email, req.password, req.fullName)
      case Err(e) => (db, Error(StatusBadRequest, e))
      case Ok((db1, u)) =>
        var created := AuthService.CreateTenantForUser(db1, u.id, req.tenantName, membershipFailure);
        match created.result
        case Err(e) => (created.db, Error(StatusBadRequest, e))
        case Ok(t) => (created.db, Reply(StatusCreated, RegistrationSuccessful, Registration(u, t, Claims(u.id, u.email, t.id, "admin"))))
  }

  // ---------------------------------------------------------------------
  // Login
  // ---------------------------------------------------------------------

  /** The body of `POST /auth/login` after JSON decoding; a zero
      `tenantId` means "not specified". */
  datatype LoginRequest = LoginRequest(email: string, password: string, tenantId: nat)

  /** Its tags: `Email` is `required,email`, `Password` is `required`. */
  function LoginFailures(validEmail: string -> bool): LoginRequest -> seq<string>
  {
    (req: LoginRequest) => RequiredEmail("Email", req.email, validEmail) + RequiredString("Password", req.password)
  }

  /** What a successful login answers. */
  datatype Session = Session(user: User, token: Claims, tenantId: nat, role: string, availableTenants: seq<Membership>)

  /** The login loop over the user's memberships: the first one of the
      requested tenant. */
  function FirstOfTenant(tus: seq<Membership>, tenant: nat): (r: Option<Membership>)
    ensures r.Some? <==> exists k :: 0 <= k < |tus| && tus[k].tenantId == tenant
    ensures r.Some? ==> r.value in tus && r.value.tenantId == tenant
  {
    if |tus| == 0 then None
    else if tus[0].tenantId == tenant then Some(tus[0])
    else
      var r := FirstOfTenant(tus[1..], tenant);
      assert forall k :: 1 <= k < |tus| ==> tus[k] == tus[1..][k - 1];
      r
  }

  /** The membership login picks for a requested tenant among the user's
      memberships is the one the repository's pair lookup finds. */
  lemma {:induction false} FirstOfTenantIsLookup(ms: seq<Membership>, tenant: nat, user: nat)
    ensures FirstOfTenant(FindTenantsByUser(ms, user), tenant) == FindByTenantAndUser(ms, tenant, user)
    decreases |ms|
  {
    if |ms| > 0 {
      FirstOfTenantIsLookup(ms[1..], tenant, user);
      var p := (m: Membership) => m.userId == user;
      if p(ms[0]) {
        assert Filter(ms, p) == [ms[0]] + Filter(ms[1..], p);
        assert ([ms[0]] + Filter(ms[1..], p))[1..] == Filter(ms[1..], p);
      }
    }
  }

  /** `POST /auth/login`: credentials first, then the tenant.  A requested
      tenant must be one of the user's; otherwise the first membership is
      used.  The token carries that membership's tenant and role. */
  function Login(db: Db, body: Result<LoginRequest>, validEmail: string -> bool): (r: Reply<Session>)
    ensures var bound := Validate(body, LoginFailures(validEmail));
            bound.Err? ==> r == Error(StatusBadRequest, bound.msg)
    ensures var bound := Validate(body, LoginFailures(validEmail));
            bound.Ok? && AuthService.Login(db, bound.value.email, bound.value.password).Err? ==>
              r == Error(StatusUnauthorized, AuthService.Login(db, bound.value.email, bound.value.password).msg)
    ensures var bound := Validate(body, LoginFailures(validEmail));
            bound.Ok? && AuthService.Login(db, bound.value.email, bound.value.password).Ok?
            && FindTenantsByUser(db.memberships, AuthService.Login(db, bound.value.email, bound.value.password).value.id) == [] ==>
              r == Error(StatusBadRequest, NoTenant)
    ensures var bound := Validate(body, LoginFailures(validEmail));
            bound.Ok? && AuthService.Login(db, bound.value.email, bound.value.password).Ok?
            && FindTenantsByUser(db.memberships, AuthService.Login(db, bound.value.email, bound.value.password).value.id) != [] ==>
              (r == Error(StatusForbidden, SpecifiedTenantDenied) <==>
                 bound.value.tenantId > 0
                 && !CheckUserAccess(db.memberships, bound.value.tenantId,
                                     AuthService.Login(db, bound.value.email, bound.value.password).value.id))
    ensures r.Reply? ==> var Session(u, token, tenant, role, available) := r.data;
              && Validate(body, LoginFailures(validEmail)).Ok?
              && AuthService.Login(db, body.value.email, body.value.password) == Ok(u)
              && r.status == StatusOK && r.message == LoginSuccessful
              && token == Claims(u.id, u.email, tenant, role)
              && (exists m :: m in db.memberships && IsPair(m, tenant, u.id) && m.role == role)
              && (body.value.tenantId > 0 ==> tenant == body.value.tenantId
                                              && FindByTenantAndUser(db.memberships, tenant, u.id).value.role == role)
              && available == FindTenantsByUser(db.memberships, u.id)
  {
    match Validate(body, LoginFailures(validEmail))
    case Err(e) => Error(StatusBadRequest, e)
    case Ok(req) =>
      match AuthService.Login(db, req.email, req.password)
      case Err(e) => Error(StatusUnauthorized, e)
      case Ok(u) =>
        var tus := FindTenantsByUser(db.memberships, u.id);
        if |tus| == 0 then Error(StatusBadRequest, NoTenant)
        else
          FirstOfTenantIsLookup(db.memberships, req.tenantId, u.id);
          AccessIffFound(db.memberships, req.tenantId, u.id);
          var chosen := if req.tenantId > 0 then FirstOfTenant(tus, req.tenantId) else Some(tus[0]);
          match chosen
          case None => Error(StatusForbidden, SpecifiedTenantDenied)
          case Some(m) =>
            assert m in tus;
            FirstOfTenantIsLookup(db.memberships, m.tenantId, u.id);
            Reply(StatusOK, LoginSuccessful, Session(u, Claims(u.id, u.email, m.tenantId, m.role), m.tenantId, m.role, tus))
  }

  // ---------------------------------------------------------------------
  // The caller's tenants
  // ---------------------------------------------------------------------

  /** `GET /tenants/my`: every membership of the caller, in storage order. */
  function GetMyTenants(db: Db, user: nat): (r: Reply<seq<Membership>>)
    ensures r.Reply? && r.status == StatusOK
    ensures forall m :: m in r.data <==> m in db.memberships && m.userId == user
    ensures forall t :: (exists m :: m in r.data && m.tenantId == t) <==> CheckUserAccess(db.memberships, t, user)
  {
    Reply(StatusOK, "", FindTenantsByUser(db.memberships, user))
  }

  /** What a successful switch answers. */
  datatype Switched = Switched(token: Claims, tenantId: nat, role: string)

  /** `POST /tenants/switch/:tenant_id`: a fresh token for a tenant the
      caller belongs to, with the role held there.  `email` is the one the
      caller's token carried. */
  function SwitchTenant(db: Db, user: nat, email: string, tenantIdParam: string): (r: Reply<Switched>)
    ensures ParseUint32(tenantIdParam).None? ==> r == Error(StatusBadRequest, InvalidTenantId)
    ensures ParseUint32(tenantIdParam).Some? ==>
              (r == Error(StatusForbidden, TenantDenied) <==> !CheckUserAccess(db.memberships, ParseUint32(tenantIdParam).value, user))
    ensures r.Reply? <==> ParseUint32(tenantIdParam).Some? && CheckUserAccess(db.memberships, ParseUint32(tenantIdParam).value, user)
    ensures r.Reply? ==> var t := ParseUint32(tenantIdParam).value;
              && r.status == StatusOK && r.message == TenantSwitched
              && r.data.tenantId == t
              && r.data.role == FindByTenantAndUser(db.memberships, t, user).value.role
              && r.data.token == Claims(user, email, t, r.data.role)
  {
    match ParseUint32(tenantIdParam)
    case None => Error(StatusBadRequest, InvalidTenantId)
    case Some(t) =>
      AccessIffFound(db.memberships, t, user);
      if !CheckUserAccess(db.memberships, t, user) then Error(StatusForbidden, TenantDenied)
      else
        match FindByTenantAndUser(db.memberships, t, user)
        case None => Error(StatusInternalServerError, FetchAccessFailed)
        case Some(m) => Reply(StatusOK, TenantSwitched, Switched(Claims(user, email, t, m.role), t, m.role))
  }

  // ---------------------------------------------------------------------
  // How the endpoints agree
  // ---------------------------------------------------------------------

  /** Logging in to a named tenant and switching to it later issue the
      same token. */
  lemma LoginAgreesWithSwitch(db: Db, body: Result<LoginRequest>, validEmail: string -> bool)
    requires Login(db, body, validEmail).Reply? && body.value.tenantId > 0
    requires Login(db, body, validEmail).data.tenantId <= MaxUint32
    ensures var s := Login(db, body, validEmail).data;
            var sw := SwitchTenant(db, s.user.id, s.user.email, NatToString(s.tenantId));
            sw.Reply? && sw.data.token == s.token
  {
    var s := Login(db, body, validEmail).data;
    ParseUint32NatToString(s.tenantId);
    AccessIffFound(db.memberships, s.tenantId, s.user.id);
  }

  /** A membership added for a user no earlier membership names is that
      user's only one. */
  lemma OnlyNewMembership(ms: seq<Membership>, m: Membership, next: nat)
    requires forall k :: 0 <= k < |ms| ==> ms[k].userId < next
    requires m.userId == next
    ensures FindTenantsByUser(ms + [m], m.userId) == [m]
  {
    var p := (x: Membership) => x.userId == m.userId;
    assert Filter(ms, p) == [] by {
      FilterEmptyIff(ms, p);
    }
    FilterAppend(ms, [m], p);
    assert Filter([m], p) == [m] by {
      assert [m][1..] == [];
    }
  }

  /** A new user's first login, with no tenant named, issues exactly the
      token registration issued, provided no membership names a key not
      yet handed out. */
  lemma RegisterThenLogin(db: Db, req: RegisterRequest, validEmail: string -> bool)
    requires forall k :: 0 <= k < |db.memberships| ==> db.memberships[k].userId < db.nextId
    requires Register(db, Ok(req), validEmail, None).1.Reply?
    ensures var (db', reply) := Register(db, Ok(req), validEmail, None);
            var s := Login(db', Ok(LoginRequest(req.email, req.password, 0)), validEmail);
            && s.Reply?
            && s.data.token == reply.data.token
            && s.data.availableTenants == [Membership(db.nextId + 2, reply.data.tenant.id, reply.data.user.id, "admin")]
  {
    var (db', reply) := Register(db, Ok(req), validEmail, None);
    var u := reply.data.user;
    var m := Membership(db.nextId + 2, reply.data.tenant.id, u.id, "admin");
    OnlyNewMembership(db.memberships, m, db.nextId);
    assert FindTenantsByUser(db'.memberships, u.id) == [m];
    var db1 := db.(users := db.users + [u], nextId := db.nextId + 1);
    AuthService.RegisterThenLogin(db, req.email, req.password, req.fullName, req.password);
    assert AuthService.Login(db1, req.email, req.password) == Ok(u);
    assert db'.users == db1.users;
  }
}
