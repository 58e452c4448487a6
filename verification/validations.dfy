/** The client's form schemas (`lib/validations.ts` and the add-user
    dialog's own schema) as functions from a form to the issues found, and
    the add-user dialog's mapping from its form to the request it sends.
    Email syntax is a parameter: the schemas and the server use their own
    checks, and the lemmas relating the two assume they agree. */
module Validations {
  import opened Wrappers
  import opened Client
  import Http
  import AuthHandler
  import TenantHandler
  import opened Text

  /** What a schema check reports.  The messages of the length and email
      checks are the schema's own; enumeration and union failures carry
      the library's generic wording, which is not modelled. */
  datatype Issue = TooShort(field: string, min: nat, message: string)
                 | BadEmail(field: string, message: string)
                 | NotInEnum(field: string)
                 | NoAlternativeMatched(field: string)

  /** `z.string().min(n, message)`, which counts UTF-16 code units. */
  function MinLength(field: string, v: string, n: nat, message: string): (issues: seq<Issue>)
    ensures issues == [] <==> Utf16Length(v) >= n
    ensures issues != [] ==> issues == [TooShort(field, n, message)]
  {
    if Utf16Length(v) < n then [TooShort(field, n, message)] else []
  }

  /** `.min(1, required).email(invalid)`: both checks run, so an empty
      string that is also malformed reports both. */
  function RequiredEmail(v: string, validEmail: string -> bool): (issues: seq<Issue>)
    ensures issues == [] <==> v != "" && validEmail(v)
    ensures v == "" ==> issues[0] == TooShort("email", 1, "Email is required")
  {
    MinLength("email", v, 1, "Email is required")
    + (if validEmail(v) then [] else [BadEmail("email", "Invalid email format")])
  }

  /** `z.enum(values)`. */
  function OneOf(field: string, v: string, values: seq<string>): (issues: seq<Issue>)
    ensures issues == [] <==> v in values
  {
    if v in values then [] else [NotInEnum(field)]
  }

  const Roles: seq<string> := ["admin", "manager", "member"]
  const ContactStatuses: seq<string> := ["active", "inactive", "blocked"]
  const ContactSources: seq<string> := ["website", "referral", "ads", "cold_call", "event"]
  const TenantStatuses: seq<string> := ["active", "suspended", "inactive"]

  // ---------------------------------------------------------------------
  // loginSchema, registerSchema
  // ---------------------------------------------------------------------

  datatype LoginForm = LoginForm(email: string, password: string)

  function LoginIssues(f: LoginForm, validEmail: string -> bool): (issues: seq<Issue>)
    ensures issues == [] <==> f.email != "" && validEmail(f.email) && Utf16Length(f.password) >= 6
  {
    RequiredEmail(f.email, validEmail) + MinLength("password", f.password, 6, "Password must be at least 6 characters")
  }

  datatype RegisterForm = RegisterForm(email: string, password: string, fullName: string, tenantName: string)

  /** A name needing two code units: the empty string reports both the
      "required" and the "at least 2" message, one code unit only the
      second. */
  function NameIssues(field: string, v: string, required: string, tooShort: string): (issues: seq<Issue>)
    ensures issues == [] <==> Utf16Length(v) >= 2
    ensures Utf16Length(v) == 1 ==> issues == [TooShort(field, 2, tooShort)]
    ensures v == "" ==> issues == [TooShort(field, 1, required), TooShort(field, 2, tooShort)]
  {
    MinLength(field, v, 1, required) + MinLength(field, v, 2, tooShort)
  }

  function RegisterIssues(f: RegisterForm, validEmail: string -> bool): (issues: seq<Issue>)
    ensures issues == [] <==> && f.email != "" && validEmail(f.email) && Utf16Length(f.password) >= 6
                              && Utf16Length(f.fullName) >= 2 && Utf16Length(f.tenantName) >= 2
  {
    RequiredEmail(f.email, validEmail)
    + MinLength("password", f.password, 6, "Password must be at least 6 characters")
    + NameIssues("full_name", f.fullName, "Full name is required", "Full name must be at least 2 characters")
    + NameIssues("tenant_name", f.tenantName, "Company/Organization name is required", "Company name must be at least 2 characters")
  }

  /** A registration form the schema accepts passes the server's binding,
      when both judge email syntax alike, exactly when its password has six
      characters: the schema counts UTF-16 code units and the server
      counts runes, so a password of astral characters can fall between
      the two. */
  lemma RegisterFormPassesServerBinding(f: RegisterForm, validEmail: string -> bool)
    requires RegisterIssues(f, validEmail) == []
    ensures var body := Ok(AuthHandler.RegisterRequest(f.email, f.password, f.fullName, f.tenantName));
            Http.Validate(body, AuthHandler.RegisterFailures(validEmail)) == body <==> |f.password| >= 6
    ensures (forall i :: 0 <= i < |f.password| ==> !Astral(f.password[i])) ==>
              var body := Ok(AuthHandler.RegisterRequest(f.email, f.password, f.fullName, f.tenantName));
              Http.Validate(body, AuthHandler.RegisterFailures(validEmail)) == body
  {
    var req := AuthHandler.RegisterRequest(f.email, f.password, f.fullName, f.tenantName);
    Utf16LengthIsRuneCount(f.password);
    if |f.password| >= 6 {
      assert AuthHandler.RegisterFailures(validEmail)(req) == [];
    } else {
      assert AuthHandler.RegisterFailures(validEmail)(req) != [];
    }
  }

  /** Three emoji make six code units but three runes: the schema accepts
      the password and the server's `min=6` refuses it. */
  lemma AstralPasswordSplitsTheChecks()
    ensures var pw := "\U{1F600}\U{1F600}\U{1F600}";
            && Utf16Length(pw) == 6 && |pw| == 3
            && MinLength("password", pw, 6, "Password must be at least 6 characters") == []
            && AuthHandler.RegisterFailures(x => true)(AuthHandler.RegisterRequest("a@b.co", pw, "Al", "Co")) != []
  {
    var pw := "\U{1F600}\U{1F600}\U{1F600}";
    assert pw[1..][1..][1..] == [];
  }

  /** The same for sign-in; the form sends no tenant, which the server
      reads as 0. */
  lemma LoginFormPassesServerBinding(f: LoginForm, validEmail: string -> bool)
    requires LoginIssues(f, validEmail) == []
    ensures var body := Ok(AuthHandler.LoginRequest(f.email, f.password, 0));
            Http.Validate(body, AuthHandler.LoginFailures(validEmail)) == body
  {
    var req := AuthHandler.LoginRequest(f.email, f.password, 0);
    assert AuthHandler.LoginFailures(validEmail)(req) == [];
  }

  // ---------------------------------------------------------------------
  // contactSchema
  // ---------------------------------------------------------------------

  /** The contact form's checked fields; `None` is a field left out. */
  datatype ContactForm = ContactForm(
    firstName: string, lastName: string, email: Option<string>, status: Option<string>, source: Option<string>)

  /** What the schema yields: the status filled in. */
  datatype ContactData = ContactData(
    firstName: string, lastName: string, email: Option<string>, status: string, source: Option<string>)

  /** `z.string().email().optional().or(z.literal(''))`. */
  function OptionalEmailIssues(v: Option<string>, validEmail: string -> bool): (issues: seq<Issue>)
    ensures issues == [] <==> v.None? || v.value == "" || validEmail(v.value)
  {
    match v
    case None => []
    case Some(e) => if e == "" || validEmail(e) then [] else [NoAlternativeMatched("email")]
  }

  function ContactIssues(f: ContactForm, validEmail: string -> bool): seq<Issue>
  {
    NameIssues("first_name", f.firstName, "First name is required", "First name must be at least 2 characters")
    + NameIssues("last_name", f.lastName, "Last name is required", "Last name must be at least 2 characters")
    + OptionalEmailIssues(f.email, validEmail)
    + (if f.status.Some? then OneOf("status", f.status.value, ContactStatuses) else [])
    + (if f.source.Some? then OneOf("source", f.source.value, ContactSources) else [])
  }

  /** The outcome of `safeParse`. */
  datatype Parsed<T> = Parsed(data: T) | Invalid(issues: seq<Issue>)

  /** `contactSchema.safeParse`: the data with the status defaulted to
      "active", or every issue found. */
  function ParseContact(f: ContactForm, validEmail: string -> bool): (r: Parsed<ContactData>)
    ensures r.Parsed? <==> && Utf16Length(f.firstName) >= 2 && Utf16Length(f.lastName) >= 2
                            && (f.email.None? || f.email.value == "" || validEmail(f.email.value))
                            && (f.status.None? || f.status.value in ContactStatuses)
                            && (f.source.None? || f.source.value in ContactSources)
    ensures r.Parsed? ==> && r.data.status == (if f.status.Some? then f.status.value else "active")
                           && r.data.status in ContactStatuses
                           && r.data.firstName == f.firstName && r.data.lastName == f.lastName
                           && r.data.email == f.email && r.data.source == f.source
    ensures r.Invalid? ==> r.issues == ContactIssues(f, validEmail) && r.issues != []
  {
    var issues := ContactIssues(f, validEmail);
    if issues == [] then
      Parsed(ContactData(f.firstName, f.lastName, f.email, if f.status.Some? then f.status.value else "active", f.source))
    else Invalid(issues)
  }

  // ---------------------------------------------------------------------
  // updateTenantSchema, updateUserRoleSchema
  // ---------------------------------------------------------------------

  function UpdateTenantIssues(name: string, status: string): (issues: seq<Issue>)
    ensures issues == [] <==> Utf16Length(name) >= 2 && status in ["active", "suspended", "inactive"]
  {
    NameIssues("name", name, "Tenant name is required", "Tenant name must be at least 2 characters")
    + OneOf("status", status, TenantStatuses)
  }

  function UpdateUserRoleIssues(role: string): (issues: seq<Issue>)
    ensures issues == [] <==> role == "admin" || role == "manager" || role == "member"
  {
    OneOf("role", role, Roles)
  }

  // ---------------------------------------------------------------------
  // The add-user dialog
  // ---------------------------------------------------------------------

  datatype AddUserForm = AddUserForm(email: string, password: string, fullName: string, role: string)

  /** The dialog's starting values: everything empty, role member. */
  const AddUserDefaults := AddUserForm("", "", "", "member")

  /** The dialog's own schema: password and full name are optional. */
  function AddUserIssues(f: AddUserForm, validEmail: string -> bool): (issues: seq<Issue>)
    ensures issues == [] <==> f.email != "" && validEmail(f.email) && f.role in ["admin", "manager", "member"]
  {
    RequiredEmail(f.email, validEmail) + OneOf("role", f.role, Roles)
  }

  /** `value || undefined` for a text field. */
  function OrUndefined(v: string): (j: JsVal)
    ensures v == "" <==> j == Undefined
    ensures v != "" ==> j == Str(v)
  {
    if v == "" then Undefined else Str(v)
  }

  /** The body `onSubmit` hands to `addUser`. */
  function AddUserBody(f: AddUserForm): (body: Obj)
    ensures body.Keys == {"email", "password", "full_name", "role"}
    ensures body["email"] == Str(f.email) && body["role"] == Str(f.role)
    ensures body["password"] == OrUndefined(f.password) && body["full_name"] == OrUndefined(f.fullName)
  {
    map["email" := Str(f.email), "password" := OrUndefined(f.password),
        "full_name" := OrUndefined(f.fullName), "role" := Str(f.role)]
  }

  /** How the server's JSON binding reads a text field: a missing or
      undefined field (dropped from the JSON) is the empty string. */
  function TextField(body: Obj, k: string): (v: string)
    ensures k in body && body[k].Str? ==> v == body[k].s
  {
    if k in body && body[k].Str? then body[k].s else ""
  }

  /** The request the server binds from a body. */
  function BindAddUser(body: Obj): TenantHandler.AddUserRequest
  {
    TenantHandler.AddUserRequest(TextField(body, "email"), TextField(body, "password"),
                                 TextField(body, "full_name"), TextField(body, "role"))
  }

  /** The empty-to-undefined mapping loses nothing: the server reads back
      exactly the form's fields, the empty ones as empty. */
  lemma AddUserBodyReadsBack(f: AddUserForm)
    ensures BindAddUser(AddUserBody(f)) == TenantHandler.AddUserRequest(f.email, f.password, f.fullName, f.role)
  {
  }

  /** A form the dialog accepts passes the server's binding, when both
      judge email syntax alike. */
  lemma AddUserFormPassesServerBinding(f: AddUserForm, validEmail: string -> bool)
    requires AddUserIssues(f, validEmail) == []
    ensures var req := BindAddUser(AddUserBody(f));
            Http.Validate(Ok(req), TenantHandler.AddUserFailures(validEmail)) == Ok(req)
  {
    AddUserBodyReadsBack(f);
    TenantHandler.AddUserBinding(Ok(BindAddUser(AddUserBody(f))), validEmail);
  }

  /** The dialog after a submission: a success closes it and resets the
      form; a failure keeps it open with what was typed. */
  datatype DialogState = DialogState(open: bool, form: AddUserForm)

  function AfterAddUser(f: AddUserForm, result: Settled<()>): (d: DialogState)
    ensures result.Resolved? <==> !d.open
    ensures result.Resolved? ==> d.form == AddUserDefaults
    ensures result.Rejected? ==> d.form == f
  {
    if result.Resolved? then DialogState(false, AddUserDefaults) else DialogState(true, f)
  }
}
