/** What the gin handlers share: reading the query string, the JSON reply
    they answer with, and the audit entry a successful change leaves. */
module Http {
  import opened Wrappers
  import opened Entities
  import opened Scopes
  import opened Strconv
  import opened Text

  const StatusOK := 200
  const StatusCreated := 201
  const StatusBadRequest := 400
  const StatusUnauthorized := 401
  const StatusForbidden := 403
  const StatusNotFound := 404
  const StatusInternalServerError := 500

  /** A decoded query string: the first value of each key. */
  type QueryString = map<string, string>

  /** gin `c.Query(key)`: the value, or "" when the key is absent. */
  function Query(q: QueryString, key: string): string
  {
    if key in q then q[key] else ""
  }

  /** gin `c.DefaultQuery(key, def)`: the value whenever the key is present,
      even an empty one, and `def` only when it is absent. */
  function DefaultQuery(q: QueryString, key: string, def: string): string
  {
    if key in q then q[key] else def
  }

  /** The `page` and `page_size` a listing asks for: `Atoi` of the query
      values, with "1" and `defaultSize` for missing keys.  A value that
      does not parse keeps whatever `Atoi` returned with the error. */
  function PageParams(q: QueryString, defaultSize: string): (r: (int, int))
    ensures IsInt64(r.0) && IsInt64(r.1)
    ensures "page" !in q ==> r.0 == 1
    ensures "page_size" !in q ==> r.1 == Atoi(defaultSize).0
    ensures "page" in q && Atoi(q["page"]).1 ==> r.0 == SignedValue(q["page"])
    ensures "page_size" in q && Atoi(q["page_size"]).1 ==> r.1 == SignedValue(q["page_size"])
  {
    DefaultsParse();
    (Atoi(DefaultQuery(q, "page", "1")).0, Atoi(DefaultQuery(q, "page_size", defaultSize)).0)
  }

  /** A JSON answer: a success status with its message (empty when the
      handler sends none) and payload, or an error status with the
      `error` field. */
  datatype Reply<T> = Reply(status: int, message: string, data: T) | Error(status: int, error: string)

  /** The validator's message for a field that fails a `binding` tag. */
  function TagError(field: string, tag: string): string
  {
    "Key: '" + field + "' Error:Field validation for '" + field + "' failed on the '" + tag + "' tag"
  }

  /** The message for a `binding:"required"` field that is missing or
      holds its zero value. */
  function RequiredFieldError(field: string): string
  {
    TagError(field, "required")
  }

  /** A `required` string field: the tag's failure, if any. */
  function RequiredString(field: string, v: string): (errs: seq<string>)
    ensures errs == [] <==> v != ""
  {
    if v == "" then [RequiredFieldError(field)] else []
  }

  /** A `required,email` field: a missing value fails `required`, and only
      a present one is checked by `validEmail` (the validator's address
      syntax). */
  function RequiredEmail(field: string, v: string, validEmail: string -> bool): (errs: seq<string>)
    ensures errs == [] <==> v != "" && validEmail(v)
    ensures v == "" ==> errs == [RequiredFieldError(field)]
  {
    if v == "" then [RequiredFieldError(field)]
    else if !validEmail(v) then [TagError(field, "email")]
    else []
  }

  /** `ShouldBindJSON` of a struct with tags: the decoder's outcome, then
      every failing field in declaration order, reported together one per
      line. */
  function Validate<T>(decoded: Result<T>, failures: T -> seq<string>): (r: Result<T>)
    ensures r.Ok? <==> decoded.Ok? && failures(decoded.value) == []
    ensures r.Ok? ==> r.value == decoded.value
    ensures decoded.Err? ==> r == decoded
    ensures decoded.Ok? && |failures(decoded.value)| == 1 ==> r == Err(failures(decoded.value)[0])
  {
    match decoded
    case Err(e) => Err(e)
    case Ok(v) => if failures(v) == [] then Ok(v) else Err(Join(failures(v), '\n'))
  }

  /** `ShouldBindJSON` of a one-field body whose field is required:
      `decoded` is the JSON decoder's outcome, and a zero value is
      refused like a missing one. */
  function BindRequired<T(==)>(decoded: Result<T>, zero: T, field: string): (r: Result<T>)
    ensures r.Ok? <==> decoded.Ok? && decoded.value != zero
    ensures r.Ok? ==> r.value == decoded.value
  {
    match decoded
    case Err(e) => Err(e)
    case Ok(v) => if v == zero then Err(RequiredFieldError(field)) else Ok(v)
  }

  /** `auditService.Log`: one entry is appended.  The client address and
      user agent are not modelled, and the handlers ignore a failure to
      write the entry. */
  function Audit(db: Db, tenant: nat, user: nat, action: string, resource: string, resourceId: nat): Db
  {
    db.(auditLogs := db.auditLogs + [AuditLog(tenant, user, action, resource, resourceId)])
  }

  /** An audit entry touches no table that `Valid` constrains. */
  lemma AuditKeepsValid(db: Db, tenant: nat, user: nat, action: string, resource: string, resourceId: nat)
    requires Valid(db)
    ensures Valid(Audit(db, tenant, user, action, resource, resourceId))
  {
  }
}
