/** The request guards of `middleware/auth.go`.  A gin context is reduced to
    the four keys the guards write and read; a guard either passes the
    (possibly extended) context on or aborts with a status and message. */
module Middleware {
  import opened Wrappers
  import opened Jwt

  /** The request-scoped keys `user_id`, `email`, `tenant_id` and `role`;
      `None` means the key was never set. */
  datatype Ctx = Ctx(userId: Option<nat>, email: Option<string>, tenantId: Option<nat>, role: Option<string>)

  const EmptyCtx := Ctx(None, None, None, None)

  datatype Gate = Next(ctx: Ctx) | Abort(status: int, error: string)

  const StatusUnauthorized := 401
  const StatusForbidden := 403

  const MissingHeader := "Missing or invalid authorization header"
  const InvalidToken := "Invalid or expired token"
  const TenantRequired := "Tenant context required"
  const RoleNotFound := "Role not found in context"
  const InsufficientPermissions := "Insufficient permissions"

  /** The context after a token's claims have been copied into it. */
  function WithClaims(ctx: Ctx, c: Claims): Ctx
  {
    ctx.(userId := Some(c.userId), email := Some(c.email), tenantId := Some(c.tenantId), role := Some(c.role))
  }

  /** `AuthMiddleware`: extract the bearer token, validate it, copy its
      claims into the context. */
  function AuthMiddleware(header: string, validate: Validator, ctx: Ctx): (g: Gate)
    ensures g.Next? <==> ExtractToken(header).Ok? && validate(ExtractToken(header).value).Some?
    ensures ExtractToken(header).Err? ==> g == Abort(StatusUnauthorized, MissingHeader)
    ensures ExtractToken(header).Ok? && validate(ExtractToken(header).value).None? ==>
              g == Abort(StatusUnauthorized, InvalidToken)
    ensures g.Next? ==> var c := validate(ExtractToken(header).value).value;
              GetUserID(g.ctx) == c.userId && GetTenantID(g.ctx) == c.tenantId
              && GetRole(g.ctx) == c.role && g.ctx.email == Some(c.email)
  {
    match ExtractToken(header)
    case Err(_) => Abort(StatusUnauthorized, MissingHeader)
    case Ok(token) =>
      match validate(token)
      case None => Abort(StatusUnauthorized, InvalidToken)
      case Some(claims) => Next(WithClaims(ctx, claims))
  }

  /** `TenantMiddleware`: a tenant id must be present and non-zero. */
  function TenantMiddleware(ctx: Ctx): (g: Gate)
    ensures g.Next? <==> GetTenantID(ctx) != 0
    ensures g.Next? ==> g.ctx == ctx
    ensures g.Abort? ==> g == Abort(StatusForbidden, TenantRequired)
  {
    if ctx.tenantId.None? || ctx.tenantId.value == 0 then Abort(StatusForbidden, TenantRequired)
    else Next(ctx)
  }

  /** `RoleMiddleware(allowed...)`: the role must be one of `allowed`,
      compared exactly (no hierarchy). */
  function RoleMiddleware(allowed: seq<string>, ctx: Ctx): (g: Gate)
    ensures g.Next? <==> ctx.role.Some? && ctx.role.value in allowed
    ensures g.Next? ==> g.ctx == ctx
    ensures ctx.role.None? ==> g == Abort(StatusForbidden, RoleNotFound)
    ensures ctx.role.Some? && ctx.role.value !in allowed ==> g == Abort(StatusForbidden, InsufficientPermissions)
  {
    match ctx.role
    case None => Abort(StatusForbidden, RoleNotFound)
    case Some(role) =>
      if role in allowed then Next(ctx) else Abort(StatusForbidden, InsufficientPermissions)
  }

  /** `GetUserID`, `GetTenantID`, `GetRole`: the zero value when the key is
      absent. */
  function GetUserID(ctx: Ctx): (id: nat)
    ensures ctx.userId.None? ==> id == 0
    ensures ctx.userId.Some? ==> id == ctx.userId.value
  {
    ctx.userId.GetOr(0)
  }

  function GetTenantID(ctx: Ctx): (id: nat)
    ensures ctx.tenantId.None? ==> id == 0
    ensures ctx.tenantId.Some? ==> id == ctx.tenantId.value
  {
    ctx.tenantId.GetOr(0)
  }

  function GetRole(ctx: Ctx): (role: string)
    ensures ctx.role.None? ==> role == ""
    ensures ctx.role.Some? ==> role == ctx.role.value
  {
    ctx.role.GetOr("")
  }

  /** A request that was never authenticated carries none of the keys, so
      every accessor reads the zero value and every later guard refuses. */
  lemma UnauthenticatedContextIsEmpty(allowed: seq<string>)
    ensures GetUserID(EmptyCtx) == 0 && GetTenantID(EmptyCtx) == 0 && GetRole(EmptyCtx) == ""
    ensures TenantMiddleware(EmptyCtx).Abort? && RoleMiddleware(allowed, EmptyCtx).Abort?
  {
  }
}
