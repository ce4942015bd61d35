/** The `authenticate` and `requireRole` middleware. */
module AuthMiddleware {
  import opened Wrappers
  import opened Text
  import opened Models
  import opened Stores
  import opened Jwt
  import opened Http

  const BEARER_PREFIX: string := "Bearer "

  const ACCESS_TOKEN_MISSING: string := "ACCESS_TOKEN_MISSING"
  const ACCESS_TOKEN_INVALID: string := "ACCESS_TOKEN_INVALID"
  const USER_NOT_FOUND: string := "USER_NOT_FOUND"
  const TENANT_NOT_FOUND: string := "TENANT_NOT_FOUND"
  const AUTH_ERROR: string := "AUTH_ERROR"
  const AUTHENTICATION_REQUIRED: string := "AUTHENTICATION_REQUIRED"
  const INSUFFICIENT_PERMISSIONS: string := "INSUFFICIENT_PERMISSIONS"

  /** The access token a request presents: the cookie when it is non-empty,
      otherwise the `Authorization` header with its first `"Bearer "`
      removed, and `""` when there is neither. */
  function AccessTokenOf(req: Request): string {
    if Truthy(req.accessCookie) then req.accessCookie.value
    else if req.authorization.Some? then ReplaceFirst(req.authorization.value, BEARER_PREFIX, "")
    else ""
  }

  /** A non-empty cookie wins over any header. */
  lemma CookieTakesPrecedence(req: Request, header: string)
    requires Truthy(req.accessCookie)
    ensures AccessTokenOf(req.(authorization := Some(header))) == req.accessCookie.value
  {
  }

  /** Without a cookie, a `Bearer` header yields exactly the text after the prefix. */
  lemma BearerHeaderToken(req: Request, token: string)
    requires !Truthy(req.accessCookie)
    requires req.authorization == Some(BEARER_PREFIX + token)
    ensures AccessTokenOf(req) == token
  {
    ReplaceFirstPrefix(BEARER_PREFIX, token);
  }

  /** The user as `findById(...).populate('tenantId')` returns it: the
      tenant reference is replaced by the tenant document, or `null`. */
  function PopulatedUser(s: Store, u: User): AuthUser {
    AuthUser(u, Populated(Lookup(s.tenants, u.tenantId)))
  }

  /** `authenticate`: extract and verify the access token, then load the
      token's user and the token's tenant; any failure replies and stops. */
  function Authenticate(req: Request, env: Env, s: Store): (step: Step)
    ensures step.Halt? ==> !step.response.success && step.response.code.Some?
                           && step.response.status in {401, 500} && step.response.cookies == []
                           && step.response.body == NoBody
    ensures step.Next? ==>
      && step.request.user.Some? && step.request.tenant.Some?
      && step.request == req.(user := step.request.user, tenant := step.request.tenant)
      && step.request.user.value.user in s.users.Values
      && step.request.tenant.value in s.tenants.Values
  {
    var token := AccessTokenOf(req);
    if token == "" then Halt(FailCode(401, "Access token required", ACCESS_TOKEN_MISSING))
    else
      match Verify(AccessSecret, token, env.now)
      case Err(_) => Halt(FailCode(401, "Invalid token", ACCESS_TOKEN_INVALID))
      case Ok(c) =>
        if env.storeDown then Halt(FailCode(500, "Authentication error", AUTH_ERROR))
        else if c.payload.userId !in s.users then Halt(FailCode(401, "User not found", USER_NOT_FOUND))
        else if c.payload.tenantId !in s.tenants then Halt(FailCode(401, "Tenant not found", TENANT_NOT_FOUND))
        else Next(req.(user := Some(PopulatedUser(s, s.users[c.payload.userId])),
                       tenant := Some(s.tenants[c.payload.tenantId])))
  }

  /** The user the access token of `req` identifies, when it is stored. */
  function Caller(req: Request, env: Env, s: Store): Option<User> {
    match Verify(AccessSecret, AccessTokenOf(req), env.now)
    case Ok(c) => if c.payload.userId in s.users then Some(s.users[c.payload.userId]) else None
    case Err(_) => None
  }

  /** A request passed on carries the caller, populated with its own tenant,
      and a stored tenant. */
  lemma AuthenticatedCaller(req: Request, env: Env, s: Store)
    requires Authenticate(req, env, s).Next?
    ensures Caller(req, env, s).Some?
    ensures Caller(req, env, s).value in s.users.Values
    ensures Authenticate(req, env, s).request.user == Some(PopulatedUser(s, Caller(req, env, s).value))
  {
  }

  /** The full decision table of `authenticate`, stated against token
      signing: which reply each kind of request gets, and that a request is
      passed on exactly when it carries an unexpired access token whose user
      and tenant are both stored, with that user and that tenant attached. */
  lemma AuthenticateOutcomes(req: Request, env: Env, s: Store)
    ensures AccessTokenOf(req) == "" ==>
      Authenticate(req, env, s) == Halt(FailCode(401, "Access token required", ACCESS_TOKEN_MISSING))
    ensures AccessTokenOf(req) != "" && (forall c :: AccessTokenOf(req) == Sign(Token(AccessSecret, c)) ==> env.now >= c.exp) ==>
      Authenticate(req, env, s) == Halt(FailCode(401, "Invalid token", ACCESS_TOKEN_INVALID))
    ensures forall c :: AccessTokenOf(req) == Sign(Token(AccessSecret, c)) && env.now < c.exp ==>
      Authenticate(req, env, s) ==
        if env.storeDown then Halt(FailCode(500, "Authentication error", AUTH_ERROR))
        else if c.payload.userId !in s.users then Halt(FailCode(401, "User not found", USER_NOT_FOUND))
        else if c.payload.tenantId !in s.tenants then Halt(FailCode(401, "Tenant not found", TENANT_NOT_FOUND))
        else Next(req.(user := Some(PopulatedUser(s, s.users[c.payload.userId])),
                       tenant := Some(s.tenants[c.payload.tenantId])))
  {
    var token := AccessTokenOf(req);
    forall c | token == Sign(Token(AccessSecret, c)) && env.now < c.exp
      ensures Verify(AccessSecret, token, env.now) == Ok(c)
    {
      VerifyIff(AccessSecret, token, env.now, c);
    }
    if token != "" && (forall c :: token == Sign(Token(AccessSecret, c)) ==> env.now >= c.exp) {
      if Verify(AccessSecret, token, env.now).Ok? {
        var c := Verify(AccessSecret, token, env.now).value;
        VerifyIff(AccessSecret, token, env.now, c);
        assert false;
      }
    }
  }

  /** The user is looked up before the tenant: with both missing the reply
      names the user. */
  lemma UserCheckedBeforeTenant(req: Request, env: Env, s: Store, c: Claims)
    requires AccessTokenOf(req) == Sign(Token(AccessSecret, c)) && env.now < c.exp && !env.storeDown
    requires c.payload.userId !in s.users && c.payload.tenantId !in s.tenants
    ensures Authenticate(req, env, s) == Halt(FailCode(401, "User not found", USER_NOT_FOUND))
  {
    AuthenticateOutcomes(req, env, s);
  }

  /** The attached tenant is the one named in the token, even when the
      user's own record names a different one. */
  lemma TenantComesFromToken(req: Request, env: Env, s: Store, c: Claims)
    requires AccessTokenOf(req) == Sign(Token(AccessSecret, c)) && env.now < c.exp && !env.storeDown
    requires c.payload.userId in s.users && c.payload.tenantId in s.tenants
    ensures Authenticate(req, env, s).Next?
    ensures Authenticate(req, env, s).request.tenant == Some(s.tenants[c.payload.tenantId])
    ensures Authenticate(req, env, s).request.user.value.user == s.users[c.payload.userId]
  {
    AuthenticateOutcomes(req, env, s);
  }

  /** A token signed with the refresh secret is never accepted as an access token. */
  lemma RefreshTokenRejected(req: Request, env: Env, s: Store, c: Claims)
    requires AccessTokenOf(req) == Sign(Token(RefreshSecret, c))
    ensures Authenticate(req, env, s) == Halt(FailCode(401, "Invalid token", ACCESS_TOKEN_INVALID))
  {
    WrongSecretRejected(Token(RefreshSecret, c), AccessSecret, env.now);
  }

  /** `requireRole(roles)`: a present user whose role is listed passes with
      the request unchanged. */
  function RequireRole(roles: seq<Role>, req: Request): (step: Step)
    ensures step.Next? <==> req.user.Some? && req.user.value.user.role in roles
    ensures step.Next? ==> step.request == req
    ensures req.user.None? ==>
      step == Halt(FailCode(401, "Authentication required", AUTHENTICATION_REQUIRED))
    ensures req.user.Some? && req.user.value.user.role !in roles ==>
      step == Halt(FailCode(403, "Insufficient permissions", INSUFFICIENT_PERMISSIONS))
  {
    if req.user.None? then Halt(FailCode(401, "Authentication required", AUTHENTICATION_REQUIRED))
    else if req.user.value.user.role !in roles then Halt(FailCode(403, "Insufficient permissions", INSUFFICIENT_PERMISSIONS))
    else Next(req)
  }
}
