/** The session endpoints: login issues a token pair, refresh rotates it,
    logout revokes it, and `/me` reports the authenticated caller. */
module AuthController {
  import opened Wrappers
  import opened Text
  import opened Models
  import opened Stores
  import opened Jwt
  import opened Http

  const INVALID_CREDENTIALS: string := "Invalid credentials"
  const INVALID_REFRESH: string := "Invalid refresh token"

  /** The payload a token pair is issued for. */
  function PayloadOf(u: User, t: Tenant): TokenPayload {
    TokenPayload(u.id, t.id, u.role)
  }

  /** `s'` differs from `s` at most in its refresh records. */
  predicate OnlyTokensChange(s: Store, s': Store) {
    && s'.tenants == s.tenants && s'.users == s.users
    && s'.notes == s.notes && s'.nextId == s.nextId
  }

  /** `login`: look the user up by the lower-cased email, check the password,
      load the user's tenant, then issue a token pair as cookies. */
  function Login(req: Request, env: Env, s: Store): (out: (Response, Store))
    ensures OnlyTokensChange(s, out.1)
    ensures out.0.status != 200 ==> out.1 == s
    ensures !Truthy(req.email) || !Truthy(req.password) ==> out == (Fail(400, "Email and password are required"), s)
    ensures Truthy(req.email) && Truthy(req.password) && !env.storeDown
            && (FindUserByEmail(s, Lower(req.email.value)).None?
                || !ComparePassword(FindUserByEmail(s, Lower(req.email.value)).value, req.password.value, env.hash)) ==>
      out == (Fail(401, INVALID_CREDENTIALS), s)
    ensures out.0.status == 200 ==>
      && Truthy(req.email) && Truthy(req.password) && !env.storeDown
      && FindUserByEmail(s, Lower(req.email.value)).Some?
      && var u := FindUserByEmail(s, Lower(req.email.value)).value;
         && u in s.users.Values
         && ComparePassword(u, req.password.value, env.hash)
         && u.tenantId in s.tenants
         && out == StartSession(u, s.tenants[u.tenantId], env, s)
  {
    if !Truthy(req.email) || !Truthy(req.password) then (Fail(400, "Email and password are required"), s)
    else if env.storeDown then (Fail(500, INTERNAL_ERROR), s)
    else
      match FindUserByEmail(s, Lower(req.email.value))
      case None => (Fail(401, INVALID_CREDENTIALS), s)
      case Some(u) =>
        if !ComparePassword(u, req.password.value, env.hash) then (Fail(401, INVALID_CREDENTIALS), s)
        else if u.tenantId !in s.tenants then (Fail(404, "Tenant not found"), s)
        else StartSession(u, s.tenants[u.tenantId], env, s)
  }

  /** The end of a successful login: a token pair for the user in its
      tenant, set as cookies, with its refresh record stored. */
  function StartSession(u: User, t: Tenant, env: Env, s: Store): (out: (Response, Store))
    ensures OnlyTokensChange(s, out.1)
    ensures out.0.status == 200 || out == (Fail(500, INTERNAL_ERROR), s)
    ensures out.0.status == 200 <==> RefreshTokenFor(PayloadOf(u, t), env.now) !in s.refreshTokens
    ensures out.0.status == 200 ==>
      var p := PayloadOf(u, t);
      var refresh := RefreshTokenFor(p, env.now);
      && out.1.refreshTokens == s.refreshTokens[refresh := RefreshRecord(refresh, p.userId, p.tenantId, env.now + REFRESH_RECORD_LIFETIME)]
      && out.0.cookies == SetTokenCookies(Production(env), TokenPair(AccessTokenFor(p, env.now), refresh))
      && out.0.body == Session(ViewUser(u), ViewTenant(t))
  {
    match GenerateTokens(PayloadOf(u, t), env.now, s.refreshTokens)
    case Err(_) => (Fail(500, INTERNAL_ERROR), s)
    case Ok((pair, records)) =>
      (Response(200, true, "Login successful", None, Session(ViewUser(u), ViewTenant(t)),
                SetTokenCookies(Production(env), pair)),
       s.(refreshTokens := records))
  }

  /** The email is matched without regard to ASCII case. */
  lemma LoginIgnoresEmailCase(req: Request, env: Env, s: Store, e: string)
    ensures Login(req.(email := Some(Lower(e))), env, s) == Login(req.(email := Some(e)), env, s)
  {
    LowerTwice(e);
  }

  /** The refresh token a request presents: the cookie when non-empty,
      otherwise the body field; `""` when there is neither. */
  function RefreshTokenOf(req: Request): (t: string)
    ensures Truthy(req.refreshCookie) ==> t == req.refreshCookie.value
    ensures !Truthy(req.refreshCookie) && Truthy(req.refreshToken) ==> t == req.refreshToken.value
    ensures t == "" <==> !Truthy(req.refreshCookie) && !Truthy(req.refreshToken)
  {
    if Truthy(req.refreshCookie) then req.refreshCookie.value
    else if Truthy(req.refreshToken) then req.refreshToken.value
    else ""
  }

  /** `refreshToken`: verify the presented token, require its stored
      record and its user and tenant, then delete the record and issue a new
      pair. */
  function Refresh(req: Request, env: Env, s: Store): (out: (Response, Store))
    ensures OnlyTokensChange(s, out.1)
    ensures RefreshTokenOf(req) == "" ==> out == (Fail(401, "Refresh token required"), s)
    ensures out.0.status != 200 ==>
      out.1 == s || (out.0.status == 500 && out.1.refreshTokens == s.refreshTokens - {RefreshTokenOf(req)})
    ensures RefreshTokenOf(req) != "" && Verify(RefreshSecret, RefreshTokenOf(req), env.now).Err? ==>
      out == (Fail(401, INVALID_REFRESH), s)
    ensures RefreshTokenOf(req) != "" && Verify(RefreshSecret, RefreshTokenOf(req), env.now).Ok? && env.storeDown ==>
      out == (Fail(500, INTERNAL_ERROR), s)
    ensures RefreshTokenOf(req) != "" && Verify(RefreshSecret, RefreshTokenOf(req), env.now).Ok? && !env.storeDown
            && RefreshTokenOf(req) !in s.refreshTokens ==>
      out == (Fail(401, INVALID_REFRESH), s)
    ensures RefreshTokenOf(req) != "" && Verify(RefreshSecret, RefreshTokenOf(req), env.now).Ok? && !env.storeDown
            && RefreshTokenOf(req) in s.refreshTokens
            && (var c := Verify(RefreshSecret, RefreshTokenOf(req), env.now).value;
                c.payload.userId !in s.users || c.payload.tenantId !in s.tenants) ==>
      out == (Fail(404, "User or tenant not found"), s)
    ensures out.0.status == 200 ==>
      var token := RefreshTokenOf(req);
      && token in s.refreshTokens
      && Decode(token).Some?
      && var c := Decode(token).value.claims;
         && token == Sign(Token(RefreshSecret, c)) && env.now < c.exp
         && c.payload.userId in s.users && c.payload.tenantId in s.tenants
         && var p := PayloadOf(s.users[c.payload.userId], s.tenants[c.payload.tenantId]);
            var issued := RefreshTokenFor(p, env.now);
            var rest := s.refreshTokens - {token};
            && issued !in rest
            && out.1.refreshTokens == rest[issued := RefreshRecord(issued, p.userId, p.tenantId, env.now + REFRESH_RECORD_LIFETIME)]
            && out.0.cookies == SetTokenCookies(Production(env), TokenPair(AccessTokenFor(p, env.now), issued))
  {
    var token := RefreshTokenOf(req);
    if token == "" then (Fail(401, "Refresh token required"), s)
    else
      match Verify(RefreshSecret, token, env.now)
      case Err(_) => (Fail(401, INVALID_REFRESH), s)
      case Ok(c) =>
        if env.storeDown then (Fail(500, INTERNAL_ERROR), s)
        else if token !in s.refreshTokens then (Fail(401, INVALID_REFRESH), s)
        else if c.payload.userId !in s.users || c.payload.tenantId !in s.tenants then
          (Fail(404, "User or tenant not found"), s)
        else
          SignDecode(token);
          var rest := s.refreshTokens - {token};
          var p := PayloadOf(s.users[c.payload.userId], s.tenants[c.payload.tenantId]);
          match GenerateTokens(p, env.now, rest)
          case Err(_) => (Fail(500, INTERNAL_ERROR), s.(refreshTokens := rest))
          case Ok((pair, records)) =>
            (Response(200, true, "Tokens refreshed successfully", None, NoBody, SetTokenCookies(Production(env), pair)),
             s.(refreshTokens := records))
  }

  /** A successful refresh in a later second than the token was issued
      removes the presented token for good: it is no longer stored. */
  lemma RefreshRotates(req: Request, env: Env, s: Store)
    requires Refresh(req, env, s).0.status == 200
    requires Decode(RefreshTokenOf(req)).Some? && Decode(RefreshTokenOf(req)).value.claims.iat != env.now
    ensures RefreshTokenOf(req) !in Refresh(req, env, s).1.refreshTokens
  {
    var token := RefreshTokenOf(req);
    var c := Decode(token).value.claims;
    var p := PayloadOf(s.users[c.payload.userId], s.tenants[c.payload.tenantId]);
    if RefreshTokenFor(p, env.now) == token {
      DecodeSign(Token(RefreshSecret, Claims(p, env.now, env.now + REFRESH_TOKEN_LIFETIME)));
    }
  }

  /** `logout`: revoke the cookie's refresh token, if any, and clear both cookies. */
  function Logout(req: Request, env: Env, s: Store): (out: (Response, Store))
    ensures OnlyTokensChange(s, out.1)
    ensures !Truthy(req.refreshCookie) ==> out.1 == s
    ensures Truthy(req.refreshCookie) && !env.storeDown ==>
      out.1.refreshTokens == s.refreshTokens - {req.refreshCookie.value}
    ensures Truthy(req.refreshCookie) && env.storeDown ==> out == (Fail(500, INTERNAL_ERROR), s)
    ensures !(Truthy(req.refreshCookie) && env.storeDown) ==>
      out.0 == Response(200, true, "Logout successful", None, NoBody, ClearTokenCookies())
  {
    if Truthy(req.refreshCookie) && env.storeDown then (Fail(500, INTERNAL_ERROR), s)
    else
      var s' := if Truthy(req.refreshCookie) then s.(refreshTokens := s.refreshTokens - {req.refreshCookie.value}) else s;
      (Response(200, true, "Logout successful", None, NoBody, ClearTokenCookies()), s')
  }

  /** Logging out twice is the same as logging out once. */
  lemma LogoutIdempotent(req: Request, env: Env, s: Store)
    ensures Logout(req, env, Logout(req, env, s).1) == Logout(req, env, s)
  {
    var s1 := Logout(req, env, s).1;
    if Truthy(req.refreshCookie) && !env.storeDown {
      assert s1.refreshTokens - {req.refreshCookie.value} == s1.refreshTokens;
    }
  }

  /** `getCurrentUser`: the caller and tenant the middleware attached. */
  function GetCurrentUser(req: Request): (r: Response)
    ensures req.user.None? || req.tenant.None? ==> r == Fail(401, "User not authenticated")
    ensures req.user.Some? && req.tenant.Some? ==>
      && r.status == 200 && r.success
      && r.body == Session(ViewUser(req.user.value.user), ViewTenant(req.tenant.value))
  {
    if req.user.None? || req.tenant.None? then Fail(401, "User not authenticated")
    else Response(200, true, "User retrieved successfully", None,
                  Session(ViewUser(req.user.value.user), ViewTenant(req.tenant.value)), [])
  }
}
