/** The browser side of the session: the flags derived from the `/me`
    query, when the browser is sent to the login page, and what a failed
    manual refresh of the user does. */
module ClientAuth {
  import opened Wrappers
  import opened Models
  import opened Stores
  import opened Http
  import opened AuthMiddleware
  import opened AuthController
  import opened Routes

  const LOGIN_PATH: string := "/login"

  const REFRESH_TOKEN_MISSING: string := "REFRESH_TOKEN_MISSING"
  const REFRESH_TOKEN_EXPIRED: string := "REFRESH_TOKEN_EXPIRED"
  const REFRESH_TOKEN_INVALID: string := "REFRESH_TOKEN_INVALID"

  /** What the client reads off a rejected request: the reply's status and
      its `code` member, each absent when there was no reply or no code. */
  datatype HttpError = HttpError(status: Option<int>, code: Option<string>)

  /** The error a failed reply rejects with. */
  function ErrorOf(r: Response): HttpError {
    HttpError(Some(r.status), r.code)
  }

  /** The codes the client takes as "not signed in". */
  const UNAUTHENTICATED_CODES: set<string> :=
    {ACCESS_TOKEN_MISSING, ACCESS_TOKEN_INVALID, USER_NOT_FOUND, TENANT_NOT_FOUND, AUTH_ERROR, AUTHENTICATION_REQUIRED}

  /** `isUnauthenticated`: a 401, or one of the six authentication codes. */
  function IsUnauthenticated(error: Option<HttpError>): (b: bool)
    ensures b <==> error.Some? && (error.value.status == Some(401) ||
                                   (error.value.code.Some? && error.value.code.value in UNAUTHENTICATED_CODES))
  {
    match error
    case None => false
    case Some(e) =>
      || e.status == Some(401)
      || e.code == Some(ACCESS_TOKEN_MISSING)
      || e.code == Some(ACCESS_TOKEN_INVALID)
      || e.code == Some(USER_NOT_FOUND)
      || e.code == Some(TENANT_NOT_FOUND)
      || e.code == Some(AUTH_ERROR)
      || e.code == Some(AUTHENTICATION_REQUIRED)
  }

  /** The `data` of a `/me` reply as the client keeps it. */
  datatype SessionData = SessionData(user: Option<UserView>, tenant: Option<TenantView>)

  /** The state of the `/me` query as the query library reports it. */
  datatype UserQuery = UserQuery(isLoading: bool, data: Option<SessionData>, error: Option<HttpError>)

  /** What `useAuth` returns, with `redirect` for whether its effect sends
      the browser to the login page. */
  datatype AuthState = AuthState(
    user: Option<UserView>,
    tenant: Option<TenantView>,
    isAuthenticated: bool,
    isUnauthenticated: bool,
    isLoading: bool,
    isAdmin: bool,
    hasAuthError: bool,
    redirect: bool)

  /** The `/me` query runs everywhere except on the login page. */
  function QueryEnabled(pathname: string): (b: bool)
    ensures b <==> pathname != LOGIN_PATH
  {
    pathname != LOGIN_PATH
  }

  /** A disabled query does not load; whatever the cache holds stays. */
  function Observed(enabled: bool, cached: UserQuery): (q: UserQuery)
    ensures q.data == cached.data && q.error == cached.error
    ensures !enabled ==> !q.isLoading
  {
    if enabled then cached else cached.(isLoading := false)
  }

  /** `useAuth` on page `pathname`, with `cached` the query's state. */
  function UseAuth(pathname: string, cached: UserQuery): (a: AuthState)
    ensures a.isAuthenticated <==>
      cached.data.Some? && cached.data.value.user.Some? && cached.data.value.tenant.Some? && cached.error.None?
    ensures a.isAuthenticated ==> !a.isUnauthenticated && !a.hasAuthError
    ensures a.isUnauthenticated == IsUnauthenticated(cached.error)
    ensures a.isAdmin <==> a.user.Some? && a.user.value.role == Admin
    ensures a.redirect <==> a.isUnauthenticated && !a.isLoading && pathname != LOGIN_PATH
    ensures pathname == LOGIN_PATH ==> !a.redirect && !a.isLoading
  {
    var q := Observed(QueryEnabled(pathname), cached);
    var user := if q.data.Some? then q.data.value.user else None;
    var tenant := if q.data.Some? then q.data.value.tenant else None;
    var authenticated := user.Some? && tenant.Some? && q.error.None?;
    var unauthenticated := IsUnauthenticated(q.error);
    AuthState(user, tenant, authenticated, unauthenticated, q.isLoading,
              user.Some? && user.value.role == Admin, q.error.Some?,
              unauthenticated && !q.isLoading && !(pathname == LOGIN_PATH))
  }

  /** Every reply `authenticate` stops a request with is taken as "not
      signed in" by the client. */
  lemma AuthenticateFailuresUnauthenticated(req: Request, env: Env, s: Store)
    requires Authenticate(req, env, s).Halt?
    ensures IsUnauthenticated(Some(ErrorOf(Authenticate(req, env, s).response)))
  {
  }

  /** A `requireRole` refusal is "not signed in" exactly when there was no
      user; a wrong role (403 `INSUFFICIENT_PERMISSIONS`) is not. */
  lemma RequireRoleFailures(roles: seq<Role>, req: Request)
    requires RequireRole(roles, req).Halt?
    ensures IsUnauthenticated(Some(ErrorOf(RequireRole(roles, req).response))) <==> req.user.None?
  {
  }

  /** Every failed `/me` reply sends the browser to the login page once the
      query has settled, on any page but the login page. */
  lemma FailedMeRedirects(req: Request, env: Env, s: Store, pathname: string, data: Option<SessionData>)
    requires MeEndpoint(req, env, s).0.status != 200
    requires pathname != LOGIN_PATH
    ensures UseAuth(pathname, UserQuery(false, data, Some(ErrorOf(MeEndpoint(req, env, s).0)))).redirect
  {
    match Authenticate(req, env, s)
    case Halt(h) =>
      AuthenticateFailuresUnauthenticated(req, env, s);
    case Next(_) =>
  }

  /** On the login page nothing is fetched and nothing redirects, whatever
      the cache holds. */
  lemma LoginPageNeverRedirects(cached: UserQuery)
    ensures !UseAuth(LOGIN_PATH, cached).redirect
    ensures !UseAuth(LOGIN_PATH, cached).isLoading
  {
  }

  /** What the failure handler of `useRefreshUser` does: the cache is
      always cleared; the browser goes to the login page only for the three
      refresh-token codes. */
  datatype RefreshFailure = RefreshFailure(clearCache: bool, redirect: bool)

  const REFRESH_CODES: set<string> := {REFRESH_TOKEN_MISSING, REFRESH_TOKEN_EXPIRED, REFRESH_TOKEN_INVALID}

  function OnRefreshError(error: HttpError): (f: RefreshFailure)
    ensures f.clearCache
    ensures f.redirect <==> error.code.Some? && error.code.value in REFRESH_CODES
  {
    RefreshFailure(true,
      || error.code == Some(REFRESH_TOKEN_MISSING)
      || error.code == Some(REFRESH_TOKEN_EXPIRED)
      || error.code == Some(REFRESH_TOKEN_INVALID))
  }

  /** The refresh of the user calls `/me`, which never replies with a
      refresh-token code: a failed refresh clears the cache but never
      redirects. */
  lemma RefreshUserNeverRedirects(req: Request, env: Env, s: Store)
    ensures !OnRefreshError(ErrorOf(MeEndpoint(req, env, s).0)).redirect
    ensures OnRefreshError(ErrorOf(MeEndpoint(req, env, s).0)).clearCache
  {
    MeReplyCodes(req, env, s);
    CodeSetsDisjoint();
  }

  /** `/me` replies either without a code or with an authentication code. */
  lemma MeReplyCodes(req: Request, env: Env, s: Store)
    ensures MeEndpoint(req, env, s).0.code.Some? ==> MeEndpoint(req, env, s).0.code.value in UNAUTHENTICATED_CODES
  {
    if Authenticate(req, env, s).Halt? {
      AuthenticateFailuresUnauthenticated(req, env, s);
    }
  }

  lemma CodeSetsDisjoint()
    ensures UNAUTHENTICATED_CODES * REFRESH_CODES == {}
  {
  }
}
