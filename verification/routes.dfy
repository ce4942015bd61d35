/** The three routers: which middleware runs, in which order, before which
    handler, and which roles each note operation admits. */
module Routes {
  import opened Wrappers
  import opened Models
  import opened Stores
  import opened Jwt
  import opened Http
  import opened AuthMiddleware
  import opened TenantIsolation
  import opened NotesController
  import opened TenantController
  import opened AuthController

  /** Every endpoint of the core. */
  datatype Endpoint =
    | CreateNoteRoute       // POST   notes /
    | ListNotesRoute        // GET    notes /
    | GetNoteRoute          // GET    notes /:id
    | UpdateNoteRoute       // PUT    notes /:id
    | DeleteNoteRoute       // DELETE notes /:id
    | UpgradeRoute          // POST   tenants /:slug/upgrade
    | LoginRoute            // POST   auth /login
    | LogoutRoute           // POST   auth /logout
    | RefreshRoute          // POST   auth /refreshToken
    | MeRoute               // GET    auth /me

  predicate IsNoteRoute(e: Endpoint) {
    e.CreateNoteRoute? || e.ListNotesRoute? || e.GetNoteRoute? || e.UpdateNoteRoute? || e.DeleteNoteRoute?
  }

  /** The roles `requireRole` admits on each note route. */
  function NoteRoles(e: Endpoint): seq<Role>
    requires IsNoteRoute(e)
  {
    if e.ListNotesRoute? then [Member, Admin] else [Member]
  }

  /** The notes router's guards: `authenticate`, then tenant isolation (both
      mounted for the whole router), then the route's role check. */
  function NoteGuards(e: Endpoint, req: Request, env: Env, s: Store): Step
    requires IsNoteRoute(e)
  {
    match Authenticate(req, env, s)
    case Halt(r) => Halt(r)
    case Next(r1) =>
      match EnforceTenantIsolation(r1, env, s)
      case Halt(r) => Halt(r)
      case Next(r2) => RequireRole(NoteRoles(e), r2)
  }

  /** The upgrade route's guards: `authenticate`, then `requireRole(['admin'])`,
      then tenant isolation. */
  function UpgradeGuards(req: Request, env: Env, s: Store): Step {
    match Authenticate(req, env, s)
    case Halt(r) => Halt(r)
    case Next(r1) =>
      match RequireRole([Admin], r1)
      case Halt(r) => Halt(r)
      case Next(r2) => EnforceTenantIsolation(r2, env, s)
  }

  function NoteHandler(e: Endpoint, req: Request, env: Env, s: Store): (Response, Store)
    requires IsNoteRoute(e)
  {
    match e
    case CreateNoteRoute => CreateNote(req, env, s)
    case ListNotesRoute => GetNotes(req, env, s)
    case GetNoteRoute => GetNoteById(req, env, s)
    case UpdateNoteRoute => UpdateNote(req, env, s)
    case DeleteNoteRoute => DeleteNote(req, env, s)
  }

  /** A note route: its guards, then its handler. */
  function NoteEndpoint(e: Endpoint, req: Request, env: Env, s: Store): (out: (Response, Store))
    requires IsNoteRoute(e)
    ensures NoteGuards(e, req, env, s).Halt? ==> out == (NoteGuards(e, req, env, s).response, s)
    ensures e.ListNotesRoute? || e.GetNoteRoute? ==> out.1 == s
  {
    match NoteGuards(e, req, env, s)
    case Halt(r) => (r, s)
    case Next(r) => NoteHandler(e, r, env, s)
  }

  /** The upgrade route: its guards, then the plan switch. */
  function UpgradeEndpoint(req: Request, env: Env, s: Store): (out: (Response, Store))
    ensures UpgradeGuards(req, env, s).Halt? ==> out == (UpgradeGuards(req, env, s).response, s)
  {
    match UpgradeGuards(req, env, s)
    case Halt(r) => (r, s)
    case Next(r) => ToggleTenantPlan(r, env, s)
  }

  /** Login, logout and refresh, which run without guards. */
  function SessionEndpoint(e: Endpoint, req: Request, env: Env, s: Store): (out: (Response, Store))
    requires e.LoginRoute? || e.LogoutRoute? || e.RefreshRoute?
    ensures OnlyTokensChange(s, out.1)
  {
    if e.LoginRoute? then Login(req, env, s)
    else if e.LogoutRoute? then Logout(req, env, s)
    else Refresh(req, env, s)
  }

  /** `/me`: authentication, then the report of the caller. */
  function MeEndpoint(req: Request, env: Env, s: Store): (out: (Response, Store))
    ensures out.1 == s
  {
    match Authenticate(req, env, s)
    case Halt(r) => (r, s)
    case Next(r) => (GetCurrentUser(r), s)
  }

  /** Serving one request: the route's guards, then its handler. A guard
      that halts leaves the store as it was. */
  function Dispatch(e: Endpoint, req: Request, env: Env, s: Store): (out: (Response, Store))
    ensures IsNoteRoute(e) && NoteGuards(e, req, env, s).Halt? ==> out == (NoteGuards(e, req, env, s).response, s)
    ensures e.UpgradeRoute? && UpgradeGuards(req, env, s).Halt? ==> out == (UpgradeGuards(req, env, s).response, s)
    ensures e.MeRoute? || e.ListNotesRoute? || e.GetNoteRoute? ==> out.1 == s
    ensures e.LoginRoute? || e.LogoutRoute? || e.RefreshRoute? ==> OnlyTokensChange(s, out.1)
  {
    match e
    case UpgradeRoute => UpgradeEndpoint(req, env, s)
    case LoginRoute => SessionEndpoint(e, req, env, s)
    case LogoutRoute => SessionEndpoint(e, req, env, s)
    case RefreshRoute => SessionEndpoint(e, req, env, s)
    case MeRoute => MeEndpoint(req, env, s)
    case _ => NoteEndpoint(e, req, env, s)
  }

  /** Every note route authenticates before anything else: a request without
      credentials is refused with `ACCESS_TOKEN_MISSING` whatever its role,
      slug or body, and nothing changes. */
  lemma NoteRoutesAuthenticateFirst(e: Endpoint, req: Request, env: Env, s: Store)
    requires IsNoteRoute(e) && AccessTokenOf(req) == ""
    ensures Dispatch(e, req, env, s) == (FailCode(401, "Access token required", ACCESS_TOKEN_MISSING), s)
  {
  }

  /** On a note route, tenant isolation runs before the role check: an
      authenticated admin of another tenant is refused by isolation (403
      without a code), not by the role check, even on member-only routes. */
  lemma IsolationBeforeRole(e: Endpoint, req: Request, env: Env, s: Store)
    requires IsNoteRoute(e)
    requires Authenticate(req, env, s).Next?
    requires EnforceTenantIsolation(Authenticate(req, env, s).request, env, s).Halt?
    ensures Dispatch(e, req, env, s) == (EnforceTenantIsolation(Authenticate(req, env, s).request, env, s).response, s)
  {
  }

  /** Which callers reach each note handler: exactly the authenticated callers
      of the slug's own tenant whose role the route admits; only the listing
      admits admins. Without a slug nobody does, which is every request of
      the router as written (`NoteRoutesAsWrittenRefuse`). */
  lemma NoteRouteRoles(e: Endpoint, req: Request, env: Env, s: Store)
    requires IsNoteRoute(e)
    ensures !Truthy(req.slug) ==> NoteGuards(e, req, env, s).Halt?
    ensures NoteGuards(e, req, env, s).Next? <==>
      && Authenticate(req, env, s).Next?
      && EnforceTenantIsolation(Authenticate(req, env, s).request, env, s).Next?
      && (Authenticate(req, env, s).request.user.value.user.role == Member || e.ListNotesRoute?)
    ensures NoteGuards(e, req, env, s).Next? ==>
      NoteGuards(e, req, env, s) == EnforceTenantIsolation(Authenticate(req, env, s).request, env, s)
  {
    var a := Authenticate(req, env, s);
    if a.Next? {
      var i := EnforceTenantIsolation(a.request, env, s);
      if i.Next? {
        assert i.request.user == a.request.user;
        var role := a.request.user.value.user.role;
        assert role in NoteRoles(e) <==> role == Member || e.ListNotesRoute? by {
          match role {
            case Member =>
            case Admin =>
          }
        }
      }
    }
  }

  /** The request the notes router as written hands to its middleware: the
      router is built without `mergeParams` and none of its paths has a
      `:slug`, so `req.params.slug` is undefined there wherever the router is
      mounted. `Dispatch` instead serves note requests with the slug the URL
      names, as tenant isolation expects. */
  function AsWrittenNoteRequest(req: Request): (r: Request)
    ensures r.slug.None?
    ensures r.(slug := req.slug) == req
  {
    req.(slug := None)
  }

  /** The note routes as written: the guards and the handler see no slug. */
  function AsWrittenNoteEndpoint(e: Endpoint, req: Request, env: Env, s: Store): (out: (Response, Store))
    requires IsNoteRoute(e)
    ensures out.1 == s
    ensures !out.0.success
  {
    NoteRouteRoles(e, AsWrittenNoteRequest(req), env, s);
    NoteEndpoint(e, AsWrittenNoteRequest(req), env, s)
  }

  /** As written, no note handler is ever reached: a request that passes
      authentication is refused by tenant isolation with 400 "Tenant slug is
      required", any other gets authentication's refusal, and nothing
      changes. */
  lemma NoteRoutesAsWrittenRefuse(e: Endpoint, req: Request, env: Env, s: Store)
    requires IsNoteRoute(e)
    ensures Authenticate(req, env, s).Next? ==>
      AsWrittenNoteEndpoint(e, req, env, s) == (Fail(400, "Tenant slug is required"), s)
    ensures Authenticate(req, env, s).Halt? ==>
      AsWrittenNoteEndpoint(e, req, env, s) == (Authenticate(req, env, s).response, s)
  {
    var r := AsWrittenNoteRequest(req);
    assert AccessTokenOf(r) == AccessTokenOf(req);
    assert Authenticate(r, env, s).Halt? <==> Authenticate(req, env, s).Halt?;
  }

  /** With the slug reaching isolation, an authenticated caller of the slug's
      own tenant whose role the route admits reaches the handler, with that
      tenant attached. */
  lemma OwnCallerReachesHandler(e: Endpoint, req: Request, env: Env, s: Store, k: nat)
    requires IsNoteRoute(e) && KeyedById(s)
    requires forall i, j :: i in s.tenants && j in s.tenants && s.tenants[i].slug == s.tenants[j].slug ==> i == j
    requires Authenticate(req, env, s).Next?
    requires Authenticate(req, env, s).request.user.value.user.role == Member || e.ListNotesRoute?
    requires !env.storeDown && Truthy(req.slug)
    requires k in s.tenants && s.tenants[k].slug == req.slug.value
    requires UserTenantId(Authenticate(req, env, s).request.user.value) == Some(k)
    ensures Dispatch(e, req, env, s) ==
      NoteHandler(e, Authenticate(req, env, s).request.(tenant := Some(s.tenants[k])), env, s)
  {
    var a := Authenticate(req, env, s).request;
    IsolationDecision(a, env, s, k);
    NoteRouteRoles(e, req, env, s);
  }

  /** An authenticated member never reaches the plan toggle: the role check
      answers 403 `INSUFFICIENT_PERMISSIONS` before any tenant lookup, and
      nothing changes. */
  lemma MemberCannotUpgrade(req: Request, env: Env, s: Store)
    requires Authenticate(req, env, s).Next?
    requires Authenticate(req, env, s).request.user.value.user.role == Member
    ensures Dispatch(UpgradeRoute, req, env, s) ==
      (FailCode(403, "Insufficient permissions", INSUFFICIENT_PERMISSIONS), s)
  {
  }

  /** An admin of another tenant is refused by isolation, and no tenant changes. */
  lemma ForeignAdminCannotUpgrade(req: Request, env: Env, s: Store)
    requires Authenticate(req, env, s).Next?
    requires Authenticate(req, env, s).request.user.value.user.role == Admin
    requires !env.storeDown && Truthy(req.slug)
    requires FindTenantBySlug(s, req.slug.value).Some?
    requires UserTenantId(Authenticate(req, env, s).request.user.value).Some?
    requires UserTenantId(Authenticate(req, env, s).request.user.value) != Some(FindTenantBySlug(s, req.slug.value).value.id)
    ensures Dispatch(UpgradeRoute, req, env, s) == (Fail(403, ACCESS_DENIED), s)
  {
  }

  /** Behind the upgrade route's guards the tenant the toggle sees carries the
      route's slug, so the toggle's own 403 branch never fires. */
  lemma UpgradeSlugAlwaysMatches(req: Request, env: Env, s: Store)
    requires UpgradeGuards(req, env, s).Next?
    ensures Dispatch(UpgradeRoute, req, env, s).0 != Fail(403, WRONG_TENANT)
  {
    var r := UpgradeGuards(req, env, s).request;
    assert r.tenant.Some? && r.slug == Some(r.tenant.value.slug);
  }

  /** The session endpoints other than `/me` never look at the access token:
      their outcome is the same with any cookie or header. */
  lemma AuthRoutesIgnoreAccessToken(e: Endpoint, req: Request, env: Env, s: Store,
                                    cookie: Option<string>, header: Option<string>)
    requires e.LoginRoute? || e.LogoutRoute? || e.RefreshRoute?
    ensures Dispatch(e, req.(accessCookie := cookie, authorization := header), env, s) == Dispatch(e, req, env, s)
  {
    match e {
      case LoginRoute => LoginIgnoresAccessToken(req, env, s, cookie, header);
      case LogoutRoute => LogoutIgnoresAccessToken(req, env, s, cookie, header);
      case RefreshRoute => RefreshIgnoresAccessToken(req, env, s, cookie, header);
    }
  }

  lemma LoginIgnoresAccessToken(req: Request, env: Env, s: Store, cookie: Option<string>, header: Option<string>)
    ensures Login(req.(accessCookie := cookie, authorization := header), env, s) == Login(req, env, s)
  {
    var req' := req.(accessCookie := cookie, authorization := header);
    assert req'.email == req.email && req'.password == req.password;
  }

  lemma LogoutIgnoresAccessToken(req: Request, env: Env, s: Store, cookie: Option<string>, header: Option<string>)
    ensures Logout(req.(accessCookie := cookie, authorization := header), env, s) == Logout(req, env, s)
  {
    var req' := req.(accessCookie := cookie, authorization := header);
    assert req'.refreshCookie == req.refreshCookie;
  }

  lemma RefreshIgnoresAccessToken(req: Request, env: Env, s: Store, cookie: Option<string>, header: Option<string>)
    ensures Refresh(req.(accessCookie := cookie, authorization := header), env, s) == Refresh(req, env, s)
  {
    var req' := req.(accessCookie := cookie, authorization := header);
    assert RefreshTokenOf(req') == RefreshTokenOf(req);
  }

  /** `/me` without credentials is refused with `ACCESS_TOKEN_MISSING`. */
  lemma MeWithoutCredentials(req: Request, env: Env, s: Store)
    requires AccessTokenOf(req) == ""
    ensures Dispatch(MeRoute, req, env, s) == (FailCode(401, "Access token required", ACCESS_TOKEN_MISSING), s)
  {
  }

  /** `/me` reports exactly the user and tenant authentication attached, so
      the handler's own 401 branch is unreachable through the route. */
  lemma MeReportsAuthenticatedCaller(req: Request, env: Env, s: Store)
    requires Authenticate(req, env, s).Next?
    ensures var r := Authenticate(req, env, s).request;
      && Dispatch(MeRoute, req, env, s).0.status == 200
      && Dispatch(MeRoute, req, env, s).0.body == Session(ViewUser(r.user.value.user), ViewTenant(r.tenant.value))
  {
  }
}
