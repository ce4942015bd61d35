/** Requests and responses as the handlers see them, and the ambient
    environment (clock, deployment mode, store availability, password hash). */
module Http {
  import opened Wrappers
  import opened Models
  import opened Jwt

  /** How `req.user.tenantId` looks: populated with the tenant document (which
      may be `null` when the tenant is gone), or a raw id. */
  datatype TenantRef = Populated(tenant: Option<Tenant>) | RawId(id: nat)

  /** The user the authentication middleware attaches. */
  datatype AuthUser = AuthUser(user: User, tenantRef: TenantRef)

  /** The parts of an Express request the core reads: the two session
      cookies, the `Authorization` header, the route parameters, the
      pagination query, the JSON body fields, and the `user`/`tenant`
      properties set by middleware. An absent field is `None`. */
  datatype Request = Request(
    accessCookie: Option<string>,
    refreshCookie: Option<string>,
    authorization: Option<string>,
    slug: Option<string>,
    noteId: string,
    page: Option<string>,
    limit: Option<string>,
    title: Option<string>,
    content: Option<string>,
    email: Option<string>,
    password: Option<string>,
    refreshToken: Option<string>,
    user: Option<AuthUser>,
    tenant: Option<Tenant>)

  /** The user fields the session endpoints return. */
  datatype UserView = UserView(id: nat, email: string, role: Role)
  /** The tenant fields the session and plan endpoints return. */
  datatype TenantView = TenantView(id: nat, name: string, slug: string, plan: Plan, maxNotes: int)

  datatype Pagination = Pagination(currentPage: int, totalPages: int, totalNotes: nat, hasMore: bool)

  /** The `data` member of a JSON reply. */
  datatype Body =
    | NoBody
    | NoteBody(note: Note)
    | NotesPage(notes: seq<Note>, pagination: Pagination)
    | Session(user: UserView, tenant: TenantView)
    | TenantBody(view: TenantView)

  /** A reply: status, the `success`/`message`/`code` members, the data and
      the cookie instructions. Status 0 stands for no reply at all. */
  datatype Response = Response(status: nat, success: bool, message: string, code: Option<string>,
                               body: Body, cookies: seq<CookieOp>)

  /** What a middleware does: reply and stop, or pass a (possibly extended)
      request on to the next handler. */
  datatype Step = Halt(response: Response) | Next(request: Request)

  /** The ambient inputs: the clock in whole seconds, `NODE_ENV`, whether
      the store throws on every call, and the bcrypt hash. */
  datatype Env = Env(now: nat, nodeEnv: string, storeDown: bool, hash: string -> string)

  predicate Production(env: Env) {
    env.nodeEnv == "production"
  }

  /** A rejected promise nobody catches: the request is left without a reply. */
  const NO_REPLY: Response := Response(0, false, "", None, NoBody, [])

  const INTERNAL_ERROR: string := "Internal server error"

  /** A failure reply without a machine-readable code. */
  function Fail(status: nat, message: string): Response {
    Response(status, false, message, None, NoBody, [])
  }

  /** A failure reply carrying a `code`. */
  function FailCode(status: nat, message: string, code: string): Response {
    Response(status, false, message, Some(code), NoBody, [])
  }

  /** JavaScript truthiness of an optional string: present and non-empty. */
  predicate Truthy(o: Option<string>) {
    o.Some? && o.value != ""
  }

  function ViewUser(u: User): UserView {
    UserView(u.id, u.email, u.role)
  }

  function ViewTenant(t: Tenant): TenantView {
    TenantView(t.id, t.name, t.slug, t.plan, t.maxNotes)
  }

  /** The notes a reply hands back. */
  function BodyNotes(b: Body): seq<Note> {
    match b
    case NoteBody(n) => [n]
    case NotesPage(ns, _) => ns
    case _ => []
  }
}
