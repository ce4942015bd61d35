/** The `enforceTenantIsolation` middleware: the tenant named by the route's
    slug must be the caller's own tenant. */
module TenantIsolation {
  import opened Wrappers
  import opened Models
  import opened Stores
  import opened Http

  const ACCESS_DENIED: string := "Access denied: You do not have access to this tenant"

  /** The id of the caller's tenant: the populated document's id, or the raw
      id. Reading the id of a `null` populated tenant throws. */
  function UserTenantId(a: AuthUser): Option<nat> {
    match a.tenantRef
    case Populated(t) => if t.Some? then Some(t.value.id) else None
    case RawId(id) => Some(id)
  }

  /** `enforceTenantIsolation`. The checks run in the order 401, 400, 404,
      403; the function has no `catch`, so an exception leaves the request
      without a reply. */
  function EnforceTenantIsolation(req: Request, env: Env, s: Store): (step: Step)
    ensures req.user.None? ==> step == Halt(Fail(401, "Authentication required"))
    ensures req.user.Some? && !Truthy(req.slug) ==> step == Halt(Fail(400, "Tenant slug is required"))
    ensures step.Next? <==>
      && req.user.Some? && Truthy(req.slug) && !env.storeDown
      && FindTenantBySlug(s, req.slug.value).Some?
      && UserTenantId(req.user.value) == Some(FindTenantBySlug(s, req.slug.value).value.id)
    ensures step.Next? ==> step.request.tenant.Some?
    ensures step.Next? && step.request.tenant.Some? ==>
      && step.request == req.(tenant := step.request.tenant)
      && step.request.tenant.value in s.tenants.Values
      && step.request.tenant.value.slug == req.slug.value
      && UserTenantId(req.user.value) == Some(step.request.tenant.value.id)
    ensures step.Halt? ==> !step.response.success && step.response.cookies == [] && step.response.body == NoBody
  {
    if req.user.None? then Halt(Fail(401, "Authentication required"))
    else if !Truthy(req.slug) then Halt(Fail(400, "Tenant slug is required"))
    else if env.storeDown then Halt(NO_REPLY)
    else
      match FindTenantBySlug(s, req.slug.value)
      case None => Halt(Fail(404, "Tenant not found"))
      case Some(t) =>
        match UserTenantId(req.user.value)
        case None => Halt(NO_REPLY)
        case Some(id) =>
          if id != t.id then Halt(Fail(403, ACCESS_DENIED))
          else Next(req.(tenant := Some(t)))
  }

  /** With distinct slugs, a caller reaches exactly its own tenant, and a
      caller whose tenant differs from the slug's tenant is refused with 403. */
  lemma IsolationDecision(req: Request, env: Env, s: Store, k: nat)
    requires KeyedById(s)
    requires forall i, j :: i in s.tenants && j in s.tenants && s.tenants[i].slug == s.tenants[j].slug ==> i == j
    requires req.user.Some? && Truthy(req.slug) && !env.storeDown
    requires k in s.tenants && s.tenants[k].slug == req.slug.value
    ensures UserTenantId(req.user.value) == Some(k) ==>
      EnforceTenantIsolation(req, env, s) == Next(req.(tenant := Some(s.tenants[k])))
    ensures UserTenantId(req.user.value).Some? && UserTenantId(req.user.value) != Some(k) ==>
      EnforceTenantIsolation(req, env, s) == Halt(Fail(403, ACCESS_DENIED))
  {
    FindTenantBySlugExact(s, req.slug.value, k);
  }

  /** An unknown slug is answered 404 whoever asks. */
  lemma UnknownSlugNotFound(req: Request, env: Env, s: Store)
    requires req.user.Some? && Truthy(req.slug) && !env.storeDown
    requires forall k :: k in s.tenants ==> s.tenants[k].slug != req.slug.value
    requires KeyedById(s)
    ensures EnforceTenantIsolation(req, env, s) == Halt(Fail(404, "Tenant not found"))
  {
  }
}
