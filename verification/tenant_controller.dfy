/** `toggleTenantPlan`: the free/pro switch and the quota that goes with it. */
module TenantController {
  import opened Wrappers
  import opened Models
  import opened Stores
  import opened Http

  const UPGRADED: string := "Tenant upgraded to Pro successfully"
  const DOWNGRADED: string := "Tenant downgraded to Free successfully"
  const WRONG_TENANT: string := "Cannot modify different tenant"

  /** The other plan. */
  function Toggled(p: Plan): (q: Plan)
    ensures q != p
  {
    match p
    case Pro => Free
    case Free => Pro
  }

  /** The quota stored with each plan. */
  function QuotaFor(p: Plan): (m: int)
    ensures PlanConsistent(Tenant(0, "", "", p, m))
  {
    if p == Pro then UNLIMITED_NOTES else FREE_MAX_NOTES
  }

  /** `t` after the switch: only plan and quota change. */
  function Switch(t: Tenant): (u: Tenant)
    ensures u.id == t.id && u.name == t.name && u.slug == t.slug
    ensures u.plan == Toggled(t.plan)
    ensures PlanConsistent(u)
  {
    t.(plan := Toggled(t.plan), maxNotes := QuotaFor(Toggled(t.plan)))
  }

  /** Switching twice restores a tenant whose plan and quota agree,
      whatever quota it had in between. */
  lemma SwitchTwice(t: Tenant)
    requires PlanConsistent(t)
    ensures Switch(Switch(t)) == t
  {
  }

  /** `toggleTenantPlan`: the route's slug must be the tenant's own; the new
      plan is the opposite of the plan the request's tenant carries, and the
      stored tenant gets that plan and its quota. */
  function ToggleTenantPlan(req: Request, env: Env, s: Store): (out: (Response, Store))
    ensures out.0.status != 200 ==> out.1 == s
    ensures req.tenant.Some? && req.slug != Some(req.tenant.value.slug) ==> out == (Fail(403, WRONG_TENANT), s)
    ensures out.0.status == 200 <==>
      req.tenant.Some? && req.slug == Some(req.tenant.value.slug) && !env.storeDown && req.tenant.value.id in s.tenants
    ensures out.0.status == 200 ==>
      var id := req.tenant.value.id;
      var newPlan := Toggled(req.tenant.value.plan);
      var u := s.tenants[id].(plan := newPlan, maxNotes := QuotaFor(newPlan));
      && out.1 == s.(tenants := s.tenants[id := u])
      && PlanConsistent(u)
      && u.id == s.tenants[id].id && u.name == s.tenants[id].name && u.slug == s.tenants[id].slug
      && out.0.body == TenantBody(ViewTenant(u))
      && (out.0.message == UPGRADED <==> u.plan == Pro)
      && (out.0.message == DOWNGRADED <==> u.plan == Free)
  {
    if req.tenant.None? then (Fail(500, INTERNAL_ERROR), s)
    else
      var t := req.tenant.value;
      if req.slug != Some(t.slug) then (Fail(403, WRONG_TENANT), s)
      else
        var newPlan := Toggled(t.plan);
        if env.storeDown || t.id !in s.tenants then (Fail(500, INTERNAL_ERROR), s)
        else
          var u := s.tenants[t.id].(plan := newPlan, maxNotes := QuotaFor(newPlan));
          var message := if newPlan == Pro then UPGRADED else DOWNGRADED;
          (Response(200, true, message, None, TenantBody(ViewTenant(u)), []), s.(tenants := s.tenants[t.id := u]))
  }

  /** A downgrade keeps every note: a pro tenant holding more notes than the
      free quota is free afterwards and still holds them all. */
  lemma DowngradeKeepsNotes(req: Request, env: Env, s: Store)
    requires ToggleTenantPlan(req, env, s).0.status == 200 && req.tenant.value.plan == Pro
    ensures var s' := ToggleTenantPlan(req, env, s).1;
      && s'.tenants[req.tenant.value.id].plan == Free
      && s'.tenants[req.tenant.value.id].maxNotes == FREE_MAX_NOTES
      && forall t :: NoteCount(s', t) == NoteCount(s, t)
  {
  }

  /** Two toggles in a row, each run with the tenant as then stored,
      restore the store. */
  lemma ToggleTwiceRestores(req: Request, env: Env, s: Store, id: nat)
    requires id in s.tenants && PlanConsistent(s.tenants[id]) && s.tenants[id].id == id
    requires req.tenant == Some(s.tenants[id]) && req.slug == Some(s.tenants[id].slug) && !env.storeDown
    ensures var s1 := ToggleTenantPlan(req, env, s).1;
      && id in s1.tenants
      && ToggleTenantPlan(req.(tenant := Some(s1.tenants[id])), env, s1).1 == s
  {
    var s1 := ToggleTenantPlan(req, env, s).1;
    assert s1.tenants[id] == Switch(s.tenants[id]);
    SwitchTwice(s.tenants[id]);
    assert s1.tenants[id := Switch(s1.tenants[id])] == s.tenants;
  }
}
