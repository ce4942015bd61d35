/** What every reachable store satisfies, and the guarantees a request gets
    from the full pipeline: tenant isolation, note ownership and the free
    quota. */
module Invariants {
  import opened Wrappers
  import opened Text
  import opened Models
  import opened Stores
  import opened Jwt
  import opened Http
  import opened Paging
  import opened AuthMiddleware
  import opened TenantIsolation
  import opened NotesController
  import opened TenantController
  import opened AuthController
  import opened Routes

  /** A stored refresh record agrees with the token it is keyed by: the key
      is a refresh-secret token for the record's user and tenant whose expiry
      is the record's expiry. */
  predicate RecordMatchesToken(k: string, r: RefreshRecord) {
    && r.token == k
    && Decode(k).Some?
    && Decode(k).value.secret == RefreshSecret
    && Decode(k).value.claims.payload.userId == r.userId
    && Decode(k).value.claims.payload.tenantId == r.tenantId
    && Decode(k).value.claims.exp == r.expiresAt
  }

  /** Every tenant's plan and quota agree, and slugs are unique. */
  predicate TenantsWf(tenants: map<nat, Tenant>) {
    && (forall k :: k in tenants ==> PlanConsistent(tenants[k]))
    && (forall i, j :: i in tenants && j in tenants && tenants[i].slug == tenants[j].slug ==> i == j)
  }

  /** Every user belongs to a stored tenant, and emails are unique. */
  predicate UsersWf(users: map<nat, User>, tenants: map<nat, Tenant>) {
    && (forall k :: k in users ==> users[k].tenantId in tenants)
    && (forall i, j :: i in users && j in users && users[i].email == users[j].email ==> i == j)
  }

  /** A note is valid text, written by a stored user of the note's own tenant. */
  predicate NoteOk(n: Note, users: map<nat, User>, tenants: map<nat, Tenant>) {
    && NoteTextValid(n.title, n.content)
    && n.tenantId in tenants
    && n.authorId in users && users[n.authorId].tenantId == n.tenantId
  }

  predicate NotesWf(notes: map<nat, Note>, users: map<nat, User>, tenants: map<nat, Tenant>) {
    forall k :: k in notes ==> NoteOk(notes[k], users, tenants)
  }

  predicate RecordsWf(records: map<string, RefreshRecord>) {
    forall k :: k in records ==> RecordMatchesToken(k, records[k])
  }

  /** The store invariant. */
  predicate Wf(s: Store) {
    && KeyedById(s)
    && TenantsWf(s.tenants)
    && UsersWf(s.users, s.tenants)
    && NotesWf(s.notes, s.users, s.tenants)
    && RecordsWf(s.refreshTokens)
  }

  /** The record `generateTokens` stores matches its token. */
  lemma IssuedRecordMatches(p: TokenPayload, now: nat)
    ensures RecordMatchesToken(RefreshTokenFor(p, now),
      RefreshRecord(RefreshTokenFor(p, now), p.userId, p.tenantId, now + REFRESH_RECORD_LIFETIME))
  {
    DecodeSign(Token(RefreshSecret, Claims(p, now, now + REFRESH_TOKEN_LIFETIME)));
  }

  /** A caller that passes tenant isolation after authentication belongs
      to the tenant isolation attaches. */
  lemma IsolatedCaller(req: Request, env: Env, s: Store)
    requires KeyedById(s)
    requires Authenticate(req, env, s).Next?
    requires EnforceTenantIsolation(Authenticate(req, env, s).request, env, s).Next?
    ensures Caller(req, env, s).Some?
    ensures var r := EnforceTenantIsolation(Authenticate(req, env, s).request, env, s).request;
      var u := Caller(req, env, s).value;
      && u.id in s.users && s.users[u.id] == u
      && r.user == Some(PopulatedUser(s, u))
      && r.tenant.Some? && r.tenant.value.id == u.tenantId
      && u.tenantId in s.tenants && s.tenants[u.tenantId] == r.tenant.value
  {
    AuthenticatedCaller(req, env, s);
    var a := Authenticate(req, env, s).request;
    var u := Caller(req, env, s).value;
    var t := EnforceTenantIsolation(a, env, s).request.tenant.value;
    assert UserTenantId(a.user.value) == Some(t.id);
  }

  /** What a request that passed the note guards carries: the caller named by
      its access token, and the stored tenant of the caller. */
  lemma NoteGuardsFacts(e: Endpoint, req: Request, env: Env, s: Store)
    requires KeyedById(s) && IsNoteRoute(e) && NoteGuards(e, req, env, s).Next?
    ensures Caller(req, env, s).Some?
    ensures var r := NoteGuards(e, req, env, s).request; var u := Caller(req, env, s).value;
      && u.id in s.users && s.users[u.id] == u
      && r.user.Some? && r.user.value.user == u
      && r.tenant.Some? && r.tenant.value.id == u.tenantId
      && u.tenantId in s.tenants && s.tenants[u.tenantId] == r.tenant.value
  {
    IsolatedCaller(req, env, s);
  }

  /** What a request that passed the upgrade guards carries: an admin caller
      and the caller's own stored tenant, whose slug is the route's. */
  lemma UpgradeGuardsFacts(req: Request, env: Env, s: Store)
    requires KeyedById(s) && UpgradeGuards(req, env, s).Next?
    ensures Caller(req, env, s).Some?
    ensures var r := UpgradeGuards(req, env, s).request; var u := Caller(req, env, s).value;
      && u.role == Admin
      && r.tenant.Some? && r.tenant.value.id == u.tenantId
      && u.tenantId in s.tenants && s.tenants[u.tenantId] == r.tenant.value
      && r.slug == Some(r.tenant.value.slug)
  {
    AuthenticatedCaller(req, env, s);
    var a := Authenticate(req, env, s).request;
    var u := Caller(req, env, s).value;
    var t := EnforceTenantIsolation(a, env, s).request.tenant.value;
    assert UserTenantId(a.user.value) == Some(t.id);
  }

  /** A request as the note guards hand it on: it carries the stored user
      `u` and `u`'s own stored tenant. */
  predicate Guarded(r: Request, s: Store, u: User) {
    && u.id in s.users && s.users[u.id] == u
    && r.user.Some? && r.user.value.user == u
    && u.tenantId in s.tenants && r.tenant == Some(s.tenants[u.tenantId])
    && s.tenants[u.tenantId].id == u.tenantId
  }

  lemma NoteGuardsGuarded(e: Endpoint, req: Request, env: Env, s: Store)
    requires KeyedById(s) && IsNoteRoute(e) && NoteGuards(e, req, env, s).Next?
    ensures Caller(req, env, s).Some?
    ensures Guarded(NoteGuards(e, req, env, s).request, s, Caller(req, env, s).value)
    ensures var r := NoteGuards(e, req, env, s).request; r == req.(user := r.user, tenant := r.tenant)
  {
    NoteGuardsFacts(e, req, env, s);
  }

  lemma NotesWfAdd(notes: map<nat, Note>, users: map<nat, User>, tenants: map<nat, Tenant>, k: nat, n: Note)
    requires NotesWf(notes, users, tenants) && NoteOk(n, users, tenants)
    ensures NotesWf(notes[k := n], users, tenants)
  {
    var m := notes[k := n];
    forall j | j in m
      ensures NoteOk(m[j], users, tenants)
    {
      if j != k {
        assert m[j] == notes[j];
      }
    }
  }

  /** Adding a valid note of a stored tenant, written by a user of that
      tenant, under the next id keeps the invariant. */
  lemma AddNoteKeepsWf(s: Store, n: Note)
    requires Wf(s)
    requires n.id == s.nextId && NoteOk(n, s.users, s.tenants)
    ensures Wf(s.(notes := s.notes[n.id := n], nextId := s.nextId + 1))
  {
    NotesWfAdd(s.notes, s.users, s.tenants, n.id, n);
  }

  /** Rewriting the text of a stored note, keeping its id, tenant and author,
      keeps the invariant. */
  lemma ReplaceNoteKeepsWf(s: Store, k: nat, n: Note)
    requires Wf(s) && k in s.notes
    requires n.id == k && n.tenantId == s.notes[k].tenantId && n.authorId == s.notes[k].authorId
    requires NoteTextValid(n.title, n.content)
    ensures Wf(s.(notes := s.notes[k := n]))
  {
    NoteOkTextOnly(s.notes[k], n, s.users, s.tenants);
    NotesWfAdd(s.notes, s.users, s.tenants, k, n);
    KeyedAfterReplace(s, k, n);
  }

  lemma KeyedAfterReplace(s: Store, k: nat, n: Note)
    requires KeyedById(s) && k in s.notes && n.id == k
    ensures KeyedById(s.(notes := s.notes[k := n]))
  {
  }

  /** A note whose id, tenant and author are those of a valid note is valid
      when its text is. */
  lemma NoteOkTextOnly(m: Note, n: Note, users: map<nat, User>, tenants: map<nat, Tenant>)
    requires NoteOk(m, users, tenants)
    requires n.tenantId == m.tenantId && n.authorId == m.authorId && NoteTextValid(n.title, n.content)
    ensures NoteOk(n, users, tenants)
  {
  }

  lemma RemoveNoteKeepsWf(s: Store, k: nat)
    requires Wf(s)
    ensures Wf(s.(notes := s.notes - {k}))
  {
  }

  lemma TenantsWfReplace(tenants: map<nat, Tenant>, k: nat, t: Tenant)
    requires TenantsWf(tenants) && k in tenants
    requires t.slug == tenants[k].slug && PlanConsistent(t)
    ensures TenantsWf(tenants[k := t])
  {
    var m := tenants[k := t];
    assert forall j :: j in m ==> m[j].slug == tenants[j].slug;
  }

  /** The user and note invariants only ask which tenant ids exist. */
  lemma SameTenantIds(s: Store, tenants: map<nat, Tenant>)
    requires UsersWf(s.users, s.tenants) && NotesWf(s.notes, s.users, s.tenants)
    requires tenants.Keys == s.tenants.Keys
    ensures UsersWf(s.users, tenants) && NotesWf(s.notes, s.users, tenants)
  {
    forall j | j in s.notes
      ensures NoteOk(s.notes[j], s.users, tenants)
    {
      assert NoteOk(s.notes[j], s.users, s.tenants);
    }
  }

  /** Changing a stored tenant's plan and quota consistently keeps the invariant. */
  lemma ReplaceTenantKeepsWf(s: Store, k: nat, t: Tenant)
    requires Wf(s) && k in s.tenants
    requires t.id == k && t.slug == s.tenants[k].slug && PlanConsistent(t)
    ensures Wf(s.(tenants := s.tenants[k := t]))
  {
    var s' := s.(tenants := s.tenants[k := t]);
    TenantsWfReplace(s.tenants, k, t);
    SameTenantIds(s, s'.tenants);
    assert KeyedById(s');
  }

  /** Changing only the refresh records keeps the invariant when every record
      still matches its token. */
  lemma TokensChangeKeepsWf(s: Store, s': Store)
    requires Wf(s) && OnlyTokensChange(s, s') && RecordsWf(s'.refreshTokens)
    ensures Wf(s')
  {
  }

  /** Removing records keeps the rest matching. */
  lemma RecordsWfRemove(records: map<string, RefreshRecord>, gone: set<string>)
    requires RecordsWf(records)
    ensures RecordsWf(records - gone)
  {
  }

  /** Adding the record `generateTokens` issues keeps the records matching. */
  lemma RecordsWfIssue(records: map<string, RefreshRecord>, p: TokenPayload, now: nat)
    requires RecordsWf(records)
    ensures RecordsWf(records[RefreshTokenFor(p, now) :=
      RefreshRecord(RefreshTokenFor(p, now), p.userId, p.tenantId, now + REFRESH_RECORD_LIFETIME)])
  {
    IssuedRecordMatches(p, now);
  }
}
