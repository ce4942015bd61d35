/** The guarantees a request gets from its route as a whole: tenant
    isolation, note ownership, the free quota, and the store invariant. Each
    handler is first considered behind its guards, then each route. */
module Pipeline {
  import opened Wrappers
  import opened Text
  import opened Models
  import opened Stores
  import opened Jwt
  import opened Http
  import opened AuthMiddleware
  import opened NotesController
  import opened TenantController
  import opened AuthController
  import opened Routes
  import opened Invariants

  /** Note `k` differs between the two stores (added, removed or changed). */
  predicate NoteChanged(s: Store, s': Store, k: nat) {
    (k in s.notes) != (k in s'.notes) || (k in s.notes && k in s'.notes && s.notes[k] != s'.notes[k])
  }

  /** What a note request may touch when tenant `t` made it: tenants, users
      and refresh records stay as they were, every note that changed belonged
      to `t` before and after, and every note in the reply is `t`'s. */
  ghost predicate ScopedTo(s: Store, s': Store, b: Body, t: nat) {
    && s'.tenants == s.tenants && s'.users == s.users && s'.refreshTokens == s.refreshTokens
    && (forall k :: NoteChanged(s, s', k) ==>
          (k in s.notes ==> s.notes[k].tenantId == t) && (k in s'.notes ==> s'.notes[k].tenantId == t))
    && (forall i :: 0 <= i < |BodyNotes(b)| ==> BodyNotes(b)[i].tenantId == t)
  }

  /** A request that changes no note and replies with notes of `t` only
      is scoped to `t`. */
  lemma ScopedUnchanged(s: Store, b: Body, t: nat)
    requires forall i :: 0 <= i < |BodyNotes(b)| ==> BodyNotes(b)[i].tenantId == t
    ensures ScopedTo(s, s, b, t)
  {
  }

  /** Writing one note of `t` over a slot that is empty or holds a note of
      `t` is scoped to `t`. */
  lemma ScopedPut(s: Store, s': Store, k: nat, n: Note, b: Body, t: nat)
    requires s'.tenants == s.tenants && s'.users == s.users && s'.refreshTokens == s.refreshTokens
    requires s'.notes == s.notes[k := n] && n.tenantId == t
    requires k in s.notes ==> s.notes[k].tenantId == t
    requires forall i :: 0 <= i < |BodyNotes(b)| ==> BodyNotes(b)[i].tenantId == t
    ensures ScopedTo(s, s', b, t)
  {
    assert forall j :: NoteChanged(s, s', j) ==> j == k;
  }

  /** Removing one note of `t` is scoped to `t`. */
  lemma ScopedRemove(s: Store, s': Store, k: nat, b: Body, t: nat)
    requires s'.tenants == s.tenants && s'.users == s.users && s'.refreshTokens == s.refreshTokens
    requires s'.notes == s.notes - {k} && k in s.notes && s.notes[k].tenantId == t
    requires BodyNotes(b) == []
    ensures ScopedTo(s, s', b, t)
  {
    assert forall j :: NoteChanged(s, s', j) ==> j == k;
  }

  /** Adding a note under the next id raises its tenant's count by one. */
  lemma NoteCountAfterAdd(s: Store, n: Note)
    requires KeyedById(s) && n.id == s.nextId
    ensures NoteCount(s.(notes := s.notes[n.id := n], nextId := s.nextId + 1), n.tenantId) == NoteCount(s, n.tenantId) + 1
  {
    var s' := s.(notes := s.notes[n.id := n], nextId := s.nextId + 1);
    assert KeyedById(s');
    NoteCountIsCardinality(s, n.tenantId);
    NoteCountIsCardinality(s', n.tenantId);
    assert TenantNoteIds(s', n.tenantId) == TenantNoteIds(s, n.tenantId) + {n.id};
    assert n.id !in TenantNoteIds(s, n.tenantId);
  }

  /** A create behind the guards adds at most one note: the caller's own, in
      the caller's tenant, and for a free tenant only while the tenant holds
      fewer notes than its quota. */
  lemma CreateNoteGuarded(r: Request, env: Env, s: Store, u: User)
    requires KeyedById(s) && Guarded(r, s, u)
    ensures var (resp, s') := CreateNote(r, env, s);
      && ScopedTo(s, s', resp.body, u.tenantId)
      && (s' != s ==>
           && resp.body.NoteBody?
           && AddsOneNote(s, s', resp.body.note)
           && resp.body.note.authorId == u.id
           && NoteOk(resp.body.note, s.users, s.tenants)
           && (s.tenants[u.tenantId].plan == Free ==> NoteCount(s, u.tenantId) < s.tenants[u.tenantId].maxNotes)
           && NoteCount(s', u.tenantId) == NoteCount(s, u.tenantId) + 1)
  {
    var (resp, s') := CreateNote(r, env, s);
    if s' != s {
      assert resp.status == 201;
      var n := resp.body.note;
      assert NoteTextValid(n.title, n.content);
      NoteCountAfterAdd(s, n);
      ScopedPut(s, s', n.id, n, resp.body, u.tenantId);
    } else {
      ScopedUnchanged(s, resp.body, u.tenantId);
    }
  }

  /** A create behind the guards keeps the invariant, and a free tenant
      never holds more notes than the free quota. */
  lemma CreateNoteKeepsWf(r: Request, env: Env, s: Store, u: User)
    requires Wf(s) && Guarded(r, s, u)
    ensures Wf(CreateNote(r, env, s).1)
    ensures s.tenants[u.tenantId].plan == Free && CreateNote(r, env, s).1 != s ==>
      NoteCount(s, u.tenantId) < FREE_MAX_NOTES && NoteCount(CreateNote(r, env, s).1, u.tenantId) <= FREE_MAX_NOTES
  {
    CreateNoteGuarded(r, env, s, u);
    var (resp, s') := CreateNote(r, env, s);
    if s' != s {
      AddNoteKeepsWf(s, resp.body.note);
      assert PlanConsistent(s.tenants[u.tenantId]);
    }
  }

  /** A listing behind the guards returns only notes of the caller's tenant. */
  lemma GetNotesGuarded(r: Request, env: Env, s: Store, u: User)
    requires Guarded(r, s, u)
    ensures var (resp, s') := GetNotes(r, env, s);
      s' == s && ScopedTo(s, s', resp.body, u.tenantId)
  {
    ScopedUnchanged(s, GetNotes(r, env, s).0.body, u.tenantId);
  }

  /** A fetch by id behind the guards returns only a note of the caller's tenant. */
  lemma GetNoteByIdGuarded(r: Request, env: Env, s: Store, u: User)
    requires Guarded(r, s, u)
    ensures var (resp, s') := GetNoteById(r, env, s);
      s' == s && ScopedTo(s, s', resp.body, u.tenantId)
  {
    ScopedUnchanged(s, GetNoteById(r, env, s).0.body, u.tenantId);
  }

  /** An update behind the guards touches only the caller's tenant. */
  lemma UpdateNoteScoped(r: Request, env: Env, s: Store, u: User)
    requires Guarded(r, s, u)
    ensures var (resp, s') := UpdateNote(r, env, s);
      ScopedTo(s, s', resp.body, u.tenantId)
  {
    var (resp, s') := UpdateNote(r, env, s);
    if resp.status == 200 {
      var k := ParseDec(r.noteId).value;
      ScopedPut(s, s', k, s'.notes[k], resp.body, u.tenantId);
    } else {
      ScopedUnchanged(s, resp.body, u.tenantId);
    }
  }

  /** An update behind the guards rewrites at most one note, one the caller
      wrote in the caller's tenant, keeping its id, tenant and author. */
  lemma UpdateNoteGuarded(r: Request, env: Env, s: Store, u: User)
    requires Guarded(r, s, u)
    ensures var (resp, s') := UpdateNote(r, env, s);
      && ScopedTo(s, s', resp.body, u.tenantId)
      && (s' != s ==>
           && ParseDec(r.noteId).Some?
           && var k := ParseDec(r.noteId).value;
              && Owns(s, k, u.tenantId, u.id)
              && k in s'.notes && s'.notes[k].id == s.notes[k].id
              && Owns(s', k, u.tenantId, u.id)
              && s' == s.(notes := s.notes[k := s'.notes[k]]))
  {
    UpdateNoteScoped(r, env, s, u);
  }

  lemma UpdateNoteKeepsWf(r: Request, env: Env, s: Store, u: User)
    requires Wf(s) && Guarded(r, s, u)
    ensures Wf(UpdateNote(r, env, s).1)
  {
    UpdateNoteGuarded(r, env, s, u);
    var s' := UpdateNote(r, env, s).1;
    if s' != s {
      var k := ParseDec(r.noteId).value;
      ReplaceNoteKeepsWf(s, k, s'.notes[k]);
    }
  }

  /** A delete behind the guards removes at most one note, one the caller
      wrote in the caller's tenant. */
  lemma DeleteNoteGuarded(r: Request, env: Env, s: Store, u: User)
    requires Guarded(r, s, u)
    ensures var (resp, s') := DeleteNote(r, env, s);
      && ScopedTo(s, s', resp.body, u.tenantId)
      && (s' != s ==>
           && ParseDec(r.noteId).Some?
           && Owns(s, ParseDec(r.noteId).value, u.tenantId, u.id)
           && s' == s.(notes := s.notes - {ParseDec(r.noteId).value}))
  {
    var (resp, s') := DeleteNote(r, env, s);
    if s' != s {
      ScopedRemove(s, s', ParseDec(r.noteId).value, resp.body, u.tenantId);
    } else {
      ScopedUnchanged(s, resp.body, u.tenantId);
    }
  }

  lemma DeleteNoteKeepsWf(r: Request, env: Env, s: Store, u: User)
    requires Wf(s) && Guarded(r, s, u)
    ensures Wf(DeleteNote(r, env, s).1)
  {
    var s' := DeleteNote(r, env, s).1;
    if s' != s {
      RemoveNoteKeepsWf(s, ParseDec(r.noteId).value);
    }
  }

  /** The plan toggle behind its guards switches the caller's own tenant,
      or changes nothing, and keeps the invariant. */
  lemma ToggleGuarded(r: Request, env: Env, s: Store, id: nat)
    requires Wf(s) && id in s.tenants && r.tenant == Some(s.tenants[id])
    ensures var s' := ToggleTenantPlan(r, env, s).1;
      && Wf(s')
      && (s' == s || s' == s.(tenants := s.tenants[id := Switch(s.tenants[id])]))
  {
    var s' := ToggleTenantPlan(r, env, s).1;
    if s' != s {
      assert s.tenants[id].id == id;
      ReplaceTenantKeepsWf(s, id, Switch(s.tenants[id]));
    }
  }

  /** The one record login adds matches its token. */
  lemma LoginRecords(req: Request, env: Env, s: Store)
    requires RecordsWf(s.refreshTokens)
    ensures RecordsWf(Login(req, env, s).1.refreshTokens)
  {
    var (r, s') := Login(req, env, s);
    if r.status == 200 {
      var u := FindUserByEmail(s, Lower(req.email.value)).value;
      RecordsWfIssue(s.refreshTokens, PayloadOf(u, s.tenants[u.tenantId]), env.now);
    }
  }

  /** Login keeps the invariant. */
  lemma LoginKeepsWf(req: Request, env: Env, s: Store)
    requires Wf(s)
    ensures Wf(Login(req, env, s).1)
  {
    LoginRecords(req, env, s);
    TokensChangeKeepsWf(s, Login(req, env, s).1);
  }

  /** Refresh keeps the records matching: a refused refresh at most drops
      the presented record ... */
  lemma RefreshRecords(req: Request, env: Env, s: Store)
    requires RecordsWf(s.refreshTokens)
    ensures RecordsWf(Refresh(req, env, s).1.refreshTokens)
  {
    if Refresh(req, env, s).0.status == 200 {
      RefreshIssuedRecords(req, env, s);
    } else {
      RecordsWfRemove(s.refreshTokens, {RefreshTokenOf(req)});
    }
  }

  /** ... and a successful one replaces it with the record it issues. */
  lemma RefreshIssuedRecords(req: Request, env: Env, s: Store)
    requires RecordsWf(s.refreshTokens) && Refresh(req, env, s).0.status == 200
    ensures RecordsWf(Refresh(req, env, s).1.refreshTokens)
  {
    var token := RefreshTokenOf(req);
    var c := Decode(token).value.claims;
    var p := PayloadOf(s.users[c.payload.userId], s.tenants[c.payload.tenantId]);
    RecordsWfRemove(s.refreshTokens, {token});
    RecordsWfIssue(s.refreshTokens - {token}, p, env.now);
  }

  /** Refresh keeps the invariant. */
  lemma RefreshKeepsWf(req: Request, env: Env, s: Store)
    requires Wf(s)
    ensures Wf(Refresh(req, env, s).1)
  {
    RefreshRecords(req, env, s);
    TokensChangeKeepsWf(s, Refresh(req, env, s).1);
  }

  /** Logout keeps the invariant: it only removes a record. */
  lemma LogoutKeepsWf(req: Request, env: Env, s: Store)
    requires Wf(s)
    ensures Wf(Logout(req, env, s).1)
  {
    var s' := Logout(req, env, s).1;
    if s' != s {
      RecordsWfRemove(s.refreshTokens, {req.refreshCookie.value});
      TokensChangeKeepsWf(s, s');
    }
  }

  /** Each note handler behind the guards is scoped to the caller's tenant
      and keeps the invariant. */
  lemma NoteHandlerGuarded(e: Endpoint, r: Request, env: Env, s: Store, u: User)
    requires Wf(s) && IsNoteRoute(e) && Guarded(r, s, u)
    ensures var (resp, s') := NoteHandler(e, r, env, s);
      ScopedTo(s, s', resp.body, u.tenantId) && Wf(s')
  {
    match e {
      case CreateNoteRoute =>
        CreateNoteGuarded(r, env, s, u);
        CreateNoteKeepsWf(r, env, s, u);
      case ListNotesRoute =>
        GetNotesGuarded(r, env, s, u);
      case GetNoteRoute =>
        GetNoteByIdGuarded(r, env, s, u);
      case UpdateNoteRoute =>
        UpdateNoteScoped(r, env, s, u);
        UpdateNoteKeepsWf(r, env, s, u);
      case DeleteNoteRoute =>
        DeleteNoteGuarded(r, env, s, u);
        DeleteNoteKeepsWf(r, env, s, u);
    }
  }

  /** Serving a note route: a halting guard answers with no body and leaves
      the store alone; otherwise the route's handler runs on the request the
      guards pass on. */
  lemma ServeNoteRoute(e: Endpoint, req: Request, env: Env, s: Store)
    requires IsNoteRoute(e)
    ensures NoteGuards(e, req, env, s).Halt? ==>
      Dispatch(e, req, env, s) == (NoteGuards(e, req, env, s).response, s)
      && NoteGuards(e, req, env, s).response.body == NoBody
    ensures NoteGuards(e, req, env, s).Next? ==>
      Dispatch(e, req, env, s) == NoteHandler(e, NoteGuards(e, req, env, s).request, env, s)
  {
  }

  /** Tenant isolation on the note routes: a request that changes or returns
      any note comes from an authenticated caller, and every note it adds,
      changes, removes or returns belongs to the caller's tenant. Tenants,
      users and refresh records never change, and the invariant is kept. */
  lemma NoteRoutesIsolateTenants(e: Endpoint, req: Request, env: Env, s: Store)
    requires Wf(s) && IsNoteRoute(e)
    ensures var (r, s') := Dispatch(e, req, env, s);
      && Wf(s')
      && s'.tenants == s.tenants && s'.users == s.users && s'.refreshTokens == s.refreshTokens
      && ((s' != s || BodyNotes(r.body) != []) ==>
           Caller(req, env, s).Some? && ScopedTo(s, s', r.body, Caller(req, env, s).value.tenantId))
  {
    ServeNoteRoute(e, req, env, s);
    var g := NoteGuards(e, req, env, s);
    if g.Next? {
      NoteGuardsGuarded(e, req, env, s);
      NoteHandlerGuarded(e, g.request, env, s, Caller(req, env, s).value);
    }
  }

  /** An update or delete behind the guards that changes anything changes
      exactly the note the request names, one the caller wrote in the
      caller's tenant. */
  lemma WriterGuarded(e: Endpoint, r: Request, env: Env, s: Store, u: User)
    requires (e.UpdateNoteRoute? || e.DeleteNoteRoute?) && Guarded(r, s, u)
    ensures var s' := NoteHandler(e, r, env, s).1;
      s' != s ==>
        && ParseDec(r.noteId).Some?
        && var k := ParseDec(r.noteId).value;
           && Owns(s, k, u.tenantId, u.id)
           && (k in s'.notes ==> Owns(s', k, u.tenantId, u.id))
           && forall j :: NoteChanged(s, s', j) ==> j == k
  {
    var s' := NoteHandler(e, r, env, s).1;
    if s' != s {
      if e.UpdateNoteRoute? {
        UpdateNoteGuarded(r, env, s, u);
      } else {
        DeleteNoteGuarded(r, env, s, u);
      }
      var k := ParseDec(r.noteId).value;
      assert forall j :: NoteChanged(s, s', j) ==> j == k;
    }
  }

  /** Ownership: an update or delete that changes anything changes exactly
      the note the route names, and that note was written by the caller in
      the caller's tenant. */
  lemma OnlyAuthorsModify(e: Endpoint, req: Request, env: Env, s: Store)
    requires KeyedById(s) && (e.UpdateNoteRoute? || e.DeleteNoteRoute?)
    ensures var s' := Dispatch(e, req, env, s).1;
      s' != s ==>
        && Caller(req, env, s).Some? && ParseDec(req.noteId).Some?
        && var k := ParseDec(req.noteId).value;
           var u := Caller(req, env, s).value;
           && Owns(s, k, u.tenantId, u.id)
           && (k in s'.notes ==> Owns(s', k, u.tenantId, u.id))
           && forall j :: NoteChanged(s, s', j) ==> j == k
  {
    ServeNoteRoute(e, req, env, s);
    var g := NoteGuards(e, req, env, s);
    if g.Next? {
      NoteGuardsGuarded(e, req, env, s);
      WriterGuarded(e, g.request, env, s, Caller(req, env, s).value);
    }
  }

  /** A create that succeeds adds exactly one note, written by the caller in
      the caller's tenant. */
  lemma CreateAddsCallersNote(req: Request, env: Env, s: Store)
    requires Wf(s)
    ensures var (r, s') := Dispatch(CreateNoteRoute, req, env, s);
      s' != s ==>
        && Caller(req, env, s).Some? && r.body.NoteBody?
        && AddsOneNote(s, s', r.body.note)
        && r.body.note.authorId == Caller(req, env, s).value.id
        && r.body.note.tenantId == Caller(req, env, s).value.tenantId
  {
    ServeNoteRoute(CreateNoteRoute, req, env, s);
    var g := NoteGuards(CreateNoteRoute, req, env, s);
    if g.Next? {
      NoteGuardsGuarded(CreateNoteRoute, req, env, s);
      CreateNoteGuarded(g.request, env, s, Caller(req, env, s).value);
    }
  }

  /** The free quota through the whole route: a create succeeds for a free
      tenant only while it holds fewer notes than the free quota, so no
      create takes a free tenant past it. A downgrade keeps the notes a pro
      tenant already has, however many. */
  lemma QuotaRespected(req: Request, env: Env, s: Store)
    requires Wf(s)
    ensures var s' := Dispatch(CreateNoteRoute, req, env, s).1;
      s' != s ==>
        && Caller(req, env, s).Some?
        && var t := Caller(req, env, s).value.tenantId;
           && t in s.tenants
           && NoteCount(s', t) == NoteCount(s, t) + 1
           && (s.tenants[t].plan == Free ==> NoteCount(s, t) < FREE_MAX_NOTES && NoteCount(s', t) <= FREE_MAX_NOTES)
  {
    ServeNoteRoute(CreateNoteRoute, req, env, s);
    var g := NoteGuards(CreateNoteRoute, req, env, s);
    if g.Next? {
      NoteGuardsGuarded(CreateNoteRoute, req, env, s);
      CreateNoteGuarded(g.request, env, s, Caller(req, env, s).value);
      CreateNoteKeepsWf(g.request, env, s, Caller(req, env, s).value);
    }
  }

  /** The upgrade route changes nothing, or switches the plan of the calling
      admin's own tenant and nothing else; the invariant is kept. */
  lemma UpgradeSwitchesOwnTenant(req: Request, env: Env, s: Store)
    requires Wf(s)
    ensures var s' := Dispatch(UpgradeRoute, req, env, s).1;
      && Wf(s')
      && (s' != s ==>
           && Caller(req, env, s).Some? && Caller(req, env, s).value.role == Admin
           && var t := Caller(req, env, s).value.tenantId;
              t in s.tenants && s' == s.(tenants := s.tenants[t := Switch(s.tenants[t])]))
  {
    var g := UpgradeGuards(req, env, s);
    if g.Next? {
      UpgradeGuardsFacts(req, env, s);
      ToggleGuarded(g.request, env, s, Caller(req, env, s).value.tenantId);
    }
  }

  /** Every request keeps the store invariant. */
  lemma DispatchPreservesWf(e: Endpoint, req: Request, env: Env, s: Store)
    requires Wf(s)
    ensures Wf(Dispatch(e, req, env, s).1)
  {
    match e {
      case UpgradeRoute => UpgradeSwitchesOwnTenant(req, env, s);
      case LoginRoute => LoginKeepsWf(req, env, s);
      case LogoutRoute => LogoutKeepsWf(req, env, s);
      case RefreshRoute => RefreshKeepsWf(req, env, s);
      case MeRoute =>
      case _ => NoteRoutesIsolateTenants(e, req, env, s);
    }
  }
}
