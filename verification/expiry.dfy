/** The expiry index on refresh records: the database deletes a record in
    the background once its expiry has passed. Such deletions are invisible
    to every request, because a record is only ever consulted for a token
    that still verifies, and a token outlives its record by nothing: both
    expire seven days of 86400 seconds after issue. A record deleted while
    its token still verifies would be visible, as a refused refresh. */
module Expiry {
  import opened Wrappers
  import opened Text
  import opened Models
  import opened Stores
  import opened Jwt
  import opened Http
  import opened AuthMiddleware
  import opened TenantIsolation
  import opened NotesController
  import opened TenantController
  import opened AuthController
  import opened Routes
  import opened Invariants
  import opened Sessions

  /** Tokens whose expiry has passed by second `now`; the background
      deletion may remove the records of any of them. */
  predicate ExpiredBy(gone: set<string>, now: nat) {
    forall k :: k in gone ==> Decode(k).Some? && Decode(k).value.claims.exp <= now
  }

  /** The store after the background deletion removed the records of `gone`. */
  function Sweep(s: Store, gone: set<string>): (t: Store)
    ensures t.refreshTokens.Keys == s.refreshTokens.Keys - gone
    ensures t == s.(refreshTokens := t.refreshTokens)
  {
    s.(refreshTokens := s.refreshTokens - gone)
  }

  lemma ExpiredLater(gone: set<string>, now: nat, later: nat)
    requires ExpiredBy(gone, now) && now <= later
    ensures ExpiredBy(gone, later)
  {
  }

  /** A token issued at `now` has not expired by `now`, so no deletion at
      `now` touches it. */
  lemma IssuedNotExpired(p: TokenPayload, now: nat, gone: set<string>)
    requires ExpiredBy(gone, now)
    ensures RefreshTokenFor(p, now) !in gone
  {
    DecodeSign(Token(RefreshSecret, Claims(p, now, now + REFRESH_TOKEN_LIFETIME)));
  }

  /** A token that verifies at `now` is not among the expired ones. */
  lemma VerifiedNotExpired(k: string, now: nat, gone: set<string>)
    requires ExpiredBy(gone, now) && Verify(RefreshSecret, k, now).Ok?
    ensures k !in gone
  {
  }

  /** The guards never read refresh records. */
  lemma AuthenticationIgnoresRecords(req: Request, env: Env, s: Store, t: Store)
    requires t == s.(refreshTokens := t.refreshTokens)
    ensures Authenticate(req, env, t) == Authenticate(req, env, s)
    ensures EnforceTenantIsolation(req, env, t) == EnforceTenantIsolation(req, env, s)
  {
    assert t.users == s.users && t.tenants == s.tenants;
    assert forall slug :: FindTenantBySlug(t, slug) == FindTenantBySlug(s, slug);
  }

  lemma GuardsIgnoreRecords(e: Endpoint, req: Request, env: Env, s: Store, t: Store)
    requires t == s.(refreshTokens := t.refreshTokens)
    ensures IsNoteRoute(e) ==> NoteGuards(e, req, env, t) == NoteGuards(e, req, env, s)
    ensures UpgradeGuards(req, env, t) == UpgradeGuards(req, env, s)
    ensures Authenticate(req, env, t) == Authenticate(req, env, s)
  {
    AuthenticationIgnoresRecords(req, env, s, t);
    var a := Authenticate(req, env, s);
    if a.Next? {
      AuthenticationIgnoresRecords(a.request, env, s, t);
      var r := RequireRole([Admin], a.request);
      if r.Next? {
        AuthenticationIgnoresRecords(r.request, env, s, t);
      }
    }
  }

  /** The note handlers and the plan toggle neither read nor write refresh
      records, so a deletion commutes with them. */
  lemma CommitIgnoresSweep(s: Store, d: (Response, Option<Note>), gone: set<string>)
    ensures Commit(Sweep(s, gone), d) == (Commit(s, d).0, Sweep(Commit(s, d).1, gone))
  {
  }

  lemma CreateIgnoresSweep(req: Request, env: Env, s: Store, gone: set<string>)
    ensures CreateNote(req, env, Sweep(s, gone)) == (CreateNote(req, env, s).0, Sweep(CreateNote(req, env, s).1, gone))
  {
    var t := Sweep(s, gone);
    if req.tenant.Some? {
      assert NoteCount(t, req.tenant.value.id) == NoteCount(s, req.tenant.value.id);
    }
    CommitIgnoresSweep(s, CreateDecision(req, env, TenantCount(req, s), s.nextId), gone);
  }

  lemma ListIgnoresSweep(req: Request, env: Env, s: Store, gone: set<string>)
    ensures GetNotes(req, env, Sweep(s, gone)) == (GetNotes(req, env, s).0, Sweep(GetNotes(req, env, s).1, gone))
  {
    var t := Sweep(s, gone);
    assert forall n :: Listing(t, n) == Listing(s, n);
  }

  lemma ReadIgnoresSweep(req: Request, env: Env, s: Store, gone: set<string>)
    ensures GetNoteById(req, env, Sweep(s, gone)) == (GetNoteById(req, env, s).0, Sweep(GetNoteById(req, env, s).1, gone))
  {
  }

  lemma UpdateIgnoresSweep(req: Request, env: Env, s: Store, gone: set<string>)
    ensures UpdateNote(req, env, Sweep(s, gone)) == (UpdateNote(req, env, s).0, Sweep(UpdateNote(req, env, s).1, gone))
  {
  }

  lemma DeleteIgnoresSweep(req: Request, env: Env, s: Store, gone: set<string>)
    ensures DeleteNote(req, env, Sweep(s, gone)) == (DeleteNote(req, env, s).0, Sweep(DeleteNote(req, env, s).1, gone))
  {
  }

  lemma NoteHandlerIgnoresSweep(e: Endpoint, req: Request, env: Env, s: Store, gone: set<string>)
    requires IsNoteRoute(e)
    ensures NoteHandler(e, req, env, Sweep(s, gone)) ==
      (NoteHandler(e, req, env, s).0, Sweep(NoteHandler(e, req, env, s).1, gone))
  {
    match e {
      case CreateNoteRoute => CreateIgnoresSweep(req, env, s, gone);
      case ListNotesRoute => ListIgnoresSweep(req, env, s, gone);
      case GetNoteRoute => ReadIgnoresSweep(req, env, s, gone);
      case UpdateNoteRoute => UpdateIgnoresSweep(req, env, s, gone);
      case DeleteNoteRoute => DeleteIgnoresSweep(req, env, s, gone);
    }
  }

  lemma ToggleIgnoresSweep(req: Request, env: Env, s: Store, gone: set<string>)
    ensures ToggleTenantPlan(req, env, Sweep(s, gone)) ==
      (ToggleTenantPlan(req, env, s).0, Sweep(ToggleTenantPlan(req, env, s).1, gone))
  {
  }

  lemma LoginIgnoresSweep(req: Request, env: Env, s: Store, gone: set<string>)
    requires ExpiredBy(gone, env.now)
    ensures Login(req, env, Sweep(s, gone)) == (Login(req, env, s).0, Sweep(Login(req, env, s).1, gone))
  {
    var t := Sweep(s, gone);
    if Truthy(req.email) && Truthy(req.password) && !env.storeDown {
      assert FindUserByEmail(t, Lower(req.email.value)) == FindUserByEmail(s, Lower(req.email.value));
      match FindUserByEmail(s, Lower(req.email.value))
      case None =>
      case Some(u) =>
        if u.tenantId in s.tenants {
          var p := PayloadOf(u, s.tenants[u.tenantId]);
          IssuedNotExpired(p, env.now, gone);
          var k := RefreshTokenFor(p, env.now);
          var r := RefreshRecord(k, p.userId, p.tenantId, env.now + REFRESH_RECORD_LIFETIME);
          assert (s.refreshTokens - gone)[k := r] == s.refreshTokens[k := r] - gone;
        }
    }
  }

  lemma LogoutIgnoresSweep(req: Request, env: Env, s: Store, gone: set<string>)
    ensures Logout(req, env, Sweep(s, gone)) == (Logout(req, env, s).0, Sweep(Logout(req, env, s).1, gone))
  {
    if Truthy(req.refreshCookie) && !env.storeDown {
      assert s.refreshTokens - gone - {req.refreshCookie.value} == s.refreshTokens - {req.refreshCookie.value} - gone;
    }
  }

  lemma RefreshIgnoresSweep(req: Request, env: Env, s: Store, gone: set<string>)
    requires ExpiredBy(gone, env.now)
    ensures Refresh(req, env, Sweep(s, gone)) == (Refresh(req, env, s).0, Sweep(Refresh(req, env, s).1, gone))
  {
    var token := RefreshTokenOf(req);
    if token != "" && Verify(RefreshSecret, token, env.now).Ok? && !env.storeDown && token in s.refreshTokens {
      VerifiedNotExpired(token, env.now, gone);
      var c := Verify(RefreshSecret, token, env.now).value;
      if c.payload.userId in s.users && c.payload.tenantId in s.tenants {
        var p := PayloadOf(s.users[c.payload.userId], s.tenants[c.payload.tenantId]);
        IssuedNotExpired(p, env.now, gone);
        var k := RefreshTokenFor(p, env.now);
        var r := RefreshRecord(k, p.userId, p.tenantId, env.now + REFRESH_RECORD_LIFETIME);
        var rest := s.refreshTokens - {token};
        assert (s.refreshTokens - gone) - {token} == rest - gone;
        assert (rest - gone)[k := r] == rest[k := r] - gone;
      }
    }
  }

  /** Serving a request after a background deletion of expired records gives
      the same reply, and the same store less those records. */
  lemma DispatchIgnoresSweep(e: Endpoint, req: Request, env: Env, s: Store, gone: set<string>)
    requires ExpiredBy(gone, env.now)
    ensures Dispatch(e, req, env, Sweep(s, gone)) == (Dispatch(e, req, env, s).0, Sweep(Dispatch(e, req, env, s).1, gone))
  {
    GuardsIgnoreRecords(e, req, env, s, Sweep(s, gone));
    match e {
      case LoginRoute => LoginIgnoresSweep(req, env, s, gone);
      case LogoutRoute => LogoutIgnoresSweep(req, env, s, gone);
      case RefreshRoute => RefreshIgnoresSweep(req, env, s, gone);
      case MeRoute =>
      case UpgradeRoute =>
        if UpgradeGuards(req, env, s).Next? {
          ToggleIgnoresSweep(UpgradeGuards(req, env, s).request, env, s, gone);
        }
      case _ =>
        if NoteGuards(e, req, env, s).Next? {
          NoteHandlerIgnoresSweep(e, NoteGuards(e, req, env, s).request, env, s, gone);
        }
    }
  }

  /** The deletion must wait for the token: removing the record of a token
      that a refresh would accept makes that refresh fail with 401. */
  lemma EarlySweepRefused(req: Request, env: Env, s: Store)
    requires Refresh(req, env, s).0.status == 200
    ensures Refresh(req, env, Sweep(s, {RefreshTokenOf(req)})).0 == Fail(401, INVALID_REFRESH)
    ensures !ExpiredBy({RefreshTokenOf(req)}, env.now)
  {
  }

  /** Under the record invariant, stored records whose expiry date has
      passed belong to expired tokens: the background deletion's choice,
      made on the record's date, is one `ExpiredBy` covers. */
  lemma ExpiredRecords(records: map<string, RefreshRecord>, gone: set<string>, now: nat)
    requires RecordsWf(records) && gone <= records.Keys
    requires forall k :: k in gone ==> records[k].expiresAt <= now
    ensures ExpiredBy(gone, now)
  {
    forall k | k in gone
      ensures Decode(k).Some? && Decode(k).value.claims.exp <= now
    {
      assert RecordMatchesToken(k, records[k]);
    }
  }

  /** Everything the background deletion removed over a run. */
  function Gathered(gones: seq<set<string>>): (all: set<string>)
    ensures forall i :: 0 <= i < |gones| ==> gones[i] <= all
    decreases |gones|
  {
    if gones == [] then {} else gones[0] + Gathered(gones[1..])
  }

  /** A run in which the background deletion removes the records of
      `gones[i]` just before call `i`. */
  function RunSwept(calls: seq<Call>, gones: seq<set<string>>, s: Store): (out: (seq<Response>, Store))
    requires |gones| == |calls|
    ensures |out.0| == |calls|
    decreases |calls|
  {
    if calls == [] then ([], s)
    else
      var (r, s1) := Dispatch(calls[0].endpoint, calls[0].req, calls[0].env, Sweep(s, gones[0]));
      var (rs, s2) := RunSwept(calls[1..], gones[1..], s1);
      ([r] + rs, s2)
  }

  lemma SweepTwice(s: Store, a: set<string>, b: set<string>)
    ensures Sweep(Sweep(s, a), b) == Sweep(s, a + b)
  {
    assert s.refreshTokens - a - b == s.refreshTokens - (a + b);
  }

  /** The clock never goes back during the run. */
  predicate ClockMonotone(calls: seq<Call>) {
    forall i, j :: 0 <= i <= j < |calls| ==> calls[i].env.now <= calls[j].env.now
  }

  lemma {:induction false} SweptRunAgrees(calls: seq<Call>, gones: seq<set<string>>, s: Store, before: set<string>)
    requires |gones| == |calls| && ClockMonotone(calls)
    requires forall i :: 0 <= i < |calls| ==> ExpiredBy(gones[i], calls[i].env.now)
    requires calls != [] ==> ExpiredBy(before, calls[0].env.now)
    ensures RunSwept(calls, gones, Sweep(s, before)).0 == Run(calls, s).0
    ensures RunSwept(calls, gones, Sweep(s, before)).1 == Sweep(Run(calls, s).1, before + Gathered(gones))
    decreases |calls|
  {
    if calls == [] {
    } else {
      var c := calls[0];
      SweepTwice(s, before, gones[0]);
      DispatchIgnoresSweep(c.endpoint, c.req, c.env, s, before + gones[0]);
      var s1 := Dispatch(c.endpoint, c.req, c.env, s).1;
      if |calls| > 1 {
        ExpiredLater(before + gones[0], c.env.now, calls[1].env.now);
      }
      assert forall i :: 0 <= i < |calls[1..]| ==> calls[1..][i] == calls[i + 1];
      SweptRunAgrees(calls[1..], gones[1..], s1, before + gones[0]);
      RunStep(calls, s);
      assert before + Gathered(gones) == (before + gones[0]) + Gathered(gones[1..]);
    }
  }

  /** A run with background deletions of expired records between the calls
      gives exactly the replies of the run without them, and ends in the
      same store less the deleted records. */
  lemma SweepsInvisible(calls: seq<Call>, gones: seq<set<string>>, s: Store)
    requires |gones| == |calls| && ClockMonotone(calls)
    requires forall i :: 0 <= i < |calls| ==> ExpiredBy(gones[i], calls[i].env.now)
    ensures RunSwept(calls, gones, s).0 == Run(calls, s).0
    ensures RunSwept(calls, gones, s).1 == Sweep(Run(calls, s).1, Gathered(gones))
  {
    assert Sweep(s, {}) == s;
    SweptRunAgrees(calls, gones, s, {});
    assert {} + Gathered(gones) == Gathered(gones);
  }
}
