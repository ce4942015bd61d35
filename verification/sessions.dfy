/** Sequences of requests: the store invariant over any run, the life of a
    refresh token across runs, and the background expiry of refresh records. */
module Sessions {
  import opened Wrappers
  import opened Text
  import opened Models
  import opened Stores
  import opened Jwt
  import opened Http
  import opened AuthController
  import opened Routes
  import opened Invariants
  import opened Pipeline

  /** One request to one endpoint, with the clock and the store's health at
      that moment. */
  datatype Call = Call(endpoint: Endpoint, req: Request, env: Env)

  /** Serving the calls in order, each against the store the previous one left. */
  function Run(calls: seq<Call>, s: Store): (out: (seq<Response>, Store))
    ensures |out.0| == |calls|
    decreases |calls|
  {
    if calls == [] then ([], s)
    else
      var (r, s1) := Dispatch(calls[0].endpoint, calls[0].req, calls[0].env, s);
      var (rs, s2) := Run(calls[1..], s1);
      ([r] + rs, s2)
  }

  /** A run is its first call followed by the run of the rest. */
  lemma RunStep(calls: seq<Call>, s: Store)
    requires calls != []
    ensures var (r, s1) := Dispatch(calls[0].endpoint, calls[0].req, calls[0].env, s);
      && Run(calls, s).0[0] == r
      && Run(calls, s).1 == Run(calls[1..], s1).1
      && forall i :: 1 <= i < |calls| ==> Run(calls, s).0[i] == Run(calls[1..], s1).0[i - 1]
  {
    var step := Dispatch(calls[0].endpoint, calls[0].req, calls[0].env, s);
    var rest := Run(calls[1..], step.1);
    assert Run(calls, s) == ([step.0] + rest.0, rest.1);
  }

  /** Every run from a well-formed store ends in a well-formed store. */
  lemma {:induction false} RunPreservesWf(calls: seq<Call>, s: Store)
    requires Wf(s)
    ensures Wf(Run(calls, s).1)
    decreases |calls|
  {
    if calls != [] {
      DispatchPreservesWf(calls[0].endpoint, calls[0].req, calls[0].env, s);
      RunPreservesWf(calls[1..], Dispatch(calls[0].endpoint, calls[0].req, calls[0].env, s).1);
    }
  }

  /** `k` decodes to a token issued in second `now`. */
  predicate IssuedAt(k: string, now: nat) {
    Decode(k).Some? && Decode(k).value.claims.iat == now
  }

  lemma RefreshTokenIssuedAt(p: TokenPayload, now: nat)
    ensures IssuedAt(RefreshTokenFor(p, now), now)
  {
    DecodeSign(Token(RefreshSecret, Claims(p, now, now + REFRESH_TOKEN_LIFETIME)));
  }

  /** The records login and refresh add are for tokens issued in the
      request's second. */
  lemma LoginIssuesNow(req: Request, env: Env, s: Store)
    ensures var s' := Login(req, env, s).1;
      forall k :: k in s'.refreshTokens && k !in s.refreshTokens ==> IssuedAt(k, env.now)
  {
    if Login(req, env, s).0.status == 200 {
      var u := FindUserByEmail(s, Lower(req.email.value)).value;
      RefreshTokenIssuedAt(PayloadOf(u, s.tenants[u.tenantId]), env.now);
    }
  }

  lemma RefreshIssuesNow(req: Request, env: Env, s: Store)
    ensures var s' := Refresh(req, env, s).1;
      forall k :: k in s'.refreshTokens && k !in s.refreshTokens ==> IssuedAt(k, env.now)
  {
    if Refresh(req, env, s).0.status == 200 {
      var c := Decode(RefreshTokenOf(req)).value.claims;
      RefreshTokenIssuedAt(PayloadOf(s.users[c.payload.userId], s.tenants[c.payload.tenantId]), env.now);
    }
  }

  /** Every refresh record a request adds is for a token issued in that
      request's second. */
  lemma NewRecordsIssuedNow(e: Endpoint, req: Request, env: Env, s: Store)
    requires Wf(s)
    ensures var s' := Dispatch(e, req, env, s).1;
      forall k :: k in s'.refreshTokens && k !in s.refreshTokens ==> IssuedAt(k, env.now)
  {
    match e {
      case LoginRoute => LoginIssuesNow(req, env, s);
      case RefreshRoute => RefreshIssuesNow(req, env, s);
      case LogoutRoute =>
      case MeRoute =>
      case UpgradeRoute => UpgradeSwitchesOwnTenant(req, env, s);
      case _ => NoteRoutesIsolateTenants(e, req, env, s);
    }
  }

  /** A refresh token that is not stored stays unstored through any run in
      which no call happens in the second the token was issued, and every
      refresh that presents it in that run is refused. */
  lemma {:induction false} RevokedStaysRevoked(calls: seq<Call>, s: Store, token: string)
    requires Wf(s) && token !in s.refreshTokens
    requires forall i :: 0 <= i < |calls| ==> !IssuedAt(token, calls[i].env.now)
    ensures token !in Run(calls, s).1.refreshTokens
    ensures forall i :: (0 <= i < |calls| && calls[i].endpoint == RefreshRoute
                         && RefreshTokenOf(calls[i].req) == token) ==> Run(calls, s).0[i].status != 200
    decreases |calls|
  {
    if calls != [] {
      var c := calls[0];
      var s1 := Dispatch(c.endpoint, c.req, c.env, s).1;
      NewRecordsIssuedNow(c.endpoint, c.req, c.env, s);
      DispatchPreservesWf(c.endpoint, c.req, c.env, s);
      assert forall i :: 0 <= i < |calls[1..]| ==> calls[1..][i] == calls[i + 1];
      RevokedStaysRevoked(calls[1..], s1, token);
      RunStep(calls, s);
    }
  }

  /** One-shot refresh: once a refresh with `token` has succeeded in a later
      second than the token was issued, no later refresh with the same token
      succeeds as long as the clock does not go back. */
  lemma OneShotRefresh(first: Call, later: seq<Call>, s: Store)
    requires Wf(s) && first.endpoint == RefreshRoute
    requires Dispatch(RefreshRoute, first.req, first.env, s).0.status == 200
    requires var token := RefreshTokenOf(first.req);
      Decode(token).Some? && Decode(token).value.claims.iat < first.env.now
    requires forall i :: 0 <= i < |later| ==> first.env.now <= later[i].env.now
    ensures var token := RefreshTokenOf(first.req);
      var rs := Run([first] + later, s).0;
      forall i :: (0 < i < |rs| && ([first] + later)[i].endpoint == RefreshRoute
                   && RefreshTokenOf(([first] + later)[i].req) == token) ==> rs[i].status != 200
  {
    var token := RefreshTokenOf(first.req);
    var s1 := Refresh(first.req, first.env, s).1;
    assert Dispatch(RefreshRoute, first.req, first.env, s) == Refresh(first.req, first.env, s);
    RefreshRotates(first.req, first.env, s);
    DispatchPreservesWf(RefreshRoute, first.req, first.env, s);
    RevokedStaysRevoked(later, s1, token);
    var calls := [first] + later;
    assert calls[1..] == later;
    RunStep(calls, s);
  }

  /** A successful refresh stores the token it issues. */
  lemma RefreshStoresIssued(req: Request, env: Env, s: Store)
    requires Refresh(req, env, s).0.status == 200
    ensures Decode(RefreshTokenOf(req)).Some?
    ensures var c := Decode(RefreshTokenOf(req)).value.claims;
      && c.payload.userId in s.users && c.payload.tenantId in s.tenants
      && RefreshTokenFor(PayloadOf(s.users[c.payload.userId], s.tenants[c.payload.tenantId]), env.now)
         in Refresh(req, env, s).1.refreshTokens
  {
  }

  /** Refreshing in the very second a token was issued signs the same claims
      again and so re-issues the presented token itself: rotation within one
      second leaves the old token valid. */
  lemma SameSecondRefreshReissues(req: Request, env: Env, s: Store, p: TokenPayload)
    requires KeyedById(s) && p.userId in s.users && p.tenantId in s.tenants && s.users[p.userId].role == p.role
    requires RefreshTokenOf(req) == RefreshTokenFor(p, env.now)
    requires Refresh(req, env, s).0.status == 200
    ensures RefreshTokenOf(req) in Refresh(req, env, s).1.refreshTokens
  {
    var c := Claims(p, env.now, env.now + REFRESH_TOKEN_LIFETIME);
    DecodeSign(Token(RefreshSecret, c));
    RefreshStoresIssued(req, env, s);
    assert PayloadOf(s.users[p.userId], s.tenants[p.tenantId]) == p;
  }
}
