/** Token issuing and the session cookies.

    Signing is abstracted to a text encoding that is injective and tagged with
    the secret used: a token verifies under a secret exactly when it was signed
    with that secret and has not expired. The cryptography itself is not
    modelled. */
module Jwt {
  import opened Wrappers
  import opened Text
  import opened Models

  /** `JWT_SECRET` signs access tokens, `JWT_REFRESH_SECRET` refresh tokens. */
  datatype Secret = AccessSecret | RefreshSecret

  /** The signed payload `{ userId, tenantId, role }`. */
  datatype TokenPayload = TokenPayload(userId: nat, tenantId: nat, role: Role)
  /** The payload with the issue time and expiry the signer adds, in seconds. */
  datatype Claims = Claims(payload: TokenPayload, iat: nat, exp: nat)
  datatype Token = Token(secret: Secret, claims: Claims)

  /** Default lifetimes of the two tokens: `'15m'` and `'7d'`. */
  const ACCESS_TOKEN_LIFETIME: nat := 15 * 60
  const REFRESH_TOKEN_LIFETIME: nat := 7 * 24 * 60 * 60
  /** Lifetime of the stored refresh record: the issue date plus 7 days,
      taken as 7 days of 86400 seconds (a clock without daylight-saving
      changes). */
  const REFRESH_RECORD_LIFETIME: nat := 7 * 24 * 60 * 60
  /** Cookie lifetimes in milliseconds. */
  const ACCESS_COOKIE_MAX_AGE: nat := 15 * 60 * 1000
  const REFRESH_COOKIE_MAX_AGE: nat := 7 * 24 * 60 * 60 * 1000

  const ACCESS_COOKIE: string := "accessToken"
  const REFRESH_COOKIE: string := "refreshToken"

  function SecretTag(k: Secret): char {
    match k
    case AccessSecret => 'a'
    case RefreshSecret => 'r'
  }

  function SecretOfTag(c: char): Option<Secret> {
    if c == 'a' then Some(AccessSecret) else if c == 'r' then Some(RefreshSecret) else None
  }

  function RoleTag(r: Role): char {
    match r
    case Admin => 'A'
    case Member => 'M'
  }

  function RoleOfTag(c: char): Option<Role> {
    if c == 'A' then Some(Admin) else if c == 'M' then Some(Member) else None
  }

  /** The numbers a token carries, in the order they are written. */
  function ClaimNumbers(c: Claims): seq<nat> {
    [c.payload.userId, c.payload.tenantId, c.iat, c.exp]
  }

  /** The decimal numeral of each number. */
  function Numerals(ns: seq<nat>): (r: seq<string>)
    ensures |r| == |ns|
    ensures forall i :: 0 <= i < |ns| ==> r[i] == Dec(ns[i])
    decreases |ns|
  {
    if ns == [] then [] else [Dec(ns[0])] + Numerals(ns[1..])
  }

  /** Reading each piece as a canonical decimal numeral; `None` when one is not. */
  function ParseNumerals(fs: seq<string>): (r: Option<seq<nat>>)
    ensures r.Some? ==> |r.value| == |fs|
    decreases |fs|
  {
    if fs == [] then Some([])
    else
      match (ParseDec(fs[0]), ParseNumerals(fs[1..]))
      case (Some(n), Some(ns)) => Some([n] + ns)
      case _ => None
  }

  /** `jwt.sign`: the token text. */
  function Sign(t: Token): string {
    [SecretTag(t.secret), RoleTag(t.claims.payload.role)] + Join(Numerals(ClaimNumbers(t.claims)), ".")
  }

  /** Reading a token text back; `None` for text no signer produced. */
  function Decode(s: string): Option<Token> {
    if |s| < 2 then None
    else
      match (SecretOfTag(s[0]), RoleOfTag(s[1]), ParseNumerals(Split(s[2..], '.')))
      case (Some(k), Some(role), Some(ns)) =>
        if |ns| != 4 then None else Some(Token(k, Claims(TokenPayload(ns[0], ns[1], role), ns[2], ns[3])))
      case _ => None
  }

  /** Numerals read back as the numbers they denote ... */
  lemma {:induction false} ParseNumeralsNumerals(ns: seq<nat>)
    ensures ParseNumerals(Numerals(ns)) == Some(ns)
    decreases |ns|
  {
    if ns != [] {
      var fs := Numerals(ns);
      assert fs[1..] == Numerals(ns[1..]);
      ParseNumeralsNumerals(ns[1..]);
      ParseDecDec(ns[0]);
      assert ns == [ns[0]] + ns[1..];
    }
  }

  /** ... and pieces that read back are the numerals of what they denote. */
  lemma {:induction false} NumeralsParseNumerals(fs: seq<string>)
    requires ParseNumerals(fs).Some?
    ensures Numerals(ParseNumerals(fs).value) == fs
    decreases |fs|
  {
    if fs != [] {
      var ns := ParseNumerals(fs).value;
      NumeralsParseNumerals(fs[1..]);
      ParseDecCanonical(fs[0]);
      assert ns[1..] == ParseNumerals(fs[1..]).value;
      assert Numerals(ns) == [Dec(ns[0])] + Numerals(ns[1..]);
      assert fs == [fs[0]] + fs[1..];
    }
  }

  /** Numerals contain no dot, so they survive joining and splitting. */
  lemma NumeralsHaveNoDot(ns: seq<nat>)
    ensures forall i :: 0 <= i < |Numerals(ns)| ==> '.' !in Numerals(ns)[i]
  {
    forall i | 0 <= i < |ns|
      ensures '.' !in Numerals(ns)[i]
    {
      assert AllDigits(Dec(ns[i]));
    }
  }

  /** A signed token reads back as itself. */
  lemma DecodeSign(t: Token)
    ensures Decode(Sign(t)) == Some(t)
  {
    var s := Sign(t);
    var ns := ClaimNumbers(t.claims);
    var fs := Numerals(ns);
    assert s[2..] == Join(fs, ".");
    NumeralsHaveNoDot(ns);
    SplitJoin(fs, '.');
    ParseNumeralsNumerals(ns);
    match t.secret {
      case AccessSecret =>
      case RefreshSecret =>
    }
    match t.claims.payload.role {
      case Admin =>
      case Member =>
    }
  }

  /** Text that reads back as a token is exactly that token's signature. */
  lemma SignDecode(s: string)
    requires Decode(s).Some?
    ensures Sign(Decode(s).value) == s
  {
    var t := Decode(s).value;
    var fs := Split(s[2..], '.');
    var ns := ParseNumerals(fs).value;
    NumeralsParseNumerals(fs);
    assert ClaimNumbers(t.claims) == ns;
    JoinSplit(s[2..], '.');
    assert SecretTag(t.secret) == s[0];
    assert RoleTag(t.claims.payload.role) == s[1];
    assert s == [s[0], s[1]] + s[2..];
  }

  /** Different tokens have different texts. */
  lemma SignInjective(a: Token, b: Token)
    requires Sign(a) == Sign(b)
    ensures a == b
  {
    DecodeSign(a);
    DecodeSign(b);
  }

  /** Why verification failed; all three are `JsonWebTokenError`s (the
      expiry error is a subclass). */
  datatype JwtError = Malformed | BadSignature | Expired

  /** `jwt.verify(token, secret)` at time `now`: the text must be a token
      signed with `secret` whose expiry is still ahead. */
  function Verify(secret: Secret, s: string, now: nat): Result<Claims, JwtError> {
    match Decode(s)
    case None => Err(Malformed)
    case Some(t) =>
      if t.secret != secret then Err(BadSignature)
      else if now >= t.claims.exp then Err(Expired)
      else Ok(t.claims)
  }

  /** Verification accepts exactly the unexpired tokens signed with the same
      secret, and returns the claims that were signed. */
  lemma VerifyIff(secret: Secret, s: string, now: nat, c: Claims)
    ensures Verify(secret, s, now) == Ok(c) <==> s == Sign(Token(secret, c)) && now < c.exp
  {
    if Verify(secret, s, now) == Ok(c) {
      SignDecode(s);
    }
    if s == Sign(Token(secret, c)) {
      DecodeSign(Token(secret, c));
    }
  }

  /** A token signed with one secret never verifies under the other. */
  lemma WrongSecretRejected(t: Token, other: Secret, now: nat)
    requires other != t.secret
    ensures Verify(other, Sign(t), now) == Err(BadSignature)
  {
    DecodeSign(t);
  }

  /** The access token and refresh token `generateTokens` hands back. */
  datatype TokenPair = TokenPair(accessToken: string, refreshToken: string)

  /** Inserting a refresh record whose token text is already stored violates
      the unique index (a duplicate-key error). */
  datatype IssueError = DuplicateToken

  function AccessTokenFor(p: TokenPayload, now: nat): string {
    Sign(Token(AccessSecret, Claims(p, now, now + ACCESS_TOKEN_LIFETIME)))
  }

  function RefreshTokenFor(p: TokenPayload, now: nat): string {
    Sign(Token(RefreshSecret, Claims(p, now, now + REFRESH_TOKEN_LIFETIME)))
  }

  /** `generateTokens`: signs the payload twice, with the two secrets and
      lifetimes, and stores one refresh record for the refresh token. */
  function GenerateTokens(p: TokenPayload, now: nat, records: map<string, RefreshRecord>)
    : (r: Result<(TokenPair, map<string, RefreshRecord>), IssueError>)
    ensures r.Err? <==> RefreshTokenFor(p, now) in records
    ensures r.Ok? ==> var (pair, records') := r.value;
      && pair.refreshToken !in records
      && records'.Keys == records.Keys + {pair.refreshToken}
      && (forall k :: k in records ==> records'[k] == records[k])
      && records'[pair.refreshToken] == RefreshRecord(pair.refreshToken, p.userId, p.tenantId, now + REFRESH_RECORD_LIFETIME)
    ensures r.Ok? ==> var pair := r.value.0;
      && Verify(AccessSecret, pair.accessToken, now) == Ok(Claims(p, now, now + ACCESS_TOKEN_LIFETIME))
      && Verify(RefreshSecret, pair.refreshToken, now) == Ok(Claims(p, now, now + REFRESH_TOKEN_LIFETIME))
  {
    var access := AccessTokenFor(p, now);
    var refresh := RefreshTokenFor(p, now);
    DecodeSign(Token(AccessSecret, Claims(p, now, now + ACCESS_TOKEN_LIFETIME)));
    DecodeSign(Token(RefreshSecret, Claims(p, now, now + REFRESH_TOKEN_LIFETIME)));
    if refresh in records then Err(DuplicateToken)
    else Ok((TokenPair(access, refresh),
             records[refresh := RefreshRecord(refresh, p.userId, p.tenantId, now + REFRESH_RECORD_LIFETIME)]))
  }

  /** Tokens issued in different seconds differ, whatever their payloads. */
  lemma IssuedAtDifferentTimesDiffer(p: TokenPayload, q: TokenPayload, now: nat, later: nat)
    requires now != later
    ensures RefreshTokenFor(p, now) != RefreshTokenFor(q, later)
  {
    if RefreshTokenFor(p, now) == RefreshTokenFor(q, later) {
      SignInjective(Token(RefreshSecret, Claims(p, now, now + REFRESH_TOKEN_LIFETIME)),
                    Token(RefreshSecret, Claims(q, later, later + REFRESH_TOKEN_LIFETIME)));
    }
  }

  datatype SameSite = Strict | Lax

  datatype CookieOptions = CookieOptions(httpOnly: bool, secure: bool, sameSite: SameSite, maxAge: nat, path: string)

  /** A cookie instruction in the response. */
  datatype CookieOp = SetCookie(name: string, value: string, options: CookieOptions) | ClearCookie(name: string)

  /** The options both session cookies share: HTTP-only, path `/`, and secure
      with strict same-site only in production. */
  function SessionCookieOptions(production: bool, maxAge: nat): (o: CookieOptions)
    ensures o.httpOnly && o.path == "/" && o.maxAge == maxAge
    ensures o.secure <==> production
    ensures o.sameSite == (if production then Strict else Lax)
  {
    CookieOptions(true, production, if production then Strict else Lax, maxAge, "/")
  }

  /** `setTokenCookies`. */
  function SetTokenCookies(production: bool, pair: TokenPair): (ops: seq<CookieOp>)
    ensures |ops| == 2 && ops[0].SetCookie? && ops[1].SetCookie?
    ensures ops[0].name == ACCESS_COOKIE && ops[0].value == pair.accessToken
    ensures ops[1].name == REFRESH_COOKIE && ops[1].value == pair.refreshToken
    ensures ops[0].options.maxAge == ACCESS_COOKIE_MAX_AGE && ops[1].options.maxAge == REFRESH_COOKIE_MAX_AGE
    ensures forall i :: 0 <= i < |ops| ==>
      && ops[i].options.httpOnly && ops[i].options.path == "/"
      && (ops[i].options.secure <==> production)
      && (ops[i].options.sameSite == Strict <==> production)
  {
    [SetCookie(ACCESS_COOKIE, pair.accessToken, SessionCookieOptions(production, ACCESS_COOKIE_MAX_AGE)),
     SetCookie(REFRESH_COOKIE, pair.refreshToken, SessionCookieOptions(production, REFRESH_COOKIE_MAX_AGE))]
  }

  /** `clearTokenCookies`: clears the two session cookies and nothing else. */
  function ClearTokenCookies(): (ops: seq<CookieOp>)
    ensures forall i :: 0 <= i < |ops| ==> ops[i].ClearCookie?
    ensures (set i | 0 <= i < |ops| :: ops[i].name) == {ACCESS_COOKIE, REFRESH_COOKIE}
  {
    var ops := [ClearCookie(ACCESS_COOKIE), ClearCookie(REFRESH_COOKIE)];
    assert (set i | 0 <= i < |ops| :: ops[i].name) == {ACCESS_COOKIE, REFRESH_COOKIE} by {
      assert ops[0].name == ACCESS_COOKIE && ops[1].name == REFRESH_COOKIE;
    }
    ops
  }

  /** Clearing undoes setting: the cookies a logout clears are exactly the
      ones a login or refresh sets, whatever the tokens and environment. */
  lemma ClearMatchesSet(production: bool, pair: TokenPair)
    ensures (set i | 0 <= i < |ClearTokenCookies()| :: ClearTokenCookies()[i].name)
         == (set i | 0 <= i < |SetTokenCookies(production, pair)| :: SetTokenCookies(production, pair)[i].name)
  {
    var ops := SetTokenCookies(production, pair);
    assert (set i | 0 <= i < |ops| :: ops[i].name) == {ACCESS_COOKIE, REFRESH_COOKIE} by {
      assert ops[0].name == ACCESS_COOKIE && ops[1].name == REFRESH_COOKIE;
    }
    var cleared := ClearTokenCookies();
    assert (set i | 0 <= i < |cleared| :: cleared[i].name) == {ACCESS_COOKIE, REFRESH_COOKIE};
  }
}
