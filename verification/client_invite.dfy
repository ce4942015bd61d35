/** The browser-side invitation check: who may invite, the e-mail pattern,
    and the fixed list of addresses taken as already registered. Nothing is
    sent to the server. */
module ClientInvite {
  import opened Wrappers
  import opened Text
  import opened Models
  import opened Http
  import opened Seed

  /** Why an invitation is refused, in the order the checks run. */
  datatype InviteError = NotAdmin | NoTenant | BadEmail | AlreadyExists

  function MessageOf(e: InviteError): string {
    match e
    case NotAdmin => "Only admins can invite users"
    case NoTenant => "Tenant not found"
    case BadEmail => "Please enter a valid email address"
    case AlreadyExists => "User with this email already exists"
  }

  /** The addresses the check treats as taken, compared as written. */
  const EXISTING_EMAILS: seq<string> :=
    ["admin@acme.test", "user@acme.test", "admin@globex.test", "user@globex.test"]

  predicate NoSpace(s: string) {
    forall i :: 0 <= i < |s| ==> !IsJsSpace(s[i])
  }

  /** `s[k]` is the only `@` of `s`. */
  predicate OnlyAt(s: string, k: nat) {
    forall i :: 0 <= i < |s| && i != k ==> s[i] != '@'
  }

  /** After the `@` at `k` there is a `.` with at least one character on
      each side of it. */
  predicate InnerDot(s: string, k: nat) {
    exists j :: k + 1 < j < |s| - 1 && s[j] == '.'
  }

  /** What `^[^\s@]+@[^\s@]+\.[^\s@]+$` accepts: no white space, exactly
      one `@` with text before it, and a dot after it with text on both
      sides. */
  predicate EmailShaped(s: string) {
    NoSpace(s) && exists k :: 0 < k < |s| && s[k] == '@' && OnlyAt(s, k) && InnerDot(s, k)
  }

  /** The pattern test, as one left-to-right scan. */
  method MatchesEmailPattern(s: string) returns (ok: bool)
    ensures ok <==> EmailShaped(s)
  {
    var at := -1;
    var sep := false;
    var i := 0;
    while i < |s|
      invariant 0 <= i <= |s|
      invariant forall j :: 0 <= j < i ==> !IsJsSpace(s[j])
      invariant at == -1 ==> forall j :: 0 <= j < i ==> s[j] != '@'
      invariant at != -1 ==> 1 <= at < i && s[at] == '@'
      invariant at != -1 ==> forall j :: 0 <= j < i && j != at ==> s[j] != '@'
      invariant sep <==> at != -1 && exists j :: at + 1 < j < i - 1 && s[j] == '.'
    {
      if IsJsSpace(s[i]) {
        assert !NoSpace(s);
        return false;
      }
      if s[i] == '@' {
        if at != -1 || i == 0 {
          NotShapedTwoAts(s, if at == -1 then 0 else at, i);
          return false;
        }
        at := i;
        sep := false;
      } else if at != -1 && at + 1 < i - 1 && s[i - 1] == '.' {
        sep := true;
      }
      i := i + 1;
    }
    if at == -1 {
      assert forall k :: 0 <= k < |s| ==> s[k] != '@';
      return false;
    }
    assert OnlyAt(s, at);
    ok := sep;
    if sep {
      assert InnerDot(s, at);
    } else {
      ShapedAtIsOnlyAt(s, at);
    }
  }

  /** Two `@` (or one at the very start, paired with itself) rule the
      pattern out. */
  lemma NotShapedTwoAts(s: string, a: nat, b: nat)
    requires a <= b < |s| && s[a] == '@' && s[b] == '@'
    requires a < b || b == 0
    ensures !EmailShaped(s)
  {
  }

  /** The `@` of an accepted address is its only one. */
  lemma ShapedAtIsOnlyAt(s: string, at: nat)
    requires at < |s| && s[at] == '@' && OnlyAt(s, at) && !InnerDot(s, at)
    ensures !EmailShaped(s)
  {
  }

  /** `inviteUser`: the role check, the tenant check, the pattern, then the
      list of taken addresses; the first failure is the answer. */
  function Invite(user: Option<UserView>, tenant: Option<TenantView>, email: string): (r: Result<(), InviteError>)
    ensures r.Ok? <==>
      user.Some? && user.value.role == Admin && tenant.Some? && EmailShaped(email) && email !in EXISTING_EMAILS
    ensures !(user.Some? && user.value.role == Admin) ==> r == Err(NotAdmin)
    ensures r == Err(NoTenant) <==> user.Some? && user.value.role == Admin && tenant.None?
    ensures r == Err(BadEmail) ==> tenant.Some? && !EmailShaped(email)
    ensures r == Err(AlreadyExists) ==> EmailShaped(email) && email in EXISTING_EMAILS
  {
    if user.None? || user.value.role != Admin then Err(NotAdmin)
    else if tenant.None? then Err(NoTenant)
    else if !EmailShaped(email) then Err(BadEmail)
    else if email in EXISTING_EMAILS then Err(AlreadyExists)
    else Ok(())
  }

  /** The invitation checks are a ladder: each refusal means every earlier
      check passed. */
  lemma InviteOrder(user: Option<UserView>, tenant: Option<TenantView>, email: string)
    ensures Invite(user, tenant, email).Err? && Invite(user, tenant, email).error != NotAdmin ==>
      user.Some? && user.value.role == Admin
    ensures Invite(user, tenant, email) == Err(BadEmail) || Invite(user, tenant, email) == Err(AlreadyExists) ==>
      tenant.Some?
    ensures Invite(user, tenant, email) == Err(AlreadyExists) ==> EmailShaped(email)
  {
  }

  /** The list names exactly the addresses the seed script registers, in
      the same order. */
  lemma ExistingAreSeeded()
    ensures |EXISTING_EMAILS| == |SCRIPT_DATA.users|
    ensures forall i :: 0 <= i < |EXISTING_EMAILS| ==> EXISTING_EMAILS[i] == SCRIPT_DATA.users[i].email
  {
  }

  /** The list is compared as written: a seeded address with its first
      letter capitalised passes the check, although the server, which
      lower-cases addresses, would take it for the seeded one. */
  lemma CapitalisedSeededPasses(admin: UserView, tenant: TenantView)
    requires admin.role == Admin
    ensures LowerChar(CAPITALISED[0]) == EXISTING_EMAILS[0][0]
    ensures CAPITALISED[1..] == EXISTING_EMAILS[0][1..]
    ensures Invite(Some(admin), Some(tenant), CAPITALISED) == Ok(())
  {
    CapitalisedShaped();
    CapitalisedUnlisted();
    CapitalisedLowers();
  }

  const CAPITALISED: string := "Admin@acme.test"

  lemma CapitalisedShaped()
    ensures EmailShaped(CAPITALISED)
  {
    var e := CAPITALISED;
    assert e[5] == '@' && e[10] == '.';
    assert OnlyAt(e, 5);
    assert InnerDot(e, 5);
    assert NoSpace(e);
  }

  lemma CapitalisedUnlisted()
    ensures CAPITALISED !in EXISTING_EMAILS
  {
    assert forall i :: 0 <= i < |EXISTING_EMAILS| ==> EXISTING_EMAILS[i][0] != 'A';
  }

  lemma CapitalisedLowers()
    ensures LowerChar(CAPITALISED[0]) == EXISTING_EMAILS[0][0]
    ensures CAPITALISED[1..] == EXISTING_EMAILS[0][1..]
  {
  }
}
