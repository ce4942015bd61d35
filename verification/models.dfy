/** The four persisted records (tenant, user, note, refresh token) and the
    schema rules the document layer applies when one is written: defaults,
    trimming and lower-casing setters, required and length validators, and the
    password-hashing save hook. */
module Models {
  import opened Wrappers
  import opened Text

  datatype Role = Admin | Member
  datatype Plan = Free | Pro

  /** Notes a free tenant may hold, and the sentinel a pro tenant stores instead. */
  const FREE_MAX_NOTES: int := 3
  const UNLIMITED_NOTES: int := -1

  const TITLE_MAX_LENGTH: nat := 200
  const CONTENT_MAX_LENGTH: nat := 10000
  const PASSWORD_MIN_LENGTH: nat := 6

  /** Ids stand for document ObjectIds; they are allocated fresh by the store. */
  datatype Tenant = Tenant(id: nat, name: string, slug: string, plan: Plan, maxNotes: int)
  datatype User = User(id: nat, email: string, password: string, role: Role, tenantId: nat)
  datatype Note = Note(id: nat, title: string, content: string, authorId: nat, tenantId: nat,
                       createdAt: nat, updatedAt: nat)
  /** A persisted refresh token; times are whole seconds. */
  datatype RefreshRecord = RefreshRecord(token: string, userId: nat, tenantId: nat, expiresAt: nat)

  /** A document failed schema validation (a ValidationError). */
  datatype SchemaError = ValidationFailed

  function RoleName(r: Role): string {
    match r
    case Admin => "admin"
    case Member => "member"
  }

  function PlanName(p: Plan): string {
    match p
    case Free => "free"
    case Pro => "pro"
  }

  /** The value the slug and email setters store: lower-cased and trimmed. */
  function Normalize(s: string): string {
    Trim(Lower(s))
  }

  /** A stored string the lower-casing and trimming setters leave as it is. */
  predicate IsNormalized(s: string) {
    s == Trim(s) && s == Lower(s)
  }

  /** The plan/quota pairing the plan toggle maintains: pro stores the
      unlimited sentinel and free stores the free quota. */
  predicate PlanConsistent(t: Tenant) {
    && (t.plan == Pro ==> t.maxNotes == UNLIMITED_NOTES)
    && (t.plan == Free ==> t.maxNotes == FREE_MAX_NOTES)
  }

  /** A tenant as the schema stores it: name trimmed and present, slug
      lower-cased, trimmed and present. */
  predicate TenantShape(t: Tenant) {
    && t.name != "" && t.name == Trim(t.name)
    && t.slug != "" && IsNormalized(t.slug)
  }

  /** A user as the schema stores it: a present, lower-cased, trimmed email. */
  predicate UserShape(u: User) {
    u.email != "" && IsNormalized(u.email)
  }

  /** Title and content as the note schema stores them; the maximum lengths
      count UTF-16 code units, as `maxlength` does. */
  predicate NoteTextValid(title: string, content: string) {
    && title == Trim(title) && 0 < |title| && Utf16Length(title) <= TITLE_MAX_LENGTH
    && 0 < |content| && Utf16Length(content) <= CONTENT_MAX_LENGTH
  }

  lemma LowerCharSpace(c: char)
    ensures IsJsSpace(LowerChar(c)) == IsJsSpace(c)
  {
    if 'A' <= c <= 'Z' {
      assert 97 <= LowerChar(c) as int <= 122;
    }
  }

  /** Lower-casing works character by character, so it commutes with
      taking a prefix or a suffix. */
  lemma LowerTake(s: string, n: nat)
    requires n <= |s|
    ensures Lower(s[..n]) == Lower(s)[..n]
  {
  }

  lemma LowerDrop(s: string, n: nat)
    requires n <= |s|
    ensures Lower(s[n..]) == Lower(s)[n..]
  {
  }

  lemma LowerTwice(s: string)
    ensures Lower(Lower(s)) == Lower(s)
  {
  }

  lemma {:induction false} TrimStartLower(s: string)
    ensures TrimStart(Lower(s)) == Lower(TrimStart(s))
    decreases |s|
  {
    if |s| > 0 {
      var l := Lower(s);
      LowerCharSpace(s[0]);
      if IsJsSpace(s[0]) {
        LowerDrop(s, 1);
        TrimStartLower(s[1..]);
      } else {
        TrimStartKeeps(l);
      }
    }
  }

  lemma {:induction false} TrimEndLower(s: string)
    ensures TrimEnd(Lower(s)) == Lower(TrimEnd(s))
    decreases |s|
  {
    if |s| > 0 {
      var l := Lower(s);
      LowerCharSpace(s[|s| - 1]);
      if IsJsSpace(s[|s| - 1]) {
        LowerTake(s, |s| - 1);
        TrimEndLower(s[..|s| - 1]);
      } else {
        TrimEndKeeps(l);
      }
    }
  }

  /** Lower-casing and trimming commute, so the order in which the schema
      applies its two setters does not matter. */
  lemma LowerTrimCommute(s: string)
    ensures Trim(Lower(s)) == Lower(Trim(s))
  {
    TrimStartLower(s);
    TrimEndLower(TrimStart(s));
  }

  /** Normalizing is idempotent: a normalized value is stored unchanged. */
  lemma NormalizeIsNormalized(s: string)
    ensures IsNormalized(Normalize(s))
  {
    var n := Normalize(s);
    TrimIdempotent(Lower(s));
    LowerTrimCommute(s);
    LowerTwice(Trim(s));
  }

  /** `Tenant.create`: applies the trimming/lower-casing setters and the
      `free`/3 defaults, then validates the required name and slug. */
  function NewTenant(id: nat, name: string, slug: string, plan: Option<Plan>, maxNotes: Option<int>)
    : (r: Result<Tenant, SchemaError>)
    ensures r.Ok? <==> Trim(name) != "" && Normalize(slug) != ""
    ensures r.Ok? ==> TenantShape(r.value) && r.value.id == id
    ensures r.Ok? && plan.None? ==> r.value.plan == Free
    ensures r.Ok? && maxNotes.None? ==> r.value.maxNotes == FREE_MAX_NOTES
    ensures r.Ok? ==> r.value.name == Trim(name) && r.value.slug == Normalize(slug)
    ensures r.Ok? && plan.Some? ==> r.value.plan == plan.value
    ensures r.Ok? && maxNotes.Some? ==> r.value.maxNotes == maxNotes.value
  {
    var t := Tenant(id, Trim(name), Normalize(slug), plan.GetOr(Free), maxNotes.GetOr(FREE_MAX_NOTES));
    TrimIdempotent(name);
    NormalizeIsNormalized(slug);
    if t.name == "" || t.slug == "" then Err(ValidationFailed) else Ok(t)
  }

  /** The `pre('save')` hook: the password is replaced by its hash only when
      it was modified since the last save. */
  function PreSave(u: User, passwordModified: bool, hash: string -> string): User {
    if passwordModified then u.(password := hash(u.password)) else u
  }

  /** `comparePassword`: the candidate matches when it hashes to the stored value. */
  predicate ComparePassword(u: User, candidate: string, hash: string -> string) {
    hash(candidate) == u.password
  }

  /** `User.create`: normalizes the email, validates the required email and
      the plaintext's minimum length, then the save hook hashes the new
      password; the stored user accepts exactly the candidates hashing like it. */
  function NewUser(id: nat, email: string, password: string, role: Option<Role>, tenantId: nat,
                   hash: string -> string): (r: Result<User, SchemaError>)
    ensures r.Ok? <==> Normalize(email) != "" && Utf16Length(password) >= PASSWORD_MIN_LENGTH
    ensures r.Ok? ==> UserShape(r.value) && r.value.id == id && r.value.tenantId == tenantId
    ensures r.Ok? ==> r.value.email == Normalize(email)
    ensures r.Ok? ==> r.value.role == role.GetOr(Member)
    ensures r.Ok? ==> forall c :: ComparePassword(r.value, c, hash) <==> hash(c) == hash(password)
  {
    NormalizeIsNormalized(email);
    var u := User(id, Normalize(email), password, role.GetOr(Member), tenantId);
    if u.email == "" || Utf16Length(password) < PASSWORD_MIN_LENGTH then Err(ValidationFailed)
    else Ok(PreSave(u, true, hash))
  }

  /** Saving a user again without touching the password never hashes the hash. */
  lemma ResaveDoesNotRehash(u: User, hash: string -> string)
    ensures PreSave(PreSave(u, true, hash), false, hash).password == hash(u.password)
    ensures ComparePassword(PreSave(PreSave(u, true, hash), false, hash), u.password, hash)
  {
  }

  /** The stored document of a user, as field name to field text. */
  function UserDocument(u: User): map<string, string> {
    map["_id" := Dec(u.id), "email" := u.email, "password" := u.password,
        "role" := RoleName(u.role), "tenantId" := Dec(u.tenantId)]
  }

  /** The `toJSON` transform: every field of the document except the password. */
  function UserJson(u: User): (j: map<string, string>)
    ensures "password" !in j
    ensures j.Keys == UserDocument(u).Keys - {"password"}
    ensures forall k :: k in j ==> j[k] == UserDocument(u)[k]
  {
    UserDocument(u) - {"password"}
  }

  /** The cast and validators a note's text goes through on create and on
      update: the title is trimmed, then title and content must be present and
      within their maximum lengths. */
  function NoteText(title: string, content: string): (r: Result<(string, string), SchemaError>)
    ensures r.Ok? <==> NoteTextValid(Trim(title), content)
    ensures r.Ok? ==> r.value == (Trim(title), content) && NoteTextValid(r.value.0, r.value.1)
  {
    TrimIdempotent(title);
    var t := Trim(title);
    if t == "" || Utf16Length(t) > TITLE_MAX_LENGTH || content == "" || Utf16Length(content) > CONTENT_MAX_LENGTH
    then Err(ValidationFailed)
    else Ok((t, content))
  }

  /** The minimum length counts UTF-16 code units: three emoji, each beyond
      U+FFFF, make a long enough password. */
  lemma WidePasswordAccepted(id: nat, email: string, role: Option<Role>, tenantId: nat, hash: string -> string)
    requires Normalize(email) != ""
    ensures NewUser(id, email, seq(3, _ => '\U{1F600}'), role, tenantId, hash).Ok?
  {
    AstralLength(seq(3, _ => '\U{1F600}'));
  }

  lemma AstralLength(s: string)
    requires forall i :: 0 <= i < |s| ==> IsAstral(s[i])
    ensures Utf16Length(s) == 2 * |s|
  {
    Utf16LengthWide(s);
  }

  /** The maximum length counts UTF-16 code units: a title of more than 100
      astral characters is too long. */
  lemma WideTitleRejected(title: string, content: string)
    requires |title| > TITLE_MAX_LENGTH / 2
    requires forall i :: 0 <= i < |title| ==> IsAstral(title[i])
    ensures NoteText(title, content).Err?
  {
    assert !IsJsSpace(title[0]) && !IsJsSpace(title[|title| - 1]);
    assert Trim(title) == title;
    AstralLength(title);
  }

  /** A title of nothing but white space passes the handlers' presence check
      but not the schema. */
  lemma BlankTitleRejected(title: string, content: string)
    requires title != "" && forall i :: 0 <= i < |title| ==> IsJsSpace(title[i])
    ensures NoteText(title, content).Err?
  {
    TrimEmptyIffAllSpace(title);
  }

  /** The TTL index: a refresh record may be deleted by the background monitor
      once its expiry time has passed. */
  predicate EligibleForExpiry(r: RefreshRecord, now: nat) {
    r.expiresAt < now
  }
}
