/** The seed script: the initial state it writes into an empty database,
    two free tenants with an admin and a member each. The script's fixed
    names are `SCRIPT_DATA`; the creation steps are stated for any data of
    the same form, so that the schema setters are reasoned about once. */
module Seed {
  import opened Wrappers
  import opened Text
  import opened Models
  import opened Stores
  import opened Invariants

  /** Why seeding stops: a schema validator refused a document, or a unique
      index (tenant slug, user email) refused a duplicate. */
  datatype SeedError = Invalid | DuplicateSlug | DuplicateEmail

  const SEED_PASSWORD: string := "password"

  datatype TenantSpec = TenantSpec(name: string, slug: string)

  /** A user the script creates: email, role and the index of its tenant
      among the created tenants (0 for the first, 1 for the second). */
  datatype UserSpec = UserSpec(email: string, role: Role, tenant: nat)

  datatype SeedData = SeedData(tenants: seq<TenantSpec>, users: seq<UserSpec>)

  const SCRIPT_DATA: SeedData := SeedData(
    [TenantSpec("Acme Corporation", "acme"),
     TenantSpec("Globex Corporation", "globex")],
    [UserSpec("admin@acme.test", Admin, 0),
     UserSpec("user@acme.test", Member, 0),
     UserSpec("admin@globex.test", Admin, 1),
     UserSpec("user@globex.test", Member, 1)])

  /** Non-empty text that neither starts nor ends with white space. */
  predicate Trimmed(s: string) {
    |s| > 0 && !IsJsSpace(s[0]) && !IsJsSpace(s[|s| - 1])
  }

  /** Trimmed text without upper-case letters. */
  predicate LowerTrimmed(s: string) {
    Trimmed(s) && forall i :: 0 <= i < |s| ==> !('A' <= s[i] <= 'Z')
  }

  /** Tenant specs the setters store as written, with slugs distinct from
      each other. */
  predicate TenantSpecsOk(specs: seq<TenantSpec>)
    decreases |specs|
  {
    specs == [] ||
    (&& Trimmed(specs[0].name) && LowerTrimmed(specs[0].slug)
     && (forall x :: x in specs[1..] ==> x.slug != specs[0].slug)
     && TenantSpecsOk(specs[1..]))
  }

  /** User specs the setters store as written, with emails distinct from
      each other. */
  predicate UserSpecsOk(specs: seq<UserSpec>)
    decreases |specs|
  {
    specs == [] ||
    (&& LowerTrimmed(specs[0].email)
     && (forall x :: x in specs[1..] ==> x.email != specs[0].email)
     && UserSpecsOk(specs[1..]))
  }

  /** Data the setters store as written, with distinct slugs and emails and
      every user placed in one of the created tenants. */
  predicate ValidSeedData(d: SeedData) {
    && TenantSpecsOk(d.tenants) && UserSpecsOk(d.users)
    && forall i :: 0 <= i < |d.users| ==> d.users[i].tenant < |d.tenants|
  }

  /** `Tenant.create` of a free tenant with quota 3 under the next id; a slug
      already taken fails the unique index. */
  function CreateTenant(s: Store, spec: TenantSpec): (r: Result<Store, SeedError>)
    ensures r.Ok? ==>
      && r.value.users == s.users && r.value.notes == s.notes
      && r.value.refreshTokens == s.refreshTokens && r.value.nextId == s.nextId + 1
      && s.nextId in r.value.tenants && s.tenants.Keys <= r.value.tenants.Keys
  {
    if FindTenantBySlug(s, Normalize(spec.slug)).Some? then Err(DuplicateSlug)
    else
      match NewTenant(s.nextId, spec.name, spec.slug, Some(Free), Some(FREE_MAX_NOTES))
      case Err(_) => Err(Invalid)
      case Ok(t) => Ok(s.(tenants := s.tenants[t.id := t], nextId := s.nextId + 1))
  }

  /** `User.create` of one user with the script's password under the next
      id, in the tenant `base + spec.tenant`; an email already taken fails
      the unique index. */
  function CreateUser(s: Store, spec: UserSpec, base: nat, hash: string -> string): (r: Result<Store, SeedError>)
    ensures r.Ok? ==>
      && r.value.tenants == s.tenants && r.value.notes == s.notes
      && r.value.refreshTokens == s.refreshTokens && r.value.nextId == s.nextId + 1
  {
    if FindUserByEmail(s, Normalize(spec.email)).Some? then Err(DuplicateEmail)
    else
      match NewUser(s.nextId, spec.email, SEED_PASSWORD, Some(spec.role), base + spec.tenant, hash)
      case Err(_) => Err(Invalid)
      case Ok(u) => Ok(s.(users := s.users[u.id := u], nextId := s.nextId + 1))
  }

  /** `CreateUser` with the tenant base and the hash fixed. */
  function UserCreator(base: nat, hash: string -> string): (Store, UserSpec) -> Result<Store, SeedError> {
    (s, spec) => CreateUser(s, spec, base, hash)
  }

  /** Creating documents one after the other; the first failure stops the
      script. */
  function CreateAll<X>(s: Store, xs: seq<X>, create: (Store, X) -> Result<Store, SeedError>): Result<Store, SeedError>
    decreases |xs|
  {
    if xs == [] then Ok(s)
    else
      match create(s, xs[0])
      case Err(e) => Err(e)
      case Ok(s1) => CreateAll(s1, xs[1..], create)
  }

  /** `seedDatabase` with the given data: nothing when any tenant exists;
      otherwise the tenants, then the users placed in them. */
  function SeedWith(s: Store, hash: string -> string, d: SeedData): (r: Result<Store, SeedError>)
    ensures |s.tenants| > 0 ==> r == Ok(s)
  {
    if |s.tenants| > 0 then Ok(s)
    else
      match CreateAll(s, d.tenants, CreateTenant)
      case Err(e) => Err(e)
      case Ok(s1) => CreateAll(s1, d.users, UserCreator(s.nextId, hash))
  }

  /** The free tenant a spec describes, stored as written under the next id. */
  function AddTenant(s: Store, spec: TenantSpec): Store {
    s.(tenants := s.tenants[s.nextId := Tenant(s.nextId, spec.name, spec.slug, Free, FREE_MAX_NOTES)],
       nextId := s.nextId + 1)
  }

  /** The user a spec describes, stored as written under the next id with the
      stored password `pw`. */
  function AddUser(s: Store, spec: UserSpec, base: nat, pw: string): Store {
    s.(users := s.users[s.nextId := User(s.nextId, spec.email, pw, spec.role, base + spec.tenant)],
       nextId := s.nextId + 1)
  }

  function UserAdder(base: nat, pw: string): (Store, UserSpec) -> Store {
    (s, spec) => AddUser(s, spec, base, pw)
  }

  /** Applying `add` for each element in turn. */
  function Replay<X>(s: Store, xs: seq<X>, add: (Store, X) -> Store): Store
    decreases |xs|
  {
    if xs == [] then s else Replay(add(s, xs[0]), xs[1..], add)
  }

  /** The store the script writes into an empty database: every tenant and
      every user as specified, under consecutive ids. */
  function Seeded(s: Store, hash: string -> string, d: SeedData): Store {
    Replay(Replay(s, d.tenants, AddTenant), d.users, UserAdder(s.nextId, hash(SEED_PASSWORD)))
  }

  /** No stored tenant holds a slug of `specs`. */
  predicate SlugsFresh(tenants: map<nat, Tenant>, specs: seq<TenantSpec>) {
    forall k, x :: k in tenants && x in specs ==> tenants[k].slug != x.slug
  }

  /** No stored user holds an email of `specs`. */
  predicate EmailsFresh(users: map<nat, User>, specs: seq<UserSpec>) {
    forall k, x :: k in users && x in specs ==> users[k].email != x.email
  }

  /** The remaining tenant specs are well formed and their slugs are free. */
  predicate TenantsReady(s: Store, specs: seq<TenantSpec>) {
    TenantSpecsOk(specs) && SlugsFresh(s.tenants, specs)
  }

  /** The remaining user specs are well formed and their emails are free. */
  predicate UsersReady(s: Store, specs: seq<UserSpec>) {
    UserSpecsOk(specs) && EmailsFresh(s.users, specs)
  }
}
