/** What the seed script writes: the creation steps on well-formed data,
    the store they leave, and the script's own data. */
module SeedProofs {
  import opened Wrappers
  import opened Text
  import opened Models
  import opened Stores
  import opened Invariants
  import opened Seed

  lemma TrimmedTrims(s: string)
    requires Trimmed(s)
    ensures Trim(s) == s
  {
    assert TrimStart(s) == s;
  }

  lemma LowerTrimmedNormal(s: string)
    requires LowerTrimmed(s)
    ensures Normalize(s) == s && IsNormalized(s)
  {
    assert Lower(s) == s;
    TrimmedTrims(s);
    NormalizeIsNormalized(s);
  }

  /** Each tenant spec of well-formed data is well formed, and its slug
      differs from every later one. */
  lemma {:induction false} TenantSpecsOkAt(specs: seq<TenantSpec>, i: nat)
    requires TenantSpecsOk(specs) && i < |specs|
    ensures Trimmed(specs[i].name) && LowerTrimmed(specs[i].slug)
    ensures forall j :: i < j < |specs| ==> specs[j].slug != specs[i].slug
    decreases |specs|
  {
    if i == 0 {
      forall j | 0 < j < |specs|
        ensures specs[j].slug != specs[0].slug
      {
        assert specs[j] == specs[1..][j - 1];
      }
    } else {
      TenantSpecsOkAt(specs[1..], i - 1);
      assert forall j :: 0 < j < |specs| ==> specs[j] == specs[1..][j - 1];
    }
  }

  /** Each user spec of well-formed data is well formed, and its email
      differs from every later one. */
  lemma {:induction false} UserSpecsOkAt(specs: seq<UserSpec>, i: nat)
    requires UserSpecsOk(specs) && i < |specs|
    ensures LowerTrimmed(specs[i].email)
    ensures forall j :: i < j < |specs| ==> specs[j].email != specs[i].email
    decreases |specs|
  {
    if i == 0 {
      forall j | 0 < j < |specs|
        ensures specs[j].email != specs[0].email
      {
        assert specs[j] == specs[1..][j - 1];
      }
    } else {
      UserSpecsOkAt(specs[1..], i - 1);
      assert forall j :: 0 < j < |specs| ==> specs[j] == specs[1..][j - 1];
    }
  }

  /** The tenant validators and setters accept a well-formed spec unchanged. */
  lemma NewTenantAccepts(id: nat, spec: TenantSpec)
    requires Trimmed(spec.name) && LowerTrimmed(spec.slug)
    ensures NewTenant(id, spec.name, spec.slug, Some(Free), Some(FREE_MAX_NOTES))
         == Ok(Tenant(id, spec.name, spec.slug, Free, FREE_MAX_NOTES))
  {
    TrimmedTrims(spec.name);
    LowerTrimmedNormal(spec.slug);
  }

  /** The user validators and setters accept a well-formed email unchanged
      and store the hash of the script's password. */
  lemma NewUserAccepts(id: nat, spec: UserSpec, base: nat, hash: string -> string)
    requires LowerTrimmed(spec.email)
    ensures NewUser(id, spec.email, SEED_PASSWORD, Some(spec.role), base + spec.tenant, hash)
         == Ok(User(id, spec.email, hash(SEED_PASSWORD), spec.role, base + spec.tenant))
  {
    LowerTrimmedNormal(spec.email);
    assert |SEED_PASSWORD| >= PASSWORD_MIN_LENGTH;
  }

  /** A tenant with a fresh, well-formed slug is stored exactly as specified. */
  lemma CreateTenantStores(s: Store, spec: TenantSpec)
    requires Trimmed(spec.name) && LowerTrimmed(spec.slug)
    requires forall k :: k in s.tenants ==> s.tenants[k].slug != spec.slug
    ensures CreateTenant(s, spec) == Ok(AddTenant(s, spec))
  {
    LowerTrimmedNormal(spec.slug);
    assert FindTenantBySlug(s, spec.slug).None?;
    NewTenantAccepts(s.nextId, spec);
  }

  /** A user with a fresh, well-formed email is stored exactly as specified. */
  lemma CreateUserStores(s: Store, spec: UserSpec, base: nat, hash: string -> string)
    requires LowerTrimmed(spec.email)
    requires forall k :: k in s.users ==> s.users[k].email != spec.email
    ensures CreateUser(s, spec, base, hash) == Ok(AddUser(s, spec, base, hash(SEED_PASSWORD)))
  {
    LowerTrimmedNormal(spec.email);
    assert FindUserByEmail(s, spec.email).None?;
    NewUserAccepts(s.nextId, spec, base, hash);
    var u := User(s.nextId, spec.email, hash(SEED_PASSWORD), spec.role, base + spec.tenant);
    assert CreateUser(s, spec, base, hash) == Ok(s.(users := s.users[u.id := u], nextId := s.nextId + 1));
  }

  /** Storing the first spec's tenant keeps the other slugs fresh. */
  lemma SlugsFreshAfter(tenants: map<nat, Tenant>, specs: seq<TenantSpec>, n: nat, t: Tenant)
    requires specs != [] && t.slug == specs[0].slug
    requires SlugsFresh(tenants, specs) && forall x :: x in specs[1..] ==> x.slug != specs[0].slug
    ensures SlugsFresh(tenants[n := t], specs[1..])
  {
    var after := tenants[n := t];
    forall k, x | k in after && x in specs[1..]
      ensures after[k].slug != x.slug
    {
      if k != n {
        assert x in specs;
      }
    }
  }

  /** Storing the first spec's user keeps the other emails fresh. */
  lemma EmailsFreshAfter(users: map<nat, User>, specs: seq<UserSpec>, n: nat, u: User)
    requires specs != [] && u.email == specs[0].email
    requires EmailsFresh(users, specs) && forall x :: x in specs[1..] ==> x.email != specs[0].email
    ensures EmailsFresh(users[n := u], specs[1..])
  {
    var after := users[n := u];
    forall k, x | k in after && x in specs[1..]
      ensures after[k].email != x.email
    {
      if k != n {
        assert x in specs;
      }
    }
  }

  /** From a ready store, the first tenant is stored as specified and the
      store stays ready for the rest. */
  lemma TenantStep(s: Store, specs: seq<TenantSpec>)
    requires specs != [] && TenantsReady(s, specs)
    ensures CreateTenant(s, specs[0]) == Ok(AddTenant(s, specs[0]))
    ensures TenantsReady(AddTenant(s, specs[0]), specs[1..])
  {
    assert specs[0] in specs;
    CreateTenantStores(s, specs[0]);
    SlugsFreshAfter(s.tenants, specs, s.nextId, Tenant(s.nextId, specs[0].name, specs[0].slug, Free, FREE_MAX_NOTES));
  }

  /** From a ready store, the first user is stored as specified and the
      store stays ready for the rest. */
  lemma UserStep(s: Store, specs: seq<UserSpec>, base: nat, hash: string -> string)
    requires specs != [] && UsersReady(s, specs)
    ensures CreateUser(s, specs[0], base, hash) == Ok(AddUser(s, specs[0], base, hash(SEED_PASSWORD)))
    ensures UsersReady(AddUser(s, specs[0], base, hash(SEED_PASSWORD)), specs[1..])
  {
    assert specs[0] in specs;
    CreateUserStores(s, specs[0], base, hash);
    EmailsFreshAfter(s.users, specs, s.nextId,
                     User(s.nextId, specs[0].email, hash(SEED_PASSWORD), specs[0].role, base + specs[0].tenant));
  }

  /** When every creation step from a ready store succeeds with the
      specified document and leaves a ready store, the whole sequence of
      creations stores exactly the specified documents. */
  lemma {:induction false} CreateAllReplays<X>(s: Store, xs: seq<X>, create: (Store, X) -> Result<Store, SeedError>,
                                               add: (Store, X) -> Store, ready: (Store, seq<X>) -> bool)
    requires ready(s, xs)
    requires forall t, ys :: ys != [] && ready(t, ys) ==>
      create(t, ys[0]) == Ok(add(t, ys[0])) && ready(add(t, ys[0]), ys[1..])
    ensures CreateAll(s, xs, create) == Ok(Replay(s, xs, add))
    decreases |xs|
  {
    if xs != [] {
      CreateAllReplays(add(s, xs[0]), xs[1..], create, add, ready);
    }
  }

  /** Well-formed tenant specs with free slugs are all stored as specified. */
  lemma CreateTenantsStores(s: Store, specs: seq<TenantSpec>)
    requires TenantsReady(s, specs)
    ensures CreateAll(s, specs, CreateTenant) == Ok(Replay(s, specs, AddTenant))
  {
    forall t: Store, ys: seq<TenantSpec> | ys != [] && TenantsReady(t, ys)
      ensures CreateTenant(t, ys[0]) == Ok(AddTenant(t, ys[0])) && TenantsReady(AddTenant(t, ys[0]), ys[1..])
    {
      TenantStep(t, ys);
    }
    CreateAllReplays(s, specs, CreateTenant, AddTenant, TenantsReady);
  }

  /** Well-formed user specs with free emails are all stored as specified. */
  lemma CreateUsersStores(s: Store, specs: seq<UserSpec>, base: nat, hash: string -> string)
    requires UsersReady(s, specs)
    ensures CreateAll(s, specs, UserCreator(base, hash)) == Ok(Replay(s, specs, UserAdder(base, hash(SEED_PASSWORD))))
  {
    var create := UserCreator(base, hash);
    var add := UserAdder(base, hash(SEED_PASSWORD));
    forall t: Store, ys: seq<UserSpec> | ys != [] && UsersReady(t, ys)
      ensures create(t, ys[0]) == Ok(add(t, ys[0])) && UsersReady(add(t, ys[0]), ys[1..])
    {
      UserStep(t, ys, base, hash);
    }
    CreateAllReplays(s, specs, create, add, UsersReady);
  }

  /** The tenants added from id `s.nextId` on sit there in order; nothing
      else changes. */
  lemma {:induction false} ReplayTenants(s: Store, specs: seq<TenantSpec>)
    requires forall k :: k in s.tenants ==> k < s.nextId
    ensures var r := Replay(s, specs, AddTenant);
      && r.users == s.users && r.notes == s.notes && r.refreshTokens == s.refreshTokens
      && r.nextId == s.nextId + |specs|
      && (forall k :: k in r.tenants <==> k in s.tenants || s.nextId <= k < s.nextId + |specs|)
      && (forall k :: k in s.tenants ==> r.tenants[k] == s.tenants[k])
      && (forall i :: 0 <= i < |specs| ==>
            r.tenants[s.nextId + i] == Tenant(s.nextId + i, specs[i].name, specs[i].slug, Free, FREE_MAX_NOTES))
    decreases |specs|
  {
    if specs != [] {
      var s1 := AddTenant(s, specs[0]);
      ReplayTenants(s1, specs[1..]);
      assert forall i :: 1 <= i < |specs| ==> specs[i] == specs[1..][i - 1];
    }
  }

  /** The users added from id `s.nextId` on sit there in order; nothing
      else changes. */
  lemma {:induction false} ReplayUsers(s: Store, specs: seq<UserSpec>, base: nat, pw: string)
    requires forall k :: k in s.users ==> k < s.nextId
    ensures var r := Replay(s, specs, UserAdder(base, pw));
      && r.tenants == s.tenants && r.notes == s.notes && r.refreshTokens == s.refreshTokens
      && r.nextId == s.nextId + |specs|
      && (forall k :: k in r.users <==> k in s.users || s.nextId <= k < s.nextId + |specs|)
      && (forall k :: k in s.users ==> r.users[k] == s.users[k])
      && (forall i :: 0 <= i < |specs| ==>
            r.users[s.nextId + i] == User(s.nextId + i, specs[i].email, pw, specs[i].role, base + specs[i].tenant))
    decreases |specs|
  {
    if specs != [] {
      var s1 := AddUser(s, specs[0], base, pw);
      assert UserAdder(base, pw)(s, specs[0]) == s1;
      ReplayUsers(s1, specs[1..], base, pw);
      assert forall i :: 1 <= i < |specs| ==> specs[i] == specs[1..][i - 1];
    }
  }

  /** A well-formed store without tenants has no users and no notes either. */
  lemma NoTenantsNoUsers(s: Store)
    requires Wf(s) && s.tenants == map[]
    ensures s.users == map[] && s.notes == map[]
  {
  }

  /** Seeding an empty database with valid data writes exactly `Seeded`. */
  lemma SeedFromEmpty(s: Store, hash: string -> string, d: SeedData)
    requires ValidSeedData(d)
    requires s.tenants == map[] && s.users == map[]
    ensures SeedWith(s, hash, d) == Ok(Seeded(s, hash, d))
  {
    CreateTenantsStores(s, d.tenants);
    var s1 := Replay(s, d.tenants, AddTenant);
    ReplayTenants(s, d.tenants);
    CreateUsersStores(s1, d.users, s.nextId, hash);
  }

  /** Replaying tenant specs into a store without tenants puts spec `i` at
      id `s.nextId + i`, read per key. */
  lemma ReplayedTenantsAt(s: Store, specs: seq<TenantSpec>)
    requires s.tenants == map[]
    ensures var r := Replay(s, specs, AddTenant);
      && (forall k :: k in r.tenants <==> s.nextId <= k < s.nextId + |specs|)
      && (forall k :: k in r.tenants ==>
            r.tenants[k] == Tenant(k, specs[k - s.nextId].name, specs[k - s.nextId].slug, Free, FREE_MAX_NOTES))
  {
    ReplayTenants(s, specs);
    var r := Replay(s, specs, AddTenant);
    forall k | k in r.tenants
      ensures r.tenants[k] == Tenant(k, specs[k - s.nextId].name, specs[k - s.nextId].slug, Free, FREE_MAX_NOTES)
    {
      assert k == s.nextId + (k - s.nextId);
    }
  }

  /** Replaying user specs into a store without users puts spec `i` at id
      `s.nextId + i`, read per key. */
  lemma ReplayedUsersAt(s: Store, specs: seq<UserSpec>, base: nat, pw: string)
    requires s.users == map[]
    ensures var r := Replay(s, specs, UserAdder(base, pw));
      && (forall k :: k in r.users <==> s.nextId <= k < s.nextId + |specs|)
      && (forall k :: k in r.users ==>
            r.users[k] == User(k, specs[k - s.nextId].email, pw, specs[k - s.nextId].role, base + specs[k - s.nextId].tenant))
  {
    ReplayUsers(s, specs, base, pw);
    var r := Replay(s, specs, UserAdder(base, pw));
    forall k | k in r.users
      ensures r.users[k] == User(k, specs[k - s.nextId].email, pw, specs[k - s.nextId].role, base + specs[k - s.nextId].tenant)
    {
      assert k == s.nextId + (k - s.nextId);
    }
  }

  /** Where `Seeded` puts everything: the tenants from id `s.nextId` on,
      then the users, each user in the tenant its spec names. */
  lemma SeededLayout(s: Store, hash: string -> string, d: SeedData)
    requires s.tenants == map[] && s.users == map[]
    ensures var r := Seeded(s, hash, d);
      var n := s.nextId;
      var m := s.nextId + |d.tenants|;
      && r.notes == s.notes && r.refreshTokens == s.refreshTokens && r.nextId == m + |d.users|
      && (forall k :: k in r.tenants <==> n <= k < m)
      && (forall k :: k in r.users <==> m <= k < m + |d.users|)
      && (forall k :: k in r.tenants ==>
            r.tenants[k] == Tenant(k, d.tenants[k - n].name, d.tenants[k - n].slug, Free, FREE_MAX_NOTES))
      && (forall k :: k in r.users ==>
            r.users[k] == User(k, d.users[k - m].email, hash(SEED_PASSWORD), d.users[k - m].role, n + d.users[k - m].tenant))
  {
    ReplayTenants(s, d.tenants);
    ReplayedTenantsAt(s, d.tenants);
    var s1 := Replay(s, d.tenants, AddTenant);
    ReplayUsers(s1, d.users, s.nextId, hash(SEED_PASSWORD));
    ReplayedUsersAt(s1, d.users, s.nextId, hash(SEED_PASSWORD));
  }

  /** The seeded tenants have consistent plans and distinct slugs. */
  lemma SeededTenantsWf(s: Store, hash: string -> string, d: SeedData)
    requires s.tenants == map[] && s.users == map[] && TenantSpecsOk(d.tenants)
    ensures TenantsWf(Seeded(s, hash, d).tenants)
  {
    SeededLayout(s, hash, d);
    var r := Seeded(s, hash, d);
    var n := s.nextId;
    forall k | k in r.tenants
      ensures PlanConsistent(r.tenants[k])
    {
    }
    forall i, j | i in r.tenants && j in r.tenants && r.tenants[i].slug == r.tenants[j].slug
      ensures i == j
    {
      if i < j {
        TenantSpecsOkAt(d.tenants, i - n);
      } else if j < i {
        TenantSpecsOkAt(d.tenants, j - n);
      }
    }
  }

  /** Every seeded user belongs to a seeded tenant. */
  lemma SeededUsersInTenants(s: Store, hash: string -> string, d: SeedData)
    requires s.tenants == map[] && s.users == map[] && ValidSeedData(d)
    ensures var r := Seeded(s, hash, d);
      forall k :: k in r.users ==> r.users[k].tenantId in r.tenants
  {
    SeededLayout(s, hash, d);
    var r := Seeded(s, hash, d);
    var m := s.nextId + |d.tenants|;
    forall k | k in r.users
      ensures r.users[k].tenantId in r.tenants
    {
      assert d.users[k - m].tenant < |d.tenants|;
    }
  }

  /** The seeded users have distinct emails. */
  lemma SeededEmailsDistinct(s: Store, hash: string -> string, d: SeedData)
    requires s.tenants == map[] && s.users == map[] && UserSpecsOk(d.users)
    ensures var r := Seeded(s, hash, d);
      forall i, j :: i in r.users && j in r.users && r.users[i].email == r.users[j].email ==> i == j
  {
    SeededLayout(s, hash, d);
    var r := Seeded(s, hash, d);
    var m := s.nextId + |d.tenants|;
    forall i, j | i in r.users && j in r.users && r.users[i].email == r.users[j].email
      ensures i == j
    {
      if i < j {
        UserSpecsOkAt(d.users, i - m);
      } else if j < i {
        UserSpecsOkAt(d.users, j - m);
      }
    }
  }

  /** The seeded users belong to seeded tenants and have distinct emails. */
  lemma SeededUsersWf(s: Store, hash: string -> string, d: SeedData)
    requires s.tenants == map[] && s.users == map[] && ValidSeedData(d)
    ensures UsersWf(Seeded(s, hash, d).users, Seeded(s, hash, d).tenants)
  {
    SeededUsersInTenants(s, hash, d);
    SeededEmailsDistinct(s, hash, d);
  }

  /** The seeded store keeps every document under its own id below `nextId`. */
  lemma SeededKeyed(s: Store, hash: string -> string, d: SeedData)
    requires KeyedById(s) && s.tenants == map[] && s.users == map[]
    ensures KeyedById(Seeded(s, hash, d))
  {
    SeededLayout(s, hash, d);
  }

  /** Seeding a well-formed empty database with valid data leaves it well
      formed. */
  lemma SeededWf(s: Store, hash: string -> string, d: SeedData)
    requires Wf(s) && s.tenants == map[] && ValidSeedData(d)
    ensures Wf(Seeded(s, hash, d))
    ensures Seeded(s, hash, d).notes == map[]
    ensures Seeded(s, hash, d).refreshTokens == s.refreshTokens
  {
    NoTenantsNoUsers(s);
    SeededLayout(s, hash, d);
    SeededKeyed(s, hash, d);
    SeededTenantsWf(s, hash, d);
    SeededUsersWf(s, hash, d);
  }

  /** A well-formed tenant spec gives a tenant of the schema's shape. */
  lemma TenantSpecShape(id: nat, spec: TenantSpec)
    requires Trimmed(spec.name) && LowerTrimmed(spec.slug)
    ensures TenantShape(Tenant(id, spec.name, spec.slug, Free, FREE_MAX_NOTES))
  {
    TrimmedTrims(spec.name);
    LowerTrimmedNormal(spec.slug);
  }

  /** A well-formed user spec gives a user of the schema's shape. */
  lemma UserSpecShape(id: nat, spec: UserSpec, pw: string, tenantId: nat)
    requires LowerTrimmed(spec.email)
    ensures UserShape(User(id, spec.email, pw, spec.role, tenantId))
  {
    LowerTrimmedNormal(spec.email);
  }

  /** The seeded documents have the shape the schemas store: trimmed names,
      normalized slugs and emails, the free plan, and every user accepts
      the script's password. */
  lemma SeededShapes(s: Store, hash: string -> string, d: SeedData)
    requires s.tenants == map[] && s.users == map[] && ValidSeedData(d)
    ensures var r := Seeded(s, hash, d);
      && (forall k :: k in r.tenants ==> TenantShape(r.tenants[k]) && r.tenants[k].plan == Free)
      && (forall k :: k in r.users ==> UserShape(r.users[k]) && ComparePassword(r.users[k], SEED_PASSWORD, hash))
  {
    SeededLayout(s, hash, d);
    var r := Seeded(s, hash, d);
    var n := s.nextId;
    var m := s.nextId + |d.tenants|;
    forall k | k in r.tenants
      ensures TenantShape(r.tenants[k]) && r.tenants[k].plan == Free
    {
      TenantSpecsOkAt(d.tenants, k - n);
      TenantSpecShape(k, d.tenants[k - n]);
    }
    forall k | k in r.users
      ensures UserShape(r.users[k]) && ComparePassword(r.users[k], SEED_PASSWORD, hash)
    {
      UserSpecsOkAt(d.users, k - m);
      UserSpecShape(k, d.users[k - m], hash(SEED_PASSWORD), n + d.users[k - m].tenant);
    }
  }

  /** Running the script a second time changes nothing: the first run leaves
      a tenant behind, so the second stops at the count. */
  lemma SeedIdempotent(s: Store, hash: string -> string, d: SeedData)
    requires s.tenants == map[] && s.users == map[]
    requires ValidSeedData(d) && d.tenants != []
    ensures SeedWith(s, hash, d).Ok?
    ensures SeedWith(SeedWith(s, hash, d).value, hash, d) == SeedWith(s, hash, d)
  {
    SeedFromEmpty(s, hash, d);
    SeededLayout(s, hash, d);
    assert s.nextId in Seeded(s, hash, d).tenants;
  }

  lemma ScriptTenantsOk()
    ensures TenantSpecsOk(SCRIPT_DATA.tenants)
  {
    var ts := SCRIPT_DATA.tenants;
    assert LowerTrimmed("acme") && LowerTrimmed("globex");
    assert Trimmed("Acme Corporation") && Trimmed("Globex Corporation");
    assert TenantSpecsOk(ts[1..]) by {
      assert ts[1..][1..] == [];
    }
  }

  lemma AcmeEmailsLower()
    ensures LowerTrimmed("admin@acme.test") && LowerTrimmed("user@acme.test")
  {
    assert LowerTrimmed("admin@acme.test");
  }

  lemma GlobexEmailsLower()
    ensures LowerTrimmed("admin@globex.test") && LowerTrimmed("user@globex.test")
  {
    assert LowerTrimmed("admin@globex.test");
  }

  lemma ScriptEmailsLower()
    ensures forall x :: x in SCRIPT_DATA.users ==> LowerTrimmed(x.email)
  {
    AcmeEmailsLower();
    GlobexEmailsLower();
  }

  lemma ScriptUsersOk()
    ensures UserSpecsOk(SCRIPT_DATA.users)
  {
    var us := SCRIPT_DATA.users;
    ScriptEmailsLower();
    assert UserSpecsOk(us[3..]) by {
      assert us[3..][0] in us;
      assert us[3..][1..] == [];
    }
    assert UserSpecsOk(us[2..]) by {
      assert us[2..][0] in us;
      assert us[2..][1..] == us[3..];
    }
    assert UserSpecsOk(us[1..]) by {
      assert us[1..][0] in us;
      assert us[1..][1..] == us[2..];
    }
  }

  /** The script's own names are valid seed data. */
  lemma ScriptDataValid()
    ensures ValidSeedData(SCRIPT_DATA)
  {
    ScriptTenantsOk();
    ScriptUsersOk();
  }

  /** With two tenant specs, the seeded tenants are exactly those two. */
  lemma SeededTwoTenants(s: Store, hash: string -> string, d: SeedData)
    requires s.tenants == map[] && s.users == map[] && |d.tenants| == 2
    ensures var n := s.nextId;
      Seeded(s, hash, d).tenants ==
        map[n := Tenant(n, d.tenants[0].name, d.tenants[0].slug, Free, FREE_MAX_NOTES),
            n + 1 := Tenant(n + 1, d.tenants[1].name, d.tenants[1].slug, Free, FREE_MAX_NOTES)]
  {
    SeededLayout(s, hash, d);
  }

  /** With four user specs after two tenants, the seeded users are exactly
      those four. */
  lemma SeededFourUsers(s: Store, hash: string -> string, d: SeedData)
    requires s.tenants == map[] && s.users == map[] && |d.tenants| == 2 && |d.users| == 4
    ensures var n := s.nextId;
      var pw := hash(SEED_PASSWORD);
      var us := d.users;
      Seeded(s, hash, d).users ==
        map[n + 2 := User(n + 2, us[0].email, pw, us[0].role, n + us[0].tenant),
            n + 3 := User(n + 3, us[1].email, pw, us[1].role, n + us[1].tenant),
            n + 4 := User(n + 4, us[2].email, pw, us[2].role, n + us[2].tenant),
            n + 5 := User(n + 5, us[3].email, pw, us[3].role, n + us[3].tenant)]
  {
    SeededLayout(s, hash, d);
  }

  /** The store the script writes into an empty database. */
  lemma ScriptSeeded(s: Store, hash: string -> string)
    requires s.tenants == map[] && s.users == map[]
    ensures var r := Seeded(s, hash, SCRIPT_DATA);
      var n := s.nextId;
      var pw := hash(SEED_PASSWORD);
      && r.tenants == map[n := Tenant(n, "Acme Corporation", "acme", Free, FREE_MAX_NOTES),
                          n + 1 := Tenant(n + 1, "Globex Corporation", "globex", Free, FREE_MAX_NOTES)]
      && r.users == map[n + 2 := User(n + 2, "admin@acme.test", pw, Admin, n),
                        n + 3 := User(n + 3, "user@acme.test", pw, Member, n),
                        n + 4 := User(n + 4, "admin@globex.test", pw, Admin, n + 1),
                        n + 5 := User(n + 5, "user@globex.test", pw, Member, n + 1)]
  {
    SeededTwoTenants(s, hash, SCRIPT_DATA);
    SeededFourUsers(s, hash, SCRIPT_DATA);
  }

  /** Seeding a well-formed empty database writes the two free tenants of
      quota 3, then their admin and member, all with the script's password. */
  lemma ScriptSeedsAcmeAndGlobex(s: Store, hash: string -> string)
    requires Wf(s) && s.tenants == map[]
    ensures SeedWith(s, hash, SCRIPT_DATA).Ok?
    ensures var r := SeedWith(s, hash, SCRIPT_DATA).value;
      var n := s.nextId;
      var pw := hash(SEED_PASSWORD);
      && r.tenants == map[n := Tenant(n, "Acme Corporation", "acme", Free, FREE_MAX_NOTES),
                          n + 1 := Tenant(n + 1, "Globex Corporation", "globex", Free, FREE_MAX_NOTES)]
      && r.users == map[n + 2 := User(n + 2, "admin@acme.test", pw, Admin, n),
                        n + 3 := User(n + 3, "user@acme.test", pw, Member, n),
                        n + 4 := User(n + 4, "admin@globex.test", pw, Admin, n + 1),
                        n + 5 := User(n + 5, "user@globex.test", pw, Member, n + 1)]
      && r.notes == map[] && r.refreshTokens == s.refreshTokens
  {
    NoTenantsNoUsers(s);
    ScriptDataValid();
    SeedFromEmpty(s, hash, SCRIPT_DATA);
    SeededLayout(s, hash, SCRIPT_DATA);
    ScriptSeeded(s, hash);
  }
}
