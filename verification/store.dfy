/** The persistent state: four collections as finite maps, plus the id
    allocator that stands in for ObjectId generation, and the exact-match
    queries the handlers run against them. */
module Stores {
  import opened Wrappers
  import opened Models

  datatype Store = Store(
    tenants: map<nat, Tenant>,
    users: map<nat, User>,
    notes: map<nat, Note>,
    refreshTokens: map<string, RefreshRecord>,
    nextId: nat)

  /** Every id in use is below the allocator and is the key of its record. */
  predicate KeyedById(s: Store) {
    && (forall k :: k in s.tenants ==> k < s.nextId && s.tenants[k].id == k)
    && (forall k :: k in s.users ==> k < s.nextId && s.users[k].id == k)
    && (forall k :: k in s.notes ==> k < s.nextId && s.notes[k].id == k)
  }

  /** The user with this exact email among ids `k` to `n - 1`, lowest id first. */
  function FindUserFrom(users: map<nat, User>, email: string, k: nat, n: nat): (r: Option<User>)
    ensures r.Some? ==> r.value.email == email && r.value in users.Values
    ensures r.Some? ==> exists j :: k <= j < n && j in users && users[j] == r.value
    ensures r.None? ==> forall j :: k <= j < n && j in users ==> users[j].email != email
    decreases n - k
  {
    if k >= n then None
    else if k in users && users[k].email == email then Some(users[k])
    else FindUserFrom(users, email, k + 1, n)
  }

  /** `User.findOne({ email })`. */
  function FindUserByEmail(s: Store, email: string): Option<User> {
    FindUserFrom(s.users, email, 0, s.nextId)
  }

  /** The tenant with this exact slug among ids `k` to `n - 1`, lowest id
      first. It is the same scan as `FindUserFrom` over the other
      collection; the two are kept apart so that each contract names its
      own field (`email`, `slug`), which the lookups' callers match on. */
  function FindTenantFrom(tenants: map<nat, Tenant>, slug: string, k: nat, n: nat): (r: Option<Tenant>)
    ensures r.Some? ==> r.value.slug == slug && r.value in tenants.Values
    ensures r.Some? ==> exists j :: k <= j < n && j in tenants && tenants[j] == r.value
    ensures r.None? ==> forall j :: k <= j < n && j in tenants ==> tenants[j].slug != slug
    decreases n - k
  {
    if k >= n then None
    else if k in tenants && tenants[k].slug == slug then Some(tenants[k])
    else FindTenantFrom(tenants, slug, k + 1, n)
  }

  /** `Tenant.findOne({ slug })`, an exact-match lookup. */
  function FindTenantBySlug(s: Store, slug: string): Option<Tenant> {
    FindTenantFrom(s.tenants, slug, 0, s.nextId)
  }

  /** A lookup by id in a map, `findById`. */
  function Lookup<X>(m: map<nat, X>, id: nat): Option<X> {
    if id in m then Some(m[id]) else None
  }

  /** The notes of tenant `t` among ids below `n`, in increasing id order. */
  function NotesOfTenant(notes: map<nat, Note>, t: nat, n: nat): (r: seq<Note>)
    ensures forall i :: 0 <= i < |r| ==> r[i].tenantId == t && r[i] in notes.Values
    decreases n
  {
    if n == 0 then []
    else NotesOfTenant(notes, t, n - 1) + (if n - 1 in notes && notes[n - 1].tenantId == t then [notes[n - 1]] else [])
  }

  /** `Note.find({ tenantId })` before sorting. */
  function TenantNotes(s: Store, t: nat): seq<Note> {
    NotesOfTenant(s.notes, t, s.nextId)
  }

  /** `Note.countDocuments({ tenantId })`. */
  function NoteCount(s: Store, t: nat): nat {
    |TenantNotes(s, t)|
  }

  /** The ids of tenant `t`'s notes. */
  ghost function TenantNoteIds(s: Store, t: nat): set<nat> {
    set k | k in s.notes && s.notes[k].tenantId == t
  }

  lemma {:induction false} NotesOfTenantCount(notes: map<nat, Note>, t: nat, n: nat)
    ensures |NotesOfTenant(notes, t, n)| == |set k | 0 <= k < n && k in notes && notes[k].tenantId == t|
    decreases n
  {
    if n > 0 {
      NotesOfTenantCount(notes, t, n - 1);
      var prev := set k | 0 <= k < n - 1 && k in notes && notes[k].tenantId == t;
      var cur := set k | 0 <= k < n && k in notes && notes[k].tenantId == t;
      if n - 1 in notes && notes[n - 1].tenantId == t {
        assert cur == prev + {n - 1};
        assert n - 1 !in prev;
      } else {
        assert cur == prev;
      }
    }
  }

  /** The tenant's note count is the number of notes carrying its id. */
  lemma NoteCountIsCardinality(s: Store, t: nat)
    requires KeyedById(s)
    ensures NoteCount(s, t) == |TenantNoteIds(s, t)|
  {
    NotesOfTenantCount(s.notes, t, s.nextId);
    assert (set k | 0 <= k < s.nextId && k in s.notes && s.notes[k].tenantId == t) == TenantNoteIds(s, t);
  }

  lemma {:induction false} NotesOfTenantMembers(notes: map<nat, Note>, t: nat, n: nat, x: Note)
    requires forall k :: k in notes ==> notes[k].id == k
    ensures x in NotesOfTenant(notes, t, n) <==> x.id < n && x.id in notes && notes[x.id] == x && x.tenantId == t
    decreases n
  {
    if n > 0 {
      NotesOfTenantMembers(notes, t, n - 1, x);
    }
  }

  /** The tenant's notes are exactly the stored notes carrying its id. */
  lemma TenantNotesMembers(s: Store, t: nat, x: Note)
    requires KeyedById(s)
    ensures x in TenantNotes(s, t) <==> x.id in s.notes && s.notes[x.id] == x && x.tenantId == t
  {
    NotesOfTenantMembers(s.notes, t, s.nextId, x);
  }

  /** With distinct emails, the email lookup finds exactly the user holding that email. */
  lemma FindUserByEmailExact(s: Store, email: string, k: nat)
    requires KeyedById(s)
    requires forall i, j :: i in s.users && j in s.users && s.users[i].email == s.users[j].email ==> i == j
    requires k in s.users && s.users[k].email == email
    ensures FindUserByEmail(s, email) == Some(s.users[k])
  {
  }

  /** With distinct slugs, the slug lookup finds exactly the tenant holding that slug. */
  lemma FindTenantBySlugExact(s: Store, slug: string, k: nat)
    requires KeyedById(s)
    requires forall i, j :: i in s.tenants && j in s.tenants && s.tenants[i].slug == s.tenants[j].slug ==> i == j
    requires k in s.tenants && s.tenants[k].slug == slug
    ensures FindTenantBySlug(s, slug) == Some(s.tenants[k])
  {
  }
}
