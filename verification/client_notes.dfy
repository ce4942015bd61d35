/** The browser side of the note listing: when the infinite query runs,
    which page it asks for next, and how the fetched pages are flattened
    into one list. The pages are the ones the server's `getNotes` serves. */
module ClientNotes {
  import opened Wrappers
  import opened Text
  import opened Models
  import opened Stores
  import opened Http
  import opened Paging
  import opened NotesController
  import opened Routes
  import opened ClientAuth

  /** The page size the hook asks for, and its first page. */
  const CLIENT_PAGE_SIZE: nat := 10
  const FIRST_PAGE: nat := 1

  /** One fetched page as the client keeps it: the `notes` and `pagination`
      members of the reply's data, each possibly absent. */
  datatype PageData = PageData(notes: Option<seq<Note>>, pagination: Option<Pagination>)

  function ToPageData(b: Body): PageData {
    match b
    case NotesPage(ns, p) => PageData(Some(ns), Some(p))
    case _ => PageData(None, None)
  }

  /** The notes query runs only for a signed-in member. */
  function NotesQueryEnabled(a: AuthState): (b: bool)
    ensures b <==> a.isAuthenticated && a.user.Some? && a.user.value.role == Member
  {
    a.isAuthenticated && a.user.Some? && a.user.value.role == Member
  }

  /** Admins may list notes on the server, but their client never asks. */
  lemma AdminsNeverFetch(pathname: string, cached: UserQuery)
    requires UseAuth(pathname, cached).isAdmin
    ensures Admin in NoteRoles(ListNotesRoute)
    ensures !NotesQueryEnabled(UseAuth(pathname, cached))
  {
  }

  /** `getNextPageParam`: the page after the last one, while the server
      reports more notes and the last page is not the final one. */
  function NextPageParam(last: PageData): (r: Option<int>)
    ensures r.Some? ==>
      && last.pagination.Some? && last.pagination.value.hasMore
      && r.value == last.pagination.value.currentPage + 1
      && r.value <= last.pagination.value.totalPages
    ensures r.None? ==>
      last.pagination.None? || !last.pagination.value.hasMore
      || last.pagination.value.currentPage >= last.pagination.value.totalPages
  {
    match last.pagination
    case None => None
    case Some(p) => if p.hasMore && p.currentPage < p.totalPages then Some(p.currentPage + 1) else None
  }

  /** A page's notes, with a missing array read as empty. */
  function NotesOr(page: PageData): seq<Note> {
    if page.notes.Some? then page.notes.value else []
  }

  /** `pages.flatMap(page => page.notes || [])`. */
  function Flatten(pages: seq<PageData>): (r: seq<Note>)
    ensures pages == [] ==> r == []
    ensures |r| >= if pages == [] then 0 else |NotesOr(pages[0])|
    decreases |pages|
  {
    if pages == [] then [] else NotesOr(pages[0]) + Flatten(pages[1..])
  }

  /** Flattening distributes over concatenation of the page lists. */
  lemma {:induction false} FlattenAppend(a: seq<PageData>, b: seq<PageData>)
    ensures Flatten(a + b) == Flatten(a) + Flatten(b)
    decreases |a|
  {
    if a == [] {
      assert a + b == b;
    } else {
      assert (a + b)[1..] == a[1..] + b;
      FlattenAppend(a[1..], b);
    }
  }

  /** A single page flattens to its own notes, or to nothing when the
      array is missing. */
  lemma FlattenSingle(page: PageData)
    ensures Flatten([page]) == NotesOr(page)
    ensures page.notes.None? ==> Flatten([page]) == []
  {
    assert [page][1..] == [];
  }

  /** The notes before page `p`. */
  function Offset(p: nat): nat
    requires p >= 1
  {
    (p - 1) * CLIENT_PAGE_SIZE
  }

  /** The page `getNotes` serves for page number `p` (at least 1) and the
      client's page size, over the tenant's listing `all`. */
  function ServerPage(all: seq<Note>, p: nat): PageData
    requires p >= 1
  {
    ToPageData(PageBody(all, p, CLIENT_PAGE_SIZE, (p - 1) * CLIENT_PAGE_SIZE))
  }

  /** The request for page `p` with the client's page size. */
  function PageRequest(base: Request, p: nat): Request {
    base.(page := Some(Dec(p)), limit := Some(Dec(CLIENT_PAGE_SIZE)))
  }

  /** A request for page `p` is served exactly `ServerPage(listing, p)`. */
  lemma PageRequestServed(base: Request, p: nat, t: nat, s: Store)
    requires p >= 1
    ensures SkipOf(PageRequest(base, p)) == (p - 1) * CLIENT_PAGE_SIZE
    ensures ToPageData(PageReply(PageRequest(base, p), t, s).body) == ServerPage(Listing(s, t), p)
  {
    var req := PageRequest(base, p);
    QueryIntOrDecimal(p, DEFAULT_PAGE);
    QueryIntOrDecimal(CLIENT_PAGE_SIZE, DEFAULT_LIMIT);
    assert PageOf(req) == p && LimitOf(req) == CLIENT_PAGE_SIZE;
  }

  /** After the server's page `p` the client asks for page `p + 1` exactly
      when notes remain beyond it. */
  lemma NextOfServerPage(all: seq<Note>, p: nat)
    requires p >= 1
    ensures NextPageParam(ServerPage(all, p)) == if p * CLIENT_PAGE_SIZE < |all| then Some(p + 1) else None
  {
    var T := JsCeilDiv(|all|, CLIENT_PAGE_SIZE);
    var b := PageBody(all, p, CLIENT_PAGE_SIZE, (p - 1) * CLIENT_PAGE_SIZE);
    assert b.pagination.totalPages == T && b.pagination.currentPage == p;
    assert |b.notes| == |Window(all, (p - 1) * CLIENT_PAGE_SIZE, CLIENT_PAGE_SIZE)|;
    if p * CLIENT_PAGE_SIZE < |all| {
      assert p < T;
    } else {
      assert !b.pagination.hasMore || p >= T;
    }
  }

  /** The pages the client holds after following the next-page parameter
      from page `p` until there is none. */
  function Walk(all: seq<Note>, p: nat): (pages: seq<PageData>)
    requires p >= 1
    ensures |pages| >= 1 && pages[0] == ServerPage(all, p)
    ensures NextPageParam(pages[|pages| - 1]).None?
    decreases if (p - 1) * CLIENT_PAGE_SIZE <= |all| then |all| - (p - 1) * CLIENT_PAGE_SIZE else 0
  {
    var page := ServerPage(all, p);
    NextOfServerPage(all, p);
    match NextPageParam(page)
    case None => [page]
    case Some(n) =>
      [page] + Walk(all, n)
  }

  /** From page `p` the walk fetches every remaining page and then one
      more only when there was nothing at all to fetch. */
  lemma {:induction false} WalkLength(all: seq<Note>, p: nat)
    requires p >= 1
    ensures |Walk(all, p)| ==
      if (p - 1) * CLIENT_PAGE_SIZE < |all| then JsCeilDiv(|all|, CLIENT_PAGE_SIZE) - p + 1 else 1
    decreases if (p - 1) * CLIENT_PAGE_SIZE <= |all| then |all| - (p - 1) * CLIENT_PAGE_SIZE else 0
  {
    NextOfServerPage(all, p);
    var T := JsCeilDiv(|all|, CLIENT_PAGE_SIZE);
    if p * CLIENT_PAGE_SIZE < |all| {
      WalkLength(all, p + 1);
      assert Walk(all, p) == [ServerPage(all, p)] + Walk(all, p + 1);
    } else if (p - 1) * CLIENT_PAGE_SIZE < |all| {
      assert T == p;
    }
  }

  /** Following next-page from the first page stops after `totalPages`
      pages, or after the first page when the tenant has no notes. */
  lemma WalkFromFirstBounded(all: seq<Note>)
    ensures ServerPage(all, FIRST_PAGE).pagination.Some?
    ensures var total := ServerPage(all, FIRST_PAGE).pagination.value.totalPages;
      |Walk(all, FIRST_PAGE)| == if |all| > 0 then total else 1
  {
    WalkLength(all, FIRST_PAGE);
  }

  /** The flattened pages from page `p` on are exactly the listing from
      that page's first note on. */
  lemma {:induction false} WalkCollects(all: seq<Note>, p: nat)
    requires p >= 1 && Offset(p) <= |all|
    ensures Flatten(Walk(all, p)) == all[Offset(p)..]
    decreases |all| - Offset(p), 1
  {
    if p * CLIENT_PAGE_SIZE < |all| {
      CollectsStep(all, p);
    } else {
      CollectsLast(all, p);
    }
  }

  /** A page followed by more pages: its window, then the rest. */
  lemma {:induction false} CollectsStep(all: seq<Note>, p: nat)
    requires p >= 1 && p * CLIENT_PAGE_SIZE < |all|
    ensures Flatten(Walk(all, p)) == all[Offset(p)..]
    decreases |all| - Offset(p), 0
  {
    WalkCollects(all, p + 1);
    var skip := (p - 1) * CLIENT_PAGE_SIZE;
    var next := p * CLIENT_PAGE_SIZE;
    var page := ServerPage(all, p);
    var rest := Walk(all, p + 1);
    var w := Window(all, skip, CLIENT_PAGE_SIZE);
    NextOfServerPage(all, p);
    assert NotesOr(page) == w;
    assert Walk(all, p) == [page] + rest;
    FlattenAppend([page], rest);
    FlattenSingle(page);
    assert w == all[skip..next];
    assert all[skip..] == all[skip..next] + all[next..];
  }

  /** The last page holds everything from its first note on. */
  lemma CollectsLast(all: seq<Note>, p: nat)
    requires p >= 1 && Offset(p) <= |all| <= p * CLIENT_PAGE_SIZE
    ensures Flatten(Walk(all, p)) == all[Offset(p)..]
  {
    var skip := (p - 1) * CLIENT_PAGE_SIZE;
    var page := ServerPage(all, p);
    NextOfServerPage(all, p);
    assert NotesOr(page) == Window(all, skip, CLIENT_PAGE_SIZE);
    assert Walk(all, p) == [page];
    FlattenSingle(page);
    assert Window(all, skip, CLIENT_PAGE_SIZE) == all[skip..];
  }

  /** Following the pages from the first one, the client ends up with the
      tenant's whole listing, in order and without repeats. */
  lemma WalkCollectsListing(s: Store, t: nat)
    ensures Flatten(Walk(Listing(s, t), FIRST_PAGE)) == Listing(s, t)
  {
    WalkCollects(Listing(s, t), FIRST_PAGE);
  }

  /** The page the notes service actually obtains: it sends neither the
      page nor the size, so the server answers its default first page. */
  function ServicePage(all: seq<Note>): PageData {
    ToPageData(PageBody(all, DEFAULT_PAGE, DEFAULT_LIMIT, 0))
  }

  /** With more notes than the default page size the client keeps offering
      page 2, and fetching it returns the first page again: the seventh
      note and every later one never reach the list. */
  lemma ServiceRepeatsFirstPage(all: seq<Note>)
    requires |all| > DEFAULT_LIMIT
    ensures NextPageParam(ServicePage(all)) == Some(2)
    ensures NotesOr(ServicePage(all)) == all[..DEFAULT_LIMIT]
    ensures Flatten([ServicePage(all), ServicePage(all)]) == all[..DEFAULT_LIMIT] + all[..DEFAULT_LIMIT]
    ensures NotesOr(ServerPage(all, 1)) != all[..DEFAULT_LIMIT]
  {
    var b := PageBody(all, DEFAULT_PAGE, DEFAULT_LIMIT, 0);
    assert b.notes == all[..DEFAULT_LIMIT];
    assert b.pagination.totalPages >= 2;
    FlattenAppend([ServicePage(all)], [ServicePage(all)]);
    FlattenSingle(ServicePage(all));
    assert [ServicePage(all)] + [ServicePage(all)] == [ServicePage(all), ServicePage(all)];
    assert |NotesOr(ServerPage(all, 1))| == Min(CLIENT_PAGE_SIZE, |all|);
  }
}
