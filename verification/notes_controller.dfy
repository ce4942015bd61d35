/** The five note handlers. Each one reads `req.user` and `req.tenant` as
    the middleware left them and scopes every query by the tenant's id. */
module NotesController {
  import opened Wrappers
  import opened Text
  import opened Models
  import opened Stores
  import opened Paging
  import opened Http

  const NOTE_LIMIT_REACHED: string := "NOTE_LIMIT_REACHED"
  const TEXT_REQUIRED: string := "Title and content are required"
  const UPDATE_NOT_FOUND: string := "Note not found or you do not have permission to update it"
  const DELETE_NOT_FOUND: string := "Note not found or you do not have permission to delete it"
  const FETCH_FAILED: string := "Failed to fetch notes"

  /** `s'` is `s` with note `n` added under the next fresh id and nothing else changed. */
  predicate AddsOneNote(s: Store, s': Store, n: Note) {
    && n.id == s.nextId
    && s' == s.(notes := s.notes[n.id := n], nextId := s.nextId + 1)
  }

  /** `createNote`: presence check, then the free-plan quota, then the schema;
      a note is stored only when all pass. */
  function CreateNote(req: Request, env: Env, s: Store): (out: (Response, Store))
    ensures !Truthy(req.title) || !Truthy(req.content) ==> out == (Fail(400, TEXT_REQUIRED), s)
    ensures out.0.status != 201 ==> out.1 == s && out.0.body == NoBody
    ensures out.0.status == 201 ==>
      && Truthy(req.title) && Truthy(req.content)
      && req.user.Some? && req.tenant.Some? && !env.storeDown
      && (req.tenant.value.plan == Free ==> NoteCount(s, req.tenant.value.id) < req.tenant.value.maxNotes)
      && out.0.body.NoteBody?
      && var n := out.0.body.note;
         && AddsOneNote(s, out.1, n)
         && n.authorId == req.user.value.user.id && n.tenantId == req.tenant.value.id
         && n.title == Trim(req.title.value) && n.content == req.content.value
         && NoteTextValid(n.title, n.content)
         && n.createdAt == env.now && n.updatedAt == env.now
    ensures Truthy(req.title) && Truthy(req.content) && req.tenant.Some? && !env.storeDown
            && req.tenant.value.plan == Free && NoteCount(s, req.tenant.value.id) >= req.tenant.value.maxNotes ==>
      out == (FailCode(403, "Note limit reached. Upgrade to Pro for unlimited notes.", NOTE_LIMIT_REACHED), s)
    ensures Truthy(req.title) && Truthy(req.content) && req.user.Some? && req.tenant.Some? && !env.storeDown
            && (req.tenant.value.plan == Free ==> NoteCount(s, req.tenant.value.id) < req.tenant.value.maxNotes) ==>
      (out.0.status == 201 <==> NoteText(req.title.value, req.content.value).Ok?)
  {
    Commit(s, CreateDecision(req, env, TenantCount(req, s), s.nextId))
  }

  /** How many notes the request's tenant holds; 0 without a tenant. */
  function TenantCount(req: Request, s: Store): nat {
    if req.tenant.Some? then NoteCount(s, req.tenant.value.id) else 0
  }

  /** The reply with the store after writing the decided note, if any,
      under the next id. */
  function Commit(s: Store, d: (Response, Option<Note>)): (Response, Store) {
    match d.1
    case None => (d.0, s)
    case Some(n) => (d.0, s.(notes := s.notes[n.id := n], nextId := s.nextId + 1))
  }

  /** The reply `createNote` settles on once it knows how many notes the
      request's tenant holds and which id comes next, with the note it
      stores, if any. */
  function CreateDecision(req: Request, env: Env, count: nat, nextId: nat): (d: (Response, Option<Note>))
    ensures d.1.None? ==> d.0.status != 201 && d.0.body == NoBody
    ensures !Truthy(req.title) || !Truthy(req.content) ==> d == (Fail(400, TEXT_REQUIRED), None)
    ensures Truthy(req.title) && Truthy(req.content) && req.tenant.Some? && !env.storeDown
            && req.tenant.value.plan == Free && count >= req.tenant.value.maxNotes ==>
      d == (FailCode(403, "Note limit reached. Upgrade to Pro for unlimited notes.", NOTE_LIMIT_REACHED), None)
    ensures d.1.Some? <==>
      && Truthy(req.title) && Truthy(req.content) && req.user.Some? && req.tenant.Some? && !env.storeDown
      && (req.tenant.value.plan == Free ==> count < req.tenant.value.maxNotes)
      && NoteText(req.title.value, req.content.value).Ok?
    ensures d.1.Some? ==>
      && d.0.status == 201 && d.0.body == NoteBody(d.1.value)
      && d.1.value == Note(nextId, Trim(req.title.value), req.content.value, req.user.value.user.id,
                           req.tenant.value.id, env.now, env.now)
      && NoteTextValid(d.1.value.title, d.1.value.content)
  {
    if !Truthy(req.title) || !Truthy(req.content) then (Fail(400, TEXT_REQUIRED), None)
    else if req.tenant.None? then (Fail(500, INTERNAL_ERROR), None)
    else
      var t := req.tenant.value;
      if t.plan == Free && env.storeDown then (Fail(500, INTERNAL_ERROR), None)
      else if t.plan == Free && count >= t.maxNotes then
        (FailCode(403, "Note limit reached. Upgrade to Pro for unlimited notes.", NOTE_LIMIT_REACHED), None)
      else if req.user.None? then (Fail(500, INTERNAL_ERROR), None)
      else
        match NoteText(req.title.value, req.content.value)
        case Err(_) => (Fail(500, INTERNAL_ERROR), None)
        case Ok((title, content)) =>
          if env.storeDown then (Fail(500, INTERNAL_ERROR), None)
          else
            var n := Note(nextId, title, content, req.user.value.user.id, t.id, env.now, env.now);
            (Response(201, true, "Note created successfully", None, NoteBody(n), []), Some(n))
  }

  /** The requested page number and page size after the defaults. */
  function PageOf(req: Request): int {
    QueryIntOr(req.page, DEFAULT_PAGE)
  }

  function LimitOf(req: Request): int {
    QueryIntOr(req.limit, DEFAULT_LIMIT)
  }

  /** Notes skipped before the requested page. */
  function SkipOf(req: Request): int {
    (PageOf(req) - 1) * LimitOf(req)
  }

  /** The tenant's notes in listing order. */
  function Listing(s: Store, t: nat): seq<Note> {
    SortNewestFirst(TenantNotes(s, t))
  }

  /** The listing holds exactly the tenant's notes, newest first. */
  lemma ListingFacts(s: Store, t: nat)
    ensures NewestFirst(Listing(s, t))
    ensures |Listing(s, t)| == NoteCount(s, t)
    ensures forall i :: 0 <= i < |Listing(s, t)| ==> Listing(s, t)[i].tenantId == t && Listing(s, t)[i] in s.notes.Values
  {
    var all := Listing(s, t);
    var raw := TenantNotes(s, t);
    assert multiset(all) == multiset(raw);
    forall i | 0 <= i < |all|
      ensures all[i].tenantId == t && all[i] in s.notes.Values
    {
      assert all[i] in multiset(all);
      assert all[i] in raw;
    }
    assert |multiset(all)| == |multiset(raw)|;
  }

  /** A window of a listing is itself in listing order. */
  lemma WindowNewestFirst(xs: seq<Note>, skip: nat, count: nat)
    requires NewestFirst(xs)
    ensures NewestFirst(Window(xs, skip, count))
  {
    var w := Window(xs, skip, count);
    forall i, j | 0 <= i < j < |w|
      ensures NewerOrSame(w[i], w[j])
    {
      assert w[i] == xs[skip + i] && w[j] == xs[skip + j];
    }
  }

  /** `getNotes`: one page of the tenant's notes, newest first, with the
      pagination summary. A negative skip is rejected by the database; a
      negative limit returns that many notes in absolute value. The 500
      reply's `error` member, the exception's message, is not modelled. */
  function GetNotes(req: Request, env: Env, s: Store): (out: (Response, Store))
    ensures out.1 == s
    ensures out.0.status != 200 ==> out.0.body == NoBody
    ensures req.user.None? ==> out.0 == Fail(401, "User not authenticated")
    ensures req.user.Some? && req.tenant.Some? && !env.storeDown && SkipOf(req) >= 0 ==> out.0.status == 200
    ensures out.0.status == 200 ==>
      && req.user.Some? && req.tenant.Some? && SkipOf(req) >= 0
      && out.0 == PageReply(req, req.tenant.value.id, s)
  {
    if req.user.None? then (Fail(401, "User not authenticated"), s)
    else if req.tenant.None? then (Fail(500, FETCH_FAILED), s)
    else
      var t := req.tenant.value;
      if SkipOf(req) < 0 || env.storeDown then (Fail(500, FETCH_FAILED), s)
      else (PageReply(req, t.id, s), s)
  }

  /** The successful reply of `getNotes`: the page the request asks for of
      tenant `t`'s notes, newest first, with the pagination summary. */
  function PageReply(req: Request, t: nat, s: Store): (r: Response)
    requires SkipOf(req) >= 0
    ensures r.status == 200 && r.body.NotesPage?
    ensures var notes := r.body.notes;
      var p := r.body.pagination;
      && NewestFirst(notes)
      && (forall i :: 0 <= i < |notes| ==> notes[i].tenantId == t && notes[i] in s.notes.Values)
      && |notes| <= Abs(LimitOf(req))
      && (forall i :: 0 <= i < |notes| ==>
            SkipOf(req) + i < |Listing(s, t)| && notes[i] == Listing(s, t)[SkipOf(req) + i])
      && p.currentPage == PageOf(req)
      && p.totalNotes == NoteCount(s, t)
      && p.totalPages == JsCeilDiv(NoteCount(s, t), LimitOf(req))
      && (p.hasMore <==> SkipOf(req) + |notes| < NoteCount(s, t))
  {
    ListingFacts(s, t);
    var b := PageBody(Listing(s, t), PageOf(req), LimitOf(req), SkipOf(req));
    assert forall i :: 0 <= i < |b.notes| ==> b.notes[i] == Listing(s, t)[SkipOf(req) + i];
    Response(200, true, "", None, b, [])
  }

  /** One page of a listing of `total` notes: the window at `skip`, and the
      summary `currentPage`, `totalPages`, `totalNotes`, `hasMore`. */
  function PageBody(all: seq<Note>, page: int, limit: int, skip: nat): (b: Body)
    requires limit != 0
    ensures b.NotesPage?
    ensures NewestFirst(all) ==> NewestFirst(b.notes)
    ensures |b.notes| <= Abs(limit)
    ensures forall i :: 0 <= i < |b.notes| ==> skip + i < |all| && b.notes[i] == all[skip + i]
    ensures b.pagination == Pagination(page, JsCeilDiv(|all|, limit), |all|, skip + |b.notes| < |all|)
  {
    var notes := Window(all, skip, Abs(limit));
    assert NewestFirst(all) ==> NewestFirst(notes) by {
      if NewestFirst(all) {
        WindowNewestFirst(all, skip, Abs(limit));
      }
    }
    NotesPage(notes, Pagination(page, JsCeilDiv(|all|, limit), |all|, skip + |notes| < |all|))
  }

  /** `getNoteById`: the note with this id in the caller's tenant. An id that
      does not parse as an id fails the cast and is answered 500. */
  function GetNoteById(req: Request, env: Env, s: Store): (out: (Response, Store))
    ensures out.1 == s
    ensures out.0.status != 200 ==> out.0.body == NoBody
    ensures out.0.status == 200 ==>
      && req.tenant.Some? && out.0.body.NoteBody?
      && out.0.body.note in s.notes.Values
      && out.0.body.note.tenantId == req.tenant.value.id
      && ParseDec(req.noteId).Some? && ParseDec(req.noteId).value in s.notes
      && s.notes[ParseDec(req.noteId).value] == out.0.body.note
    ensures forall k :: req.tenant.Some? && !env.storeDown && ParseDec(req.noteId) == Some(k) ==>
      if k in s.notes && s.notes[k].tenantId == req.tenant.value.id
      then out.0.status == 200 && out.0.body == NoteBody(s.notes[k])
      else out.0 == Fail(404, "Note not found")
  {
    if req.tenant.None? || env.storeDown then (Fail(500, INTERNAL_ERROR), s)
    else
      match ParseDec(req.noteId)
      case None => (Fail(500, INTERNAL_ERROR), s)
      case Some(k) =>
        if k in s.notes && s.notes[k].tenantId == req.tenant.value.id
        then (Response(200, true, "", None, NoteBody(s.notes[k]), []), s)
        else (Fail(404, "Note not found"), s)
  }

  /** The stored note a caller may modify: same id, same tenant, same author. */
  predicate Owns(s: Store, k: nat, tenantId: nat, authorId: nat) {
    k in s.notes && s.notes[k].tenantId == tenantId && s.notes[k].authorId == authorId
  }

  /** `updateNote`: presence check, then the update validators, then the
      update of the one note matching id, tenant and author. */
  function UpdateNote(req: Request, env: Env, s: Store): (out: (Response, Store))
    ensures !Truthy(req.title) || !Truthy(req.content) ==> out == (Fail(400, TEXT_REQUIRED), s)
    ensures out.0.status != 200 ==> out.1 == s && out.0.body == NoBody
    ensures out.0.status == 200 ==>
      && req.tenant.Some? && req.user.Some? && ParseDec(req.noteId).Some?
      && var k := ParseDec(req.noteId).value;
         && Owns(s, k, req.tenant.value.id, req.user.value.user.id)
         && NoteText(req.title.value, req.content.value).Ok?
         && var n := s.notes[k].(title := Trim(req.title.value), content := req.content.value, updatedAt := env.now);
            && NoteTextValid(n.title, n.content)
            && out.1 == s.(notes := s.notes[k := n])
            && out.0.body == NoteBody(n)
    ensures forall k :: Truthy(req.title) && Truthy(req.content) && req.tenant.Some? && req.user.Some?
                        && !env.storeDown && ParseDec(req.noteId) == Some(k)
                        && NoteText(req.title.value, req.content.value).Ok?
                        && !Owns(s, k, req.tenant.value.id, req.user.value.user.id) ==>
      out == (Fail(404, UPDATE_NOT_FOUND), s)
  {
    if !Truthy(req.title) || !Truthy(req.content) then (Fail(400, TEXT_REQUIRED), s)
    else if req.tenant.None? || req.user.None? || env.storeDown then (Fail(500, INTERNAL_ERROR), s)
    else
      match ParseDec(req.noteId)
      case None => (Fail(500, INTERNAL_ERROR), s)
      case Some(k) =>
        match NoteText(req.title.value, req.content.value)
        case Err(_) => (Fail(500, INTERNAL_ERROR), s)
        case Ok((title, content)) =>
          if !Owns(s, k, req.tenant.value.id, req.user.value.user.id) then (Fail(404, UPDATE_NOT_FOUND), s)
          else
            var n := s.notes[k].(title := title, content := content, updatedAt := env.now);
            (Response(200, true, "Note updated successfully", None, NoteBody(n), []),
             s.(notes := s.notes[k := n]))
  }

  /** `deleteNote`: removes the one note matching id, tenant and author. */
  function DeleteNote(req: Request, env: Env, s: Store): (out: (Response, Store))
    ensures out.0.body == NoBody
    ensures out.0.status != 200 ==> out.1 == s
    ensures out.0.status == 200 ==>
      && req.tenant.Some? && req.user.Some? && ParseDec(req.noteId).Some?
      && Owns(s, ParseDec(req.noteId).value, req.tenant.value.id, req.user.value.user.id)
      && out.1 == s.(notes := s.notes - {ParseDec(req.noteId).value})
    ensures forall k :: req.tenant.Some? && req.user.Some? && !env.storeDown && ParseDec(req.noteId) == Some(k) ==>
      if Owns(s, k, req.tenant.value.id, req.user.value.user.id)
      then out.0.status == 200
      else out == (Fail(404, DELETE_NOT_FOUND), s)
  {
    if req.tenant.None? || req.user.None? || env.storeDown then (Fail(500, INTERNAL_ERROR), s)
    else
      match ParseDec(req.noteId)
      case None => (Fail(500, INTERNAL_ERROR), s)
      case Some(k) =>
        if !Owns(s, k, req.tenant.value.id, req.user.value.user.id) then (Fail(404, DELETE_NOT_FOUND), s)
        else (Response(200, true, "Note deleted successfully", None, NoBody, []), s.(notes := s.notes - {k}))
  }

  /** Deleting the same note twice: the second attempt finds nothing. */
  lemma DeleteTwiceNotFound(req: Request, env: Env, s: Store)
    requires DeleteNote(req, env, s).0.status == 200
    requires !env.storeDown
    ensures DeleteNote(req, env, DeleteNote(req, env, s).1) == (Fail(404, DELETE_NOT_FOUND), DeleteNote(req, env, s).1)
  {
  }
}
