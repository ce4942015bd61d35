/** The arithmetic and ordering behind the note listing: query-parameter
    defaults, the newest-first order, the page window and the page count. */
module Paging {
  import opened Wrappers
  import opened Text
  import opened Models

  const DEFAULT_PAGE: int := 1
  const DEFAULT_LIMIT: int := 6

  /** `parseInt(q) || d`: the parsed integer, or `d` when the parameter is
      absent, has no leading integer, or parses to 0. */
  function QueryIntOr(q: Option<string>, d: int): (r: int)
    ensures d != 0 ==> r != 0
    ensures q.None? ==> r == d
    ensures q.Some? && JsParseInt(q.value).Some? && JsParseInt(q.value).value != 0 ==> r == JsParseInt(q.value).value
    ensures q.Some? && (JsParseInt(q.value).None? || JsParseInt(q.value) == Some(0)) ==> r == d
  {
    if q.None? then d
    else match JsParseInt(q.value)
      case None => d
      case Some(v) => if v == 0 then d else v
  }

  /** A positive decimal parameter is taken as given; `"0"` falls back to the default. */
  lemma QueryIntOrDecimal(n: nat, d: int)
    ensures n > 0 ==> QueryIntOr(Some(Dec(n)), d) == n
    ensures QueryIntOr(Some(Dec(0)), d) == d
  {
    ParseIntDec(n);
    ParseIntDec(0);
  }

  /** `Math.ceil(a / b)` for a non-zero integer divisor: the least integer
      not below the exact quotient. */
  function JsCeilDiv(a: nat, b: int): (r: int)
    requires b != 0
    ensures b > 0 ==> (r - 1) * b < a <= r * b
    ensures b < 0 ==> r * b <= a < (r - 1) * b
  {
    if b > 0 then (a + b - 1) / b else -(a / (-b))
  }

  /** `a` comes no later than `b` in the listing: newer creation time first,
      and among equal times the higher id first. */
  predicate NewerOrSame(a: Note, b: Note) {
    a.createdAt > b.createdAt || (a.createdAt == b.createdAt && a.id >= b.id)
  }

  /** `sort({ createdAt: -1 })`, with ties broken by id. */
  predicate NewestFirst(xs: seq<Note>) {
    forall i, j :: 0 <= i < j < |xs| ==> NewerOrSame(xs[i], xs[j])
  }

  function Insert(n: Note, xs: seq<Note>): (r: seq<Note>)
    requires NewestFirst(xs)
    ensures NewestFirst(r)
    ensures multiset(r) == multiset(xs) + multiset{n}
  {
    if xs == [] then [n]
    else if NewerOrSame(n, xs[0]) then [n] + xs
    else
      var rest := Insert(n, xs[1..]);
      InsertBehindHead(n, xs, rest);
      [xs[0]] + rest
  }

  /** Putting the head back in front of the insertion into the tail keeps
      the order, since the head is newer than everything after it. */
  lemma InsertBehindHead(n: Note, xs: seq<Note>, rest: seq<Note>)
    requires xs != [] && NewestFirst(xs) && !NewerOrSame(n, xs[0])
    requires NewestFirst(rest) && multiset(rest) == multiset(xs[1..]) + multiset{n}
    ensures NewestFirst([xs[0]] + rest)
    ensures multiset([xs[0]] + rest) == multiset(xs) + multiset{n}
  {
    assert xs == [xs[0]] + xs[1..];
    var r := [xs[0]] + rest;
    forall j | 0 <= j < |rest|
      ensures NewerOrSame(xs[0], rest[j])
    {
      assert rest[j] in multiset(rest);
      if rest[j] != n {
        assert rest[j] in multiset(xs[1..]);
        var k :| 0 <= k < |xs[1..]| && xs[1..][k] == rest[j];
        assert xs[k + 1] == rest[j];
      }
    }
    forall i, j | 0 <= i < j < |r|
      ensures NewerOrSame(r[i], r[j])
    {
      if i > 0 {
        assert r[i] == rest[i - 1] && r[j] == rest[j - 1];
      } else {
        assert r[j] == rest[j - 1];
      }
    }
  }

  /** The notes in listing order. */
  function SortNewestFirst(xs: seq<Note>): (r: seq<Note>)
    ensures NewestFirst(r)
    ensures multiset(r) == multiset(xs)
  {
    if xs == [] then []
    else
      assert xs == [xs[0]] + xs[1..];
      Insert(xs[0], SortNewestFirst(xs[1..]))
  }

  /** No two positions hold notes with the same id. */
  predicate DistinctIds(xs: seq<Note>) {
    forall i, j :: 0 <= i < |xs| && 0 <= j < |xs| && xs[i].id == xs[j].id ==> i == j
  }

  /** Notes with distinct ids have only one listing order. */
  lemma {:induction false} NewestFirstUnique(a: seq<Note>, b: seq<Note>)
    requires NewestFirst(a) && NewestFirst(b)
    requires multiset(a) == multiset(b)
    requires DistinctIds(a)
    ensures a == b
    decreases |a|
  {
    if a != [] {
      assert |b| == |multiset(b)| == |a|;
      HeadsAgree(a, b);
      TailsAgree(a, b);
      NewestFirstUnique(a[1..], b[1..]);
      assert a == [a[0]] + a[1..];
      assert b == [b[0]] + b[1..];
    }
  }

  /** What `sort({ createdAt: -1 })` itself promises: creation times never
      increase along the list. */
  predicate CreatedAtDescending(xs: seq<Note>) {
    forall i, j :: 0 <= i < j < |xs| ==> xs[i].createdAt >= xs[j].createdAt
  }

  predicate DistinctCreationTimes(xs: seq<Note>) {
    forall i, j :: 0 <= i < |xs| && 0 <= j < |xs| && xs[i].createdAt == xs[j].createdAt ==> i == j
  }

  /** The id tie-break decides nothing when creation times differ: any
      order of the notes by creation time alone is the listing. */
  lemma CreatedAtOrderIsListing(xs: seq<Note>, b: seq<Note>)
    requires multiset(b) == multiset(xs)
    requires CreatedAtDescending(b) && DistinctCreationTimes(b) && DistinctIds(b)
    ensures b == SortNewestFirst(xs)
  {
    forall i, j | 0 <= i < j < |b|
      ensures NewerOrSame(b[i], b[j])
    {
      assert b[i].createdAt != b[j].createdAt;
    }
    NewestFirstUnique(b, SortNewestFirst(xs));
  }

  /** Two listings of the same notes with distinct ids start with the same note. */
  lemma HeadsAgree(a: seq<Note>, b: seq<Note>)
    requires a != [] && |b| == |a| && NewestFirst(a) && NewestFirst(b)
    requires multiset(a) == multiset(b) && DistinctIds(a)
    ensures a[0] == b[0]
  {
    assert b[0] in multiset(a) by { assert b[0] in multiset(b); }
    assert a[0] in multiset(b);
    var i :| 0 <= i < |a| && a[i] == b[0];
    var j :| 0 <= j < |b| && b[j] == a[0];
    assert NewerOrSame(a[0], a[i]);
    assert NewerOrSame(b[0], b[j]);
  }

  /** After a common first note, the rests are listings of the same notes. */
  lemma TailsAgree(a: seq<Note>, b: seq<Note>)
    requires a != [] && b != [] && a[0] == b[0] && NewestFirst(a) && NewestFirst(b)
    requires multiset(a) == multiset(b) && DistinctIds(a)
    ensures NewestFirst(a[1..]) && NewestFirst(b[1..]) && DistinctIds(a[1..])
    ensures multiset(a[1..]) == multiset(b[1..])
  {
    assert a == [a[0]] + a[1..];
    assert b == [b[0]] + b[1..];
    assert multiset(a[1..]) == multiset(a) - multiset{a[0]};
    assert multiset(b[1..]) == multiset(b) - multiset{b[0]};
    forall i, j | 0 <= i < |a[1..]| && 0 <= j < |a[1..]| && a[1..][i].id == a[1..][j].id
      ensures i == j
    {
      assert a[i + 1].id == a[j + 1].id;
    }
  }

  /** `.skip(skip).limit(count)`: at most `count` notes starting at `skip`. */
  function Window(xs: seq<Note>, skip: nat, count: nat): (r: seq<Note>)
    ensures |r| == if skip >= |xs| then 0 else Min(count, |xs| - skip)
    ensures forall i :: 0 <= i < |r| ==> r[i] == xs[skip + i]
  {
    if skip >= |xs| then [] else xs[skip..skip + Min(count, |xs| - skip)]
  }

  function Min(a: nat, b: nat): nat {
    if a <= b then a else b
  }

  function Abs(x: int): nat {
    if x < 0 then -x else x
  }

  /** The windows of consecutive pages of one size tile the list: each page
      continues exactly where the previous one stopped. */
  lemma {:induction false} WindowsTile(xs: seq<Note>, skip: nat, count: nat)
    requires count > 0
    ensures Window(xs, skip, count) + Window(xs, skip + count, count) == Window(xs, skip, 2 * count)
  {
    var a := Window(xs, skip, count);
    var b := Window(xs, skip + count, count);
    var c := Window(xs, skip, 2 * count);
    assert |a + b| == |c|;
    forall i | 0 <= i < |c|
      ensures (a + b)[i] == c[i]
    {
      if i >= |a| {
        assert |a| == count;
      }
    }
  }
}
