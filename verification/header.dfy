/** The initials the page header shows for the signed-in user. */
module Header {
  import opened Text
  import opened Paging

  /** The first character of every non-empty segment, in order; an empty
      segment has no first character and contributes nothing to the join. */
  function FirstLetters(parts: seq<string>): (r: string)
    ensures |r| <= |parts|
    decreases |parts|
  {
    if parts == [] then ""
    else (if parts[0] == "" then "" else [parts[0][0]]) + FirstLetters(parts[1..])
  }

  /** The letters of consecutive segment lists follow each other. */
  lemma {:induction false} FirstLettersAppend(a: seq<string>, b: seq<string>)
    ensures FirstLetters(a + b) == FirstLetters(a) + FirstLetters(b)
    decreases |a|
  {
    if a == [] {
      assert a + b == b;
    } else {
      assert (a + b)[1..] == a[1..] + b;
      FirstLettersAppend(a[1..], b);
    }
  }

  /** One segment gives its first character, or nothing when it is empty. */
  lemma FirstLettersSingle(part: string)
    ensures FirstLetters([part]) == if part == "" then "" else [part[0]]
  {
    assert [part][1..] == [];
  }

  /** The upper-cased first letters of the segments of the text before the
      first `@`. */
  function InitialLetters(email: string): string {
    Upper(FirstLetters(Split(Before(email, '@'), '.')))
  }

  /** `userInitials`: the first letters of the dot-separated segments of the
      text before the first `@`, upper-cased, at most two of them. */
  function Initials(email: string): (r: string)
    ensures |r| <= 2
    ensures |r| == Min(2, |FirstLetters(Split(Before(email, '@'), '.'))|)
    ensures forall i :: 0 <= i < |r| ==> r[i] == UpperChar(FirstLetters(Split(Before(email, '@'), '.'))[i])
  {
    BeforeIsFirstPiece(email, '@');
    var letters := Upper(FirstLetters(Split(Split(email, '@')[0], '.')));
    letters[..Min(2, |letters|)]
  }

  /** Only the text before the first `@` matters. */
  lemma InitialsIgnoreDomain(local: string, domain: string)
    requires '@' !in local
    ensures Initials(local + "@" + domain) == Initials(local)
  {
    var e := local + "@" + domain;
    assert e == local + ("@" + domain);
    BeforeAt(local, "@" + domain);
    assert local + "" == local;
    BeforeAt(local, "");
    assert InitialLetters(e) == InitialLetters(local);
  }

  /** `Before` stops at the first `@`, or takes everything when there is none. */
  lemma {:induction false} BeforeAt(local: string, rest: string)
    requires '@' !in local
    requires rest == "" || rest[0] == '@'
    ensures Before(local + rest, '@') == local
    decreases |local|
  {
    if local == [] {
      assert local + rest == rest;
    } else {
      assert (local + rest)[1..] == local[1..] + rest;
      BeforeAt(local[1..], rest);
    }
  }

  /** A first and a last name give the two capitalised first letters. */
  lemma TwoSegmentInitials(first: string, last: string, domain: string)
    requires first != "" && last != ""
    requires '.' !in first && '@' !in first && '.' !in last && '@' !in last
    ensures Initials(first + "." + last + "@" + domain) == [UpperChar(first[0]), UpperChar(last[0])]
  {
    var local := first + "." + last;
    NoAtInJoin(first, last);
    InitialsIgnoreDomain(local, domain);
    TwoSegmentLetters(first, last);
  }

  lemma NoAtInJoin(first: string, last: string)
    requires '@' !in first && '@' !in last
    ensures '@' !in first + "." + last
  {
    var local := first + "." + last;
    assert forall i :: 0 <= i < |local| ==>
      local[i] == (if i < |first| then first[i] else if i == |first| then '.' else last[i - |first| - 1]);
  }

  lemma TwoSegmentLetters(first: string, last: string)
    requires first != "" && last != ""
    requires '.' !in first && '@' !in first && '.' !in last && '@' !in last
    ensures InitialLetters(first + "." + last) == [UpperChar(first[0]), UpperChar(last[0])]
  {
    var local := first + "." + last;
    NoAtInJoin(first, last);
    assert local + "" == local;
    BeforeAt(local, "");
    assert Join([first, last], ".") == local by {
      assert [first, last][1..] == [last];
    }
    SplitJoin([first, last], '.');
    assert [first] + [last] == [first, last];
    FirstLettersAppend([first], [last]);
    FirstLettersSingle(first);
    FirstLettersSingle(last);
  }

  /** Empty segments, from doubled or leading dots, add no letters. */
  lemma EmptySegmentsSkipped(a: seq<string>, b: seq<string>)
    ensures FirstLetters(a + [""] + b) == FirstLetters(a) + FirstLetters(b)
  {
    FirstLettersAppend(a + [""], b);
    FirstLettersAppend(a, [""]);
    FirstLettersSingle("");
  }
}
