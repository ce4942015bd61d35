/** String helpers with JavaScript semantics: `trim`, ASCII case mapping,
    `split`/`join` on one character, `replace` of the first occurrence of a
    literal pattern, canonical decimal numerals and `parseInt`. */
module Text {
  import opened Wrappers

  /** The characters JavaScript treats as white space or line terminators: the
      class `\s` matches, `String.prototype.trim` strips and `parseInt` skips. */
  predicate IsJsSpace(c: char) {
    var n := c as int;
    || n == 0x09 || n == 0x0A || n == 0x0B || n == 0x0C || n == 0x0D || n == 0x20
    || n == 0xA0 || n == 0x1680 || (0x2000 <= n <= 0x200A)
    || n == 0x2028 || n == 0x2029 || n == 0x202F || n == 0x205F || n == 0x3000 || n == 0xFEFF
  }

  /** Drops leading white space: the result is a suffix of `s` that does not
      start with white space, and everything dropped was white space. */
  function TrimStart(s: string): (r: string)
    ensures |r| <= |s| && r == s[|s| - |r|..]
    ensures |r| > 0 ==> !IsJsSpace(r[0])
    ensures forall i :: 0 <= i < |s| - |r| ==> IsJsSpace(s[i])
    decreases |s|
  {
    if |s| > 0 && IsJsSpace(s[0]) then TrimStart(s[1..]) else s
  }

  /** Drops trailing white space: the result is a prefix of `s` that does not
      end with white space, and everything dropped was white space. */
  function TrimEnd(s: string): (r: string)
    ensures |r| <= |s| && r == s[..|r|]
    ensures |r| > 0 ==> !IsJsSpace(r[|r| - 1])
    ensures forall i :: |r| <= i < |s| ==> IsJsSpace(s[i])
    decreases |s|
  {
    if |s| > 0 && IsJsSpace(s[|s| - 1]) then TrimEnd(s[..|s| - 1]) else s
  }

  /** `String.prototype.trim`. */
  function Trim(s: string): (r: string) {
    TrimEnd(TrimStart(s))
  }

  /** Trimming keeps a contiguous run of `s` that starts and ends with a
      non-space character, and drops only white space around it. */
  lemma TrimIsCore(s: string)
    ensures var r := Trim(s); var lo := |s| - |TrimStart(s)|;
      && lo + |r| <= |s| && r == s[lo..lo + |r|]
      && (|r| > 0 ==> !IsJsSpace(r[0]) && !IsJsSpace(r[|r| - 1]))
      && (forall i :: 0 <= i < lo ==> IsJsSpace(s[i]))
      && (forall i :: lo + |r| <= i < |s| ==> IsJsSpace(s[i]))
  {
    TrimIsSlice(s);
    TrimDropsSpace(s);
  }

  /** The trimmed text is the slice of `s` after the leading white space. */
  lemma TrimIsSlice(s: string)
    ensures var r := Trim(s); var lo := |s| - |TrimStart(s)|;
      && lo + |r| <= |s| && r == s[lo..lo + |r|]
      && (|r| > 0 ==> !IsJsSpace(r[0]) && !IsJsSpace(r[|r| - 1]))
  {
    var t := TrimStart(s);
    var r := TrimEnd(t);
    assert t == s[|s| - |t|..] && r == t[..|r|];
    SliceOfSlice(s, t, r, |s| - |t|);
  }

  /** Everything around the trimmed text is white space. */
  lemma TrimDropsSpace(s: string)
    ensures var r := Trim(s); var lo := |s| - |TrimStart(s)|;
      && (forall i :: 0 <= i < lo ==> IsJsSpace(s[i]))
      && (forall i :: lo + |r| <= i < |s| ==> IsJsSpace(s[i]))
  {
    var t := TrimStart(s);
    var r := TrimEnd(t);
    var lo := |s| - |t|;
    forall i | lo + |r| <= i < |s|
      ensures IsJsSpace(s[i])
    {
      assert s[i] == t[i - lo];
    }
  }

  /** A prefix of a suffix is a slice, and starts where the suffix does. */
  lemma SliceOfSlice(s: string, t: string, r: string, lo: nat)
    requires lo <= |s| && t == s[lo..] && |r| <= |t| && r == t[..|r|]
    ensures lo + |r| <= |s| && r == s[lo..lo + |r|]
    ensures |r| > 0 ==> r[0] == t[0]
  {
  }

  /** Trimming twice is trimming once. */
  lemma TrimIdempotent(s: string)
    ensures Trim(Trim(s)) == Trim(s)
  {
    var t := TrimStart(s);
    var r := TrimEnd(t);
    if |r| > 0 {
      assert r[0] == t[0];
      TrimStartKeeps(r);
      TrimEndKeeps(r);
    }
  }

  /** Text that does not start with white space is left alone by `TrimStart`. */
  lemma TrimStartKeeps(s: string)
    requires |s| == 0 || !IsJsSpace(s[0])
    ensures TrimStart(s) == s
  {
  }

  /** Text that does not end with white space is left alone by `TrimEnd`. */
  lemma TrimEndKeeps(s: string)
    requires |s| == 0 || !IsJsSpace(s[|s| - 1])
    ensures TrimEnd(s) == s
  {
  }

  /** A string trims to nothing exactly when it is all white space. */
  lemma TrimEmptyIffAllSpace(s: string)
    ensures Trim(s) == "" <==> forall i :: 0 <= i < |s| ==> IsJsSpace(s[i])
  {
    TrimIsCore(s);
    if forall i :: 0 <= i < |s| ==> IsJsSpace(s[i]) {
      var t := TrimStart(s);
      if |t| > 0 {
        assert t[0] == s[|s| - |t|];
      }
    }
  }

  /** ASCII lower-casing of one character. */
  function LowerChar(c: char): char {
    if 'A' <= c <= 'Z' then (c as int + 32) as char else c
  }

  /** ASCII upper-casing of one character. */
  function UpperChar(c: char): char {
    if 'a' <= c <= 'z' then (c as int - 32) as char else c
  }

  /** `toLowerCase` on ASCII letters: each character lower-cased in place. */
  function Lower(s: string): (r: string)
    ensures |r| == |s|
    ensures forall i :: 0 <= i < |s| ==> r[i] == LowerChar(s[i])
    decreases |s|
  {
    if s == [] then [] else [LowerChar(s[0])] + Lower(s[1..])
  }

  /** `toUpperCase` on ASCII letters: each character upper-cased in place. */
  function Upper(s: string): (r: string)
    ensures |r| == |s|
    ensures forall i :: 0 <= i < |s| ==> r[i] == UpperChar(s[i])
    decreases |s|
  {
    if s == [] then [] else [UpperChar(s[0])] + Upper(s[1..])
  }

  /** Lower-casing never creates or removes white space, so it commutes with trimming. */
  lemma LowerPreservesSpace(s: string)
    ensures forall i :: 0 <= i < |s| ==> (IsJsSpace(Lower(s)[i]) <==> IsJsSpace(s[i]))
  {
  }

  /** A character beyond the Basic Multilingual Plane, which UTF-16 stores
      as a surrogate pair. */
  predicate IsAstral(c: char) {
    c as int >= 0x10000
  }

  /** The positions of `s` that hold an astral character. */
  function AstralPositions(s: string): set<int> {
    set i | 0 <= i < |s| && IsAstral(s[i])
  }

  /** `s.length`: the number of UTF-16 code units, one per character plus
      one more for each astral character. */
  function Utf16Length(s: string): (n: nat) {
    |s| + |AstralPositions(s)|
  }

  /** At most every position is astral; none is exactly when the count is
      zero, all are exactly when the count is the length. */
  lemma {:induction false} AstralPositionsCount(s: string)
    ensures |AstralPositions(s)| <= |s|
    ensures |AstralPositions(s)| == 0 <==> forall i :: 0 <= i < |s| ==> !IsAstral(s[i])
    ensures |AstralPositions(s)| == |s| <==> forall i :: 0 <= i < |s| ==> IsAstral(s[i])
    decreases |s|
  {
    if |s| > 0 {
      var p := s[..|s| - 1];
      AstralPositionsCount(p);
      assert forall i :: 0 <= i < |p| ==> p[i] == s[i];
      if IsAstral(s[|s| - 1]) {
        assert AstralPositions(s) == AstralPositions(p) + {|s| - 1};
      } else {
        assert AstralPositions(s) == AstralPositions(p);
      }
    }
  }

  /** A text has between one and two code units per character. */
  lemma Utf16LengthBounds(s: string)
    ensures |s| <= Utf16Length(s) <= 2 * |s|
  {
    AstralPositionsCount(s);
  }

  /** The code units are as many as the characters exactly when no character
      is astral. */
  lemma Utf16LengthNarrow(s: string)
    ensures Utf16Length(s) == |s| <==> forall i :: 0 <= i < |s| ==> !IsAstral(s[i])
  {
    AstralPositionsCount(s);
  }

  /** The code units are twice the characters exactly when every character
      is astral. */
  lemma Utf16LengthWide(s: string)
    ensures Utf16Length(s) == 2 * |s| <==> forall i :: 0 <= i < |s| ==> IsAstral(s[i])
  {
    AstralPositionsCount(s);
  }

  /** `s.split(sep)` for a one-character separator: the pieces between
      separators, in order, with empty pieces kept. */
  function Split(s: string, sep: char): (parts: seq<string>)
    ensures |parts| >= 1
    ensures forall i :: 0 <= i < |parts| ==> sep !in parts[i]
    decreases |s|
  {
    if |s| == 0 then [""]
    else
      var rest := Split(s[1..], sep);
      if s[0] == sep then [""] + rest else [[s[0]] + rest[0]] + rest[1..]
  }

  /** `parts.join(sep)`: the parts with `sep` between neighbours, `""` for none. */
  function Join(parts: seq<string>, sep: string): string
    decreases |parts|
  {
    if |parts| == 0 then ""
    else if |parts| == 1 then parts[0]
    else parts[0] + sep + Join(parts[1..], sep)
  }

  /** Joining the pieces of a split gives back the original string. */
  lemma {:induction false} JoinSplit(s: string, sep: char)
    ensures Join(Split(s, sep), [sep]) == s
    decreases |s|
  {
    if |s| > 0 {
      var rest := Split(s[1..], sep);
      JoinSplit(s[1..], sep);
      if s[0] != sep {
        var parts := Split(s, sep);
        if |rest| == 1 {
          assert parts == [[s[0]] + rest[0]];
        } else {
          assert parts[1..] == rest[1..];
          assert Join(rest, [sep]) == rest[0] + [sep] + Join(rest[1..], [sep]);
        }
      }
    }
  }

  /** A separator-free prefix glues onto the first piece of what follows. */
  lemma {:induction false} SplitCons(a: string, b: string, sep: char)
    requires sep !in a
    ensures Split(a + b, sep) == [a + Split(b, sep)[0]] + Split(b, sep)[1..]
    decreases |a|
  {
    if |a| == 0 {
      var S := Split(b, sep);
      assert a + b == b;
      assert a + S[0] == S[0];
      assert S == [S[0]] + S[1..];
    } else {
      var S := Split(b, sep);
      assert (a + b)[1..] == a[1..] + b;
      SplitCons(a[1..], b, sep);
      var rest := Split(a[1..] + b, sep);
      assert rest == [a[1..] + S[0]] + S[1..];
      assert (a + b)[0] == a[0] != sep;
      assert Split(a + b, sep) == [[a[0]] + rest[0]] + rest[1..];
      assert [a[0]] + (a[1..] + S[0]) == a + S[0];
    }
  }

  /** Splitting a join of separator-free pieces gives back the pieces. */
  lemma {:induction false} SplitJoin(parts: seq<string>, sep: char)
    requires |parts| >= 1
    requires forall i :: 0 <= i < |parts| ==> sep !in parts[i]
    ensures Split(Join(parts, [sep]), sep) == parts
    decreases |parts|
  {
    if |parts| == 1 {
      SplitCons(parts[0], "", sep);
      assert parts[0] + "" == parts[0];
    } else {
      var tail := Join(parts[1..], [sep]);
      SplitJoin(parts[1..], sep);
      assert Join(parts, [sep]) == parts[0] + ([sep] + tail);
      assert ([sep] + tail)[1..] == tail;
      assert Split([sep] + tail, sep) == [""] + Split(tail, sep);
      SplitCons(parts[0], [sep] + tail, sep);
      var X := Split([sep] + tail, sep);
      assert X[0] == "" && X[1..] == parts[1..];
      assert parts[0] + X[0] == parts[0];
      assert parts == [parts[0]] + parts[1..];
    }
  }

  /** The text before the first occurrence of `sep` (all of `s` when there is none). */
  function Before(s: string, sep: char): (r: string)
    ensures sep !in r
    ensures r <= s
    ensures |r| < |s| ==> s[|r|] == sep
    decreases |s|
  {
    if |s| == 0 || s[0] == sep then "" else [s[0]] + Before(s[1..], sep)
  }

  /** `Before` is the first piece of the split. */
  lemma {:induction false} BeforeIsFirstPiece(s: string, sep: char)
    ensures Split(s, sep)[0] == Before(s, sep)
    decreases |s|
  {
    if |s| > 0 && s[0] != sep {
      BeforeIsFirstPiece(s[1..], sep);
    }
  }

  /** `pat` occurs in `s` at index `i`. */
  predicate OccursAt(s: string, pat: string, i: nat) {
    i + |pat| <= |s| && s[i..i + |pat|] == pat
  }

  /** The first index at or after `k` where `pat` occurs in `s`. */
  function IndexFrom(s: string, pat: string, k: nat): (r: Option<nat>)
    ensures r.Some? ==> k <= r.value && OccursAt(s, pat, r.value)
    ensures r.Some? ==> forall j :: k <= j < r.value ==> !OccursAt(s, pat, j)
    ensures r.None? ==> forall j :: k <= j ==> !OccursAt(s, pat, j)
    decreases |s| - k
  {
    if k + |pat| > |s| then None
    else if s[k..k + |pat|] == pat then Some(k)
    else IndexFrom(s, pat, k + 1)
  }

  /** `s.replace(pat, rep)` with a literal string pattern: only the first
      occurrence is replaced; without one, `s` is returned unchanged. */
  function ReplaceFirst(s: string, pat: string, rep: string): string {
    match IndexFrom(s, pat, 0)
    case None => s
    case Some(i) => s[..i] + rep + s[i + |pat|..]
  }

  /** A string that starts with the pattern loses exactly that prefix. */
  lemma ReplaceFirstPrefix(pat: string, rest: string)
    ensures ReplaceFirst(pat + rest, pat, "") == rest
  {
    assert OccursAt(pat + rest, pat, 0);
    assert (pat + rest)[|pat|..] == rest;
  }

  /** A string without the pattern is left as it is. */
  lemma ReplaceFirstAbsent(s: string, pat: string)
    requires forall j :: !OccursAt(s, pat, j)
    ensures ReplaceFirst(s, pat, "") == s
  {
  }

  predicate IsDigit(c: char) {
    '0' <= c <= '9'
  }

  predicate AllDigits(s: string) {
    forall i :: 0 <= i < |s| ==> IsDigit(s[i])
  }

  /** The character of a decimal digit. */
  function DigitChar(d: nat): (c: char)
    requires d < 10
    ensures IsDigit(c)
  {
    ('0' as int + d) as char
  }

  /** The value of a digit character in any radix up to 36 (letters of either
      case stand for 10 to 35), or 36 for a character that is no digit at all. */
  function DigitValue(c: char): nat {
    if '0' <= c <= '9' then c as int - '0' as int
    else if 'a' <= c <= 'z' then c as int - 'a' as int + 10
    else if 'A' <= c <= 'Z' then c as int - 'A' as int + 10
    else 36
  }

  /** The number a string of radix digits denotes. */
  function Value(s: string, radix: nat): nat
    requires forall i :: 0 <= i < |s| ==> DigitValue(s[i]) < radix
    decreases |s|
  {
    if |s| == 0 then 0 else Value(s[..|s| - 1], radix) * radix + DigitValue(s[|s| - 1])
  }

  /** The canonical decimal numeral of `n` (`String(n)`): digits only, no leading zero. */
  function Dec(n: nat): (r: string)
    ensures |r| >= 1 && AllDigits(r)
    ensures n == 0 ==> r == "0"
    ensures n > 0 ==> r[0] != '0'
    decreases n
  {
    if n < 10 then [DigitChar(n)] else Dec(n / 10) + [DigitChar(n % 10)]
  }

  /** A canonical decimal numeral read back as a number; anything else is rejected. */
  function ParseDec(s: string): Option<nat> {
    if |s| > 0 && AllDigits(s) && (s[0] != '0' || |s| == 1) then Some(Value(s, 10)) else None
  }

  /** The numeral of `n` denotes `n`. */
  lemma {:induction false} DecValue(n: nat)
    ensures Value(Dec(n), 10) == n
    decreases n
  {
    if n >= 10 {
      DecValue(n / 10);
      var d := Dec(n);
      assert d[..|d| - 1] == Dec(n / 10);
    }
  }

  /** A digit string without a leading zero denotes a positive number. */
  lemma {:induction false} ValuePositive(s: string)
    requires |s| > 0 && AllDigits(s) && s[0] != '0'
    ensures Value(s, 10) > 0
    decreases |s|
  {
    if |s| > 1 {
      ValuePositive(s[..|s| - 1]);
    }
  }

  /** Decimal numerals round-trip: `n` is read back from its numeral ... */
  lemma ParseDecDec(n: nat)
    ensures ParseDec(Dec(n)) == Some(n)
  {
    DecValue(n);
  }

  /** ... and a numeral that is read back is the canonical numeral of its value. */
  lemma {:induction false} ParseDecCanonical(s: string)
    requires ParseDec(s).Some?
    ensures s == Dec(ParseDec(s).value)
    decreases |s|
  {
    var n := Value(s, 10);
    if |s| > 1 {
      var p := s[..|s| - 1];
      assert ParseDec(p).Some?;
      ParseDecCanonical(p);
      ValuePositive(p);
      var d := DigitValue(s[|s| - 1]);
      assert n == Value(p, 10) * 10 + d;
      assert n / 10 == Value(p, 10) && n % 10 == d;
      assert s == p + [s[|s| - 1]];
    } else if |s| == 1 {
      assert IsDigit(s[0]) && s[..0] == [] && s == [s[0]];
      assert Value(s[..0], 10) == 0;
      assert n == DigitValue(s[0]);
    }
  }

  /** Decimal numerals are injective. */
  lemma DecInjective(a: nat, b: nat)
    requires Dec(a) == Dec(b)
    ensures a == b
  {
    ParseDecDec(a);
    ParseDecDec(b);
  }

  /** The longest prefix of `s` made of radix digits. */
  function DigitPrefix(s: string, radix: nat): (r: string)
    ensures r <= s
    ensures forall i :: 0 <= i < |r| ==> DigitValue(r[i]) < radix
    ensures |r| < |s| ==> DigitValue(s[|r|]) >= radix
    decreases |s|
  {
    if |s| > 0 && DigitValue(s[0]) < radix then [s[0]] + DigitPrefix(s[1..], radix) else []
  }

  /** A string of radix digits is its own longest digit prefix. */
  lemma DigitPrefixAll(s: string, radix: nat)
    requires forall i :: 0 <= i < |s| ==> DigitValue(s[i]) < radix
    ensures DigitPrefix(s, radix) == s
  {
  }

  /** The longest run of digits after an optional `0x`/`0X` prefix (which
      selects radix 16), read in that radix; `None` when the run is empty. */
  function ParseMagnitude(u: string): Option<nat> {
    var hex := |u| >= 2 && u[0] == '0' && (u[1] == 'x' || u[1] == 'X');
    var radix := if hex then 16 else 10;
    var digits := DigitPrefix(if hex then u[2..] else u, radix);
    if |digits| == 0 then None else Some(Value(digits, radix))
  }

  /** One optional sign, then the magnitude. */
  function ParseSigned(t: string): Option<int> {
    var negative := |t| > 0 && t[0] == '-';
    var u := if |t| > 0 && (t[0] == '-' || t[0] == '+') then t[1..] else t;
    match ParseMagnitude(u)
    case None => None
    case Some(m) =>
      var v: int := if negative then -(m as int) else m;
      Some(v)
  }

  /** JavaScript's `parseInt(s)` without a radix argument: leading white space
      is skipped, one sign is read, a `0x`/`0X` prefix selects radix 16, and the
      longest run of digits that follows is read; `None` stands for `NaN`. */
  function JsParseInt(s: string): Option<int> {
    ParseSigned(TrimStart(s))
  }

  /** `parseInt(String(n)) == n` for every natural number. */
  lemma ParseIntDec(n: nat)
    ensures JsParseInt(Dec(n)) == Some(n)
  {
    var d := Dec(n);
    assert IsDigit(d[0]) && !IsJsSpace(d[0]);
    TrimStartKeeps(d);
    assert ParseMagnitude(d) == Some(Value(d, 10)) by {
      assert |d| >= 2 ==> IsDigit(d[1]);
      assert forall i :: 0 <= i < |d| ==> DigitValue(d[i]) < 10;
      DigitPrefixAll(d, 10);
    }
    DecValue(n);
  }

  /** Text without a digit has no magnitude. */
  lemma NoDigitsNoMagnitude(u: string)
    requires forall i :: 0 <= i < |u| ==> !IsDigit(u[i])
    ensures ParseMagnitude(u) == None
  {
    if |u| > 0 {
      assert !IsDigit(u[0]);
    }
  }

  /** `parseInt` of a string with no digit after the optional sign and white space is `NaN`. */
  lemma ParseIntNoDigits(s: string)
    requires forall i :: 0 <= i < |s| ==> !IsDigit(s[i])
    ensures JsParseInt(s) == None
  {
    var t := TrimStart(s);
    assert forall i :: 0 <= i < |t| ==> t[i] == s[|s| - |t| + i];
    var u := if |t| > 0 && (t[0] == '-' || t[0] == '+') then t[1..] else t;
    assert forall i :: 0 <= i < |u| ==> !IsDigit(u[i]);
    NoDigitsNoMagnitude(u);
  }
}
