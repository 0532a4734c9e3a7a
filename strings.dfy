/** Text helpers with the semantics of the Rust standard-library calls the
    client makes on `str`/`String`: `starts_with`, `contains`, `split` with a
    string pattern, `join`, `trim`, `to_uppercase` (ASCII part), `replace(" ", "")`,
    `parse::<i64>`, integer `Display`, and the ordering of `String`. */
module Strings {
  import opened Wrappers

  predicate StartsWith(s: string, prefix: string) {
    |prefix| <= |s| && s[..|prefix|] == prefix
  }

  /** `str::contains` with a string pattern. */
  predicate Contains(s: string, sub: string)
    decreases |s|
  {
    StartsWith(s, sub) || (|s| > 0 && Contains(s[1..], sub))
  }

  /** An occurrence at position `j` makes `Contains` hold. */
  lemma {:induction false} ContainsAt(s: string, sub: string, j: nat)
    requires j + |sub| <= |s| && s[j..j + |sub|] == sub
    ensures Contains(s, sub)
    decreases j
  {
    if j == 0 {
      assert StartsWith(s, sub);
    } else {
      assert s[1..][j - 1..j - 1 + |sub|] == s[j..j + |sub|];
      ContainsAt(s[1..], sub, j - 1);
    }
  }

  /** `Contains` always has a witness position. */
  lemma {:induction false} ContainsWitness(s: string, sub: string) returns (j: nat)
    requires Contains(s, sub)
    ensures j + |sub| <= |s| && s[j..j + |sub|] == sub
    decreases |s|
  {
    if StartsWith(s, sub) {
      j := 0;
    } else {
      var k := ContainsWitness(s[1..], sub);
      j := k + 1;
      assert s[1..][k..k + |sub|] == s[j..j + |sub|];
    }
  }

  /** Position of the first occurrence of `sep` in `s` (`str::find`). */
  function Find(s: string, sep: string): (r: Option<nat>)
    ensures r.Some? ==> r.value + |sep| <= |s| && s[r.value..r.value + |sep|] == sep
    ensures r.Some? && |sep| > 0 ==> !Contains(s[..r.value + |sep| - 1], sep)
    ensures r.None? <==> !Contains(s, sep)
    decreases |s|
  {
    if StartsWith(s, sep) then
      if |sep| > 0 then ShorterNotContains(s[..|sep| - 1], sep); Some(0) else Some(0)
    else if |s| == 0 then None
    else
      match Find(s[1..], sep)
      case None => None
      case Some(i) =>
        var n := i + 1 + |sep| - 1;
        assert |sep| > 0 ==> s[..n][1..] == s[1..][..i + |sep| - 1];
        assert |sep| > 0 ==> s[..n][..|sep|] == s[..|sep|];
        Some(i + 1)
  }

  lemma {:induction false} ShorterNotContains(t: string, sub: string)
    requires |t| < |sub|
    ensures !Contains(t, sub)
    decreases |t|
  {
    if |t| > 0 {
      ShorterNotContains(t[1..], sub);
    }
  }

  /** An occurrence with no earlier occurrence is the one `Find` reports. */
  lemma FindFirstOccurrence(s: string, sep: string, n: nat)
    requires |sep| > 0 && n + |sep| <= |s| && s[n..n + |sep|] == sep
    requires !Contains(s[..n + |sep| - 1], sep)
    ensures Find(s, sep) == Some(n)
  {
    ContainsAt(s, sep, n);
    var r := Find(s, sep);
    FirstOccurrenceUnique(s, sep, r.value, n);
  }

  /** Two occurrences that each have none ending before them are the same. */
  lemma FirstOccurrenceUnique(s: string, sep: string, i: nat, n: nat)
    requires |sep| > 0 && i + |sep| <= |s| && n + |sep| <= |s|
    requires s[i..i + |sep|] == sep && s[n..n + |sep|] == sep
    requires !Contains(s[..i + |sep| - 1], sep) && !Contains(s[..n + |sep| - 1], sep)
    ensures i == n
  {
    if i < n {
      ghost var before := s[..n + |sep| - 1];
      NoOccurrenceIn(before, s, sep, i);
      assert false;
    } else if i > n {
      ghost var before := s[..i + |sep| - 1];
      NoOccurrenceIn(before, s, sep, n);
      assert false;
    }
  }

  /** No occurrence ends within a prefix that does not contain `sep`. */
  lemma NoOccurrenceIn(before: string, s: string, sep: string, j: nat)
    requires |before| <= |s| && before == s[..|before|]
    requires j + |sep| <= |before| && !Contains(before, sep)
    ensures s[j..j + |sep|] != sep
  {
    if s[j..j + |sep|] == sep {
      OccurrenceInPrefix(s, sep, j, |before|);
      assert false;
    }
  }

  /** An occurrence that ends within the first `m` characters is an
      occurrence in that prefix. */
  lemma OccurrenceInPrefix(s: string, sep: string, j: nat, m: nat)
    requires j + |sep| <= m <= |s| && s[j..j + |sep|] == sep
    ensures Contains(s[..m], sep)
  {
    assert s[..m][j..j + |sep|] == s[j..j + |sep|];
    ContainsAt(s[..m], sep, j);
  }

  /** A one-character pattern occurs only where that character does. */
  lemma ContainsChar(s: string, c: char)
    requires Contains(s, [c])
    ensures c in s
  {
    var j := ContainsWitness(s, [c]);
    assert s[j] == s[j..j + 1][0];
  }

  /** `str::split` with a non-empty string pattern: the pieces between
      non-overlapping occurrences, scanned left to right; never empty. */
  function Split(s: string, sep: string): (r: seq<string>)
    requires |sep| > 0
    ensures |r| >= 1
    decreases |s|
  {
    match Find(s, sep)
    case None => [s]
    case Some(i) => [s[..i]] + Split(s[i + |sep|..], sep)
  }

  /** `[T]::join`. */
  function Join(xs: seq<string>, sep: string): string
  {
    if |xs| == 0 then ""
    else if |xs| == 1 then xs[0]
    else xs[0] + sep + Join(xs[1..], sep)
  }

  /** Joining the pieces of a split with the same separator gives the input back. */
  lemma {:induction false} JoinSplit(s: string, sep: string)
    requires |sep| > 0
    ensures Join(Split(s, sep), sep) == s
    decreases |s|
  {
    var f := Find(s, sep);
    if f.Some? {
      var i := f.value;
      var head, rest := s[..i], s[i + |sep|..];
      var tail := Split(rest, sep);
      JoinSplit(rest, sep);
      JoinCons(head, tail, sep);
      assert Split(s, sep) == [head] + tail;
      SliceThree(s, i, i + |sep|);
    }
  }

  lemma JoinCons(head: string, tail: seq<string>, sep: string)
    requires |tail| >= 1
    ensures Join([head] + tail, sep) == head + sep + Join(tail, sep)
  {
    assert ([head] + tail)[1..] == tail;
  }

  lemma JoinSnoc(xs: seq<string>, x: string, sep: string)
    requires |xs| >= 1
    ensures Join(xs + [x], sep) == Join(xs, sep) + sep + x
    decreases |xs|
  {
    if |xs| > 1 {
      assert (xs + [x])[1..] == xs[1..] + [x];
      JoinSnoc(xs[1..], x, sep);
    }
  }

  lemma SliceThree(s: string, i: nat, k: nat)
    requires i <= k <= |s|
    ensures s == s[..i] + s[i..k] + s[k..]
  {
  }

  /** No piece of a split contains the separator. */
  lemma {:induction false} SplitPiecesFree(s: string, sep: string)
    requires |sep| > 0
    ensures forall p :: p in Split(s, sep) ==> !Contains(p, sep)
    decreases |s|
  {
    match Find(s, sep)
    case None =>
    case Some(i) =>
      var rest := s[i + |sep|..];
      SplitPiecesFree(rest, sep);
      FirstPieceFree(s, sep, i);
      assert Split(s, sep) == [s[..i]] + Split(rest, sep);
  }

  /** The text before the first occurrence does not contain the separator. */
  lemma FirstPieceFree(s: string, sep: string, i: nat)
    requires |sep| > 0 && Find(s, sep) == Some(i)
    ensures !Contains(s[..i], sep)
  {
    if Contains(s[..i], sep) {
      LongerPrefixContains(s, sep, i, i + |sep| - 1);
      assert false;
    }
  }

  /** A prefix containing the separator stays so when it grows. */
  lemma LongerPrefixContains(s: string, sep: string, m: nat, k: nat)
    requires m <= k <= |s| && Contains(s[..m], sep)
    ensures Contains(s[..k], sep)
  {
    var j := ContainsWitness(s[..m], sep);
    assert s[..m][j..j + |sep|] == s[j..j + |sep|];
    OccurrenceInPrefix(s, sep, j, k);
  }

  /** Splitting on a character the text lacks yields the text alone. */
  lemma SplitAbsent(s: string, c: char)
    requires c !in s
    ensures Split(s, [c]) == [s]
  {
    if Contains(s, [c]) {
      ContainsChar(s, c);
    }
  }

  /** A leading piece free of the separator character splits off first. */
  lemma SplitFirst(a: string, c: char, rest: string)
    requires c !in a
    ensures Split(a + [c] + rest, [c]) == [a] + Split(rest, [c])
  {
    var s := a + [c] + rest;
    assert s[|a|..|a| + 1] == [c];
    assert s[..|a|] == a;
    if Contains(a, [c]) {
      ContainsChar(a, c);
    }
    FindFirstOccurrence(s, [c], |a|);
    assert s[|a| + 1..] == rest;
  }

  /** A split yields several pieces exactly when the separator occurs. */
  lemma SplitCount(s: string, sep: string)
    requires |sep| > 0
    ensures Contains(s, sep) <==> |Split(s, sep)| >= 2
  {
  }

  /** Rust's `Ord` on `String`: byte-wise on the UTF-8 encoding, which orders
      exactly as the code points do. */
  predicate LexLeq(a: string, b: string)
    decreases |a|
  {
    |a| == 0 || (|b| > 0 && (a[0] < b[0] || (a[0] == b[0] && LexLeq(a[1..], b[1..]))))
  }

  predicate LexLess(a: string, b: string) {
    LexLeq(a, b) && a != b
  }

  lemma {:induction false} LexLeqTotal(a: string, b: string)
    ensures LexLeq(a, b) || LexLeq(b, a)
    decreases |a|
  {
    if |a| > 0 && |b| > 0 && a[0] == b[0] {
      LexLeqTotal(a[1..], b[1..]);
    }
  }

  lemma {:induction false} LexLeqAntisymmetric(a: string, b: string)
    requires LexLeq(a, b) && LexLeq(b, a)
    ensures a == b
    decreases |a|
  {
    if |a| > 0 && |b| > 0 {
      LexLeqAntisymmetric(a[1..], b[1..]);
      assert a == [a[0]] + a[1..] && b == [b[0]] + b[1..];
    }
  }

  lemma {:induction false} LexLeqTransitive(a: string, b: string, c: string)
    requires LexLeq(a, b) && LexLeq(b, c)
    ensures LexLeq(a, c)
    decreases |a|
  {
    if |a| > 0 && |b| > 0 && |c| > 0 && a[0] == b[0] && b[0] == c[0] {
      LexLeqTransitive(a[1..], b[1..], c[1..]);
    }
  }

  function UpperChar(c: char): char {
    if 'a' <= c <= 'z' then (c as int - 32) as char else c
  }

  /** `str::to_uppercase` restricted to ASCII letters. */
  function UpperAscii(s: string): string {
    seq(|s|, i requires 0 <= i < |s| => UpperChar(s[i]))
  }

  /** `char::is_whitespace`: the Unicode White_Space property. */
  predicate IsWhitespace(c: char) {
    ('\t' <= c <= '\r') || c == ' ' || c == '\U{0085}' || c == '\U{00A0}' || c == '\U{1680}'
    || ('\U{2000}' <= c <= '\U{200A}') || c == '\U{2028}' || c == '\U{2029}'
    || c == '\U{202F}' || c == '\U{205F}' || c == '\U{3000}'
  }

  function TrimStart(s: string): (r: string)
    ensures |r| > 0 ==> !IsWhitespace(r[0])
    ensures |r| <= |s| && r == s[|s| - |r|..]
    decreases |s|
  {
    if |s| > 0 && IsWhitespace(s[0]) then TrimStart(s[1..]) else s
  }

  function TrimEnd(s: string): (r: string)
    ensures |r| > 0 ==> !IsWhitespace(r[|r| - 1])
    ensures |r| <= |s| && r == s[..|r|]
    decreases |s|
  {
    if |s| > 0 && IsWhitespace(s[|s| - 1]) then TrimEnd(s[..|s| - 1]) else s
  }

  /** `str::trim`. */
  function Trim(s: string): (r: string)
    ensures |r| > 0 ==> !IsWhitespace(r[0]) && !IsWhitespace(r[|r| - 1])
  {
    TrimEnd(TrimStart(s))
  }

  /** `str::replace(c, "")` for a one-character pattern. */
  function RemoveChar(s: string, c: char): (r: string)
    ensures c !in r
    ensures |r| <= |s|
  {
    if |s| == 0 then "" else (if s[0] == c then "" else [s[0]]) + RemoveChar(s[1..], c)
  }

  /** The last `/`-separated segment of a path (`split('/').last()`). */
  function LastSegment(name: string): (r: string)
    ensures !Contains(r, "/")
  {
    var parts := Split(name, "/");
    SplitPiecesFree(name, "/");
    parts[|parts| - 1]
  }

  const I64_MIN: int := -0x8000_0000_0000_0000
  const I64_MAX: int := 0x7FFF_FFFF_FFFF_FFFF

  predicate IsDigit(c: char) {
    '0' <= c <= '9'
  }

  predicate AllDigits(s: string) {
    forall i :: 0 <= i < |s| ==> IsDigit(s[i])
  }

  /** Decimal value of a digit string, most significant digit first. */
  function DigitsValue(s: string): nat
    requires AllDigits(s)
    decreases |s|
  {
    if |s| == 0 then 0 else DigitsValue(s[..|s| - 1]) * 10 + (s[|s| - 1] as int - '0' as int)
  }

  /** `str::parse::<i64>`: an optional `+` or `-`, then one or more ASCII
      digits and nothing else, within the range of `i64`. */
  function ParseI64(s: string): (r: Option<int>)
    ensures r.Some? ==> I64_MIN <= r.value <= I64_MAX
    ensures r.Some? ==> |s| > 0
  {
    var negative := |s| > 0 && s[0] == '-';
    var digits := if |s| > 0 && (s[0] == '-' || s[0] == '+') then s[1..] else s;
    if |digits| == 0 || !AllDigits(digits) then None
    else
      var v: int := if negative then -(DigitsValue(digits) as int) else DigitsValue(digits);
      if I64_MIN <= v <= I64_MAX then Some(v) else None
  }

  function DigitChar(d: nat): char
    requires d < 10
  {
    ('0' as int + d) as char
  }

  /** Integer `Display` for non-negative values. */
  function NatToString(n: nat): string
    decreases n
  {
    if n < 10 then [DigitChar(n)] else NatToString(n / 10) + [DigitChar(n % 10)]
  }

  /** Integer `Display`. */
  function IntToString(i: int): string {
    if i < 0 then "-" + NatToString(-i) else NatToString(i)
  }

  lemma {:induction false} NatToStringDigits(n: nat)
    ensures |NatToString(n)| >= 1 && AllDigits(NatToString(n))
    ensures DigitsValue(NatToString(n)) == n
    decreases n
  {
    if n >= 10 {
      NatToStringDigits(n / 10);
      var s := NatToString(n);
      assert s[..|s| - 1] == NatToString(n / 10);
    }
  }

  /** Parsing the decimal form of any `i64` gives the value back. */
  lemma ParseFormatRoundTrip(i: int)
    requires I64_MIN <= i <= I64_MAX
    ensures ParseI64(IntToString(i)) == Some(i)
  {
    var s := IntToString(i);
    if i < 0 {
      var t := NatToString(-i);
      NatToStringDigits(-i);
      assert s == "-" + t;
      assert s[0] == '-' && s[1..] == t;
      assert DigitsValue(t) == -i;
    } else {
      NatToStringDigits(i);
      assert IsDigit(s[0]);
    }
  }
}
