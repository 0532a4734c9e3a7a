/** Two helpers of src/utils/mod.rs: `max_length`, the column width of a
    printed table, and `get_domains`, the domain list a command runs over. */
module Utils {
  import opened Wrappers
  import opened Strings

  // ---------------------------------------------------------------------
  // max_length
  // ---------------------------------------------------------------------

  /** The number of bytes of a character in UTF-8. */
  function Utf8Width(c: char): (w: nat)
    ensures 1 <= w <= 4
  {
    if c as int < 0x80 then 1
    else if c as int < 0x800 then 2
    else if c as int < 0x10000 then 3
    else 4
  }

  /** `String::len`: the length in UTF-8 bytes. */
  function ByteLen(s: string): (n: nat)
    ensures |s| <= n <= 4 * |s|
  {
    if |s| == 0 then 0 else ByteLen(s[..|s| - 1]) + Utf8Width(s[|s| - 1])
  }

  const I32_MIN: int := -0x8000_0000
  const I32_MAX: int := 0x7FFF_FFFF

  /** `limit as usize` on a 64-bit target: a negative `i32` wraps to a
      value above any list length. */
  function AsUsize(limit: int): (n: nat)
    requires I32_MIN <= limit <= I32_MAX
    ensures limit >= 0 ==> n == limit
    ensures limit < 0 ==> n >= 0x1_0000_0000_0000_0000 - 0x8000_0000
  {
    if limit >= 0 then limit else 0x1_0000_0000_0000_0000 + limit
  }

  /** How many items `take(limit as usize)` yields. */
  function Taken(n: nat, limit: int): (k: nat)
    requires I32_MIN <= limit <= I32_MAX
    ensures k <= n
    ensures 0 <= limit ==> k == if n < limit then n else limit
  {
    var m := AsUsize(limit);
    if n < m then n else m
  }

  /** The greatest byte length of the items, 0 for none. */
  function MaxByteLen(items: seq<string>): (m: nat)
    ensures forall i :: 0 <= i < |items| ==> ByteLen(items[i]) <= m
  {
    if |items| == 0 then 0
    else
      var init := items[..|items| - 1];
      var prev := MaxByteLen(init);
      var last := ByteLen(items[|items| - 1]);
      assert forall i :: 0 <= i < |init| ==> init[i] == items[i];
      if prev < last then last else prev
  }

  /** The width is that of one of the items (0 for none), so it is the
      least bound of them all. */
  lemma {:induction false} MaxByteLenAttained(items: seq<string>)
    ensures |items| == 0 ==> MaxByteLen(items) == 0
    ensures |items| > 0 ==> exists i :: 0 <= i < |items| && MaxByteLen(items) == ByteLen(items[i])
    decreases |items|
  {
    if |items| > 0 {
      var init := items[..|items| - 1];
      MaxByteLenAttained(init);
      if 0 < |init| && ByteLen(items[|items| - 1]) <= MaxByteLen(init) {
        var i :| 0 <= i < |init| && MaxByteLen(init) == ByteLen(init[i]);
        assert init[i] == items[i];
      }
    }
  }

  /** `max_length`: the width of the first `limit` items only. */
  method MaxLength(items: seq<string>, limit: int) returns (length: nat)
    requires I32_MIN <= limit <= I32_MAX
    ensures length == MaxByteLen(items[..Taken(|items|, limit)])
  {
    var k := Taken(|items|, limit);
    length := 0;
    var i := 0;
    while i < k
      invariant 0 <= i <= k
      invariant length == MaxByteLen(items[..i])
    {
      assert items[..i + 1][..i] == items[..i];
      assert items[..i + 1][i] == items[i];
      var n := ByteLen(items[i]);
      if length < n {
        length := n;
      }
      i := i + 1;
    }
  }

  /** A negative limit wraps around and takes every item of any list a
      `Vec` can hold (at most `isize::MAX` items). */
  lemma NegativeLimitTakesAll(n: nat, limit: int)
    requires I32_MIN <= limit < 0
    requires n <= 0x7FFF_FFFF_FFFF_FFFF
    ensures Taken(n, limit) == n
  {
  }

  // ---------------------------------------------------------------------
  // get_domains
  // ---------------------------------------------------------------------

  /** The entries of `list` that are not in `excluded`, in order. */
  function Excluding(list: seq<string>, excluded: seq<string>): (r: seq<string>)
    ensures |r| <= |list|
  {
    if |list| == 0 then []
    else
      var init := list[..|list| - 1];
      var last := list[|list| - 1];
      assert list == init + [last];
      Excluding(init, excluded) + (if last in excluded then [] else [last])
  }

  /** Each excluded name is dropped every time it occurs; every other name
      is kept as often as it occurs. */
  lemma {:induction false} ExcludingCounts(list: seq<string>, excluded: seq<string>)
    ensures forall d :: multiset(Excluding(list, excluded))[d] == if d in excluded then 0 else multiset(list)[d]
    decreases |list|
  {
    if |list| > 0 {
      var init := list[..|list| - 1];
      var last := list[|list| - 1];
      ExcludingCounts(init, excluded);
      assert list == init + [last];
      assert multiset(list) == multiset(init) + multiset{last};
    }
  }

  /** With nothing to exclude in the list, the list is kept as it is. */
  lemma {:induction false} ExcludingNothing(list: seq<string>, excluded: seq<string>)
    requires forall d :: d in list ==> d !in excluded
    ensures Excluding(list, excluded) == list
    decreases |list|
  {
    if |list| > 0 {
      var init := list[..|list| - 1];
      var last := list[|list| - 1];
      assert forall d :: d in init ==> d in list;
      assert last in list;
      ExcludingNothing(init, excluded);
      assert last !in excluded;
      assert Excluding(list, excluded) == Excluding(init, excluded) + [last];
      assert list == init + [last];
    }
  }

  /** The exclusion list of `get_domains`: the option split on `,`, where an
      absent option is the empty string. */
  function ExclusionList(exclude: Option<string>): (r: seq<string>)
    ensures exclude.None? ==> r == [""]
  {
    var text := exclude.GetOr("");
    if text == "" then
      assert !Contains(text, ",");
      Split(text, ",")
    else Split(text, ",")
  }

  /** Without an exclusion list only empty entries are dropped. */
  lemma AbsentExclusionDropsEmpty(list: seq<string>)
    ensures forall d :: d in Excluding(list, ExclusionList(None)) <==> d in list && d != ""
  {
    ExcludingCounts(list, ExclusionList(None));
    forall d
      ensures d in Excluding(list, ExclusionList(None)) <==> d in list && d != ""
    {
      assert d in Excluding(list, ExclusionList(None)) <==> d in multiset(Excluding(list, ExclusionList(None)));
      assert d in list <==> d in multiset(list);
    }
  }

  /** The push loop shared by both branches of `get_domains`. */
  method KeepIncluded(list: seq<string>, excluded: seq<string>) returns (res: seq<string>)
    ensures res == Excluding(list, excluded)
  {
    res := [];
    var i := 0;
    while i < |list|
      invariant 0 <= i <= |list|
      invariant res == Excluding(list[..i], excluded)
    {
      assert list[..i + 1][..i] == list[..i];
      if list[i] !in excluded {
        res := res + [list[i]];
      }
      i := i + 1;
    }
    assert list[..i] == list;
  }

  /** `get_domains`: the explicit comma-separated list, or else the
      account's domain names (`accountDomains`, the domain-list query), each
      without the excluded entries. */
  method GetDomains(exclude: Option<string>, domains: Option<string>, accountDomains: Result<seq<string>, string>)
    returns (r: Result<seq<string>, string>)
    ensures domains.Some? ==> r == Ok(Excluding(Split(domains.value, ","), ExclusionList(exclude)))
    ensures domains.None? && accountDomains.Err? ==> r == Err(accountDomains.error)
    ensures domains.None? && accountDomains.Ok? ==> r == Ok(Excluding(accountDomains.value, ExclusionList(exclude)))
  {
    var excluded := ExclusionList(exclude);
    if domains.Some? {
      var res := KeepIncluded(Split(domains.value, ","), excluded);
      return Ok(res);
    }
    if accountDomains.Err? {
      return Err(accountDomains.error);
    }
    var res := KeepIncluded(accountDomains.value, excluded);
    return Ok(res);
  }
}
