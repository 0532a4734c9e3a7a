/** Stable sorting and key enumeration, standing in for `Vec::sort`,
    `Vec::sort_by` and `HashMap::keys().collect()`. The iteration order of a
    `HashMap` is unspecified; the model enumerates a key set in an arbitrary
    order and states every result independently of that order. */
module Sorting {
  import opened Strings

  ghost predicate IsTotalPreorder<T(!new)>(le: (T, T) -> bool) {
    && (forall a, b :: le(a, b) || le(b, a))
    && (forall a, b, c :: le(a, b) && le(b, c) ==> le(a, c))
  }

  predicate SortedBy<T>(s: seq<T>, le: (T, T) -> bool) {
    forall i, j :: 0 <= i < j < |s| ==> le(s[i], s[j])
  }

  predicate Distinct<T(==)>(s: seq<T>) {
    forall i, j :: 0 <= i < j < |s| ==> s[i] != s[j]
  }

  /** Insert `x` before the first element it may precede. */
  function Insert<T>(x: T, s: seq<T>, le: (T, T) -> bool): (r: seq<T>)
    ensures multiset(r) == multiset(s) + multiset{x}
  {
    if |s| == 0 then [x]
    else if le(x, s[0]) then [x] + s
    else
      assert s == [s[0]] + s[1..];
      [s[0]] + Insert(x, s[1..], le)
  }

  /** Insertion sort; stable, as the standard library's sort is. */
  function Sort<T>(s: seq<T>, le: (T, T) -> bool): (r: seq<T>)
    ensures multiset(r) == multiset(s)
  {
    if |s| == 0 then []
    else
      assert s == [s[0]] + s[1..];
      Insert(s[0], Sort(s[1..], le), le)
  }

  lemma {:induction false} InsertSorted<T(!new)>(x: T, s: seq<T>, le: (T, T) -> bool)
    requires IsTotalPreorder(le) && SortedBy(s, le)
    ensures SortedBy(Insert(x, s, le), le)
    decreases |s|
  {
    if |s| > 0 && !le(x, s[0]) {
      var rest := Insert(x, s[1..], le);
      InsertSorted(x, s[1..], le);
      forall y | y in rest ensures le(s[0], y) {
        assert y in multiset(rest);
        assert y == x || y in multiset(s[1..]);
        if y != x {
          var k :| 0 <= k < |s[1..]| && s[1..][k] == y;
          assert s[k + 1] == y;
        }
      }
      assert Insert(x, s, le) == [s[0]] + rest;
    }
  }

  /** Sorting with a total preorder yields a sorted permutation. */
  lemma {:induction false} SortSorted<T(!new)>(s: seq<T>, le: (T, T) -> bool)
    requires IsTotalPreorder(le)
    ensures SortedBy(Sort(s, le), le)
    decreases |s|
  {
    if |s| > 0 {
      SortSorted(s[1..], le);
      InsertSorted(s[0], Sort(s[1..], le), le);
    }
  }

  lemma DistinctMultiplicity<T>(s: seq<T>, x: T)
    requires Distinct(s)
    ensures multiset(s)[x] <= 1
    decreases |s|
  {
    if |s| > 0 {
      assert s == [s[0]] + s[1..];
      DistinctMultiplicity(s[1..], x);
      if s[0] == x {
        assert x !in s[1..];
      }
    }
  }

  /** A permutation of a duplicate-free sequence is duplicate-free. */
  lemma PermutationKeepsDistinct<T>(s: seq<T>, r: seq<T>)
    requires Distinct(s) && multiset(r) == multiset(s)
    ensures Distinct(r)
  {
    forall i, j | 0 <= i < j < |r| ensures r[i] != r[j] {
      DistinctMultiplicity(s, r[i]);
      assert r == r[..j] + r[j..];
      assert r[i] in r[..j] && r[j] in r[j..];
    }
  }

  lemma LexLeqIsTotalPreorder()
    ensures IsTotalPreorder(LexLeq)
  {
    forall a, b ensures LexLeq(a, b) || LexLeq(b, a) {
      LexLeqTotal(a, b);
    }
    forall a, b, c | LexLeq(a, b) && LexLeq(b, c) ensures LexLeq(a, c) {
      LexLeqTransitive(a, b, c);
    }
  }

  /** Strictly ascending in `String` order: sorted and free of duplicates. */
  predicate StrictlySorted(s: seq<string>) {
    forall i, j :: 0 <= i < j < |s| ==> LexLess(s[i], s[j])
  }

  function Elements<T(==)>(s: seq<T>): set<T> {
    set x | x in s
  }

  /** `cols` lists the keys of a map in ascending order, each once. */
  predicate IsSortedEnumeration(cols: seq<string>, keys: set<string>) {
    StrictlySorted(cols) && Elements(cols) == keys
  }

  /** There is only one ascending enumeration of a key set, so the column
      order does not depend on the map's iteration order. */
  lemma {:induction false} SortedEnumerationUnique(a: seq<string>, b: seq<string>, keys: set<string>)
    requires IsSortedEnumeration(a, keys) && IsSortedEnumeration(b, keys)
    ensures a == b
    decreases |a|
  {
    ElementsEmpty(a);
    ElementsEmpty(b);
    if |a| > 0 {
      assert a[0] in keys && b[0] in keys;
      var m :| 0 <= m < |a| && a[m] == b[0];
      var k :| 0 <= k < |b| && b[k] == a[0];
      if m > 0 && k > 0 {
        LexLeqAntisymmetric(a[0], b[0]);
      }
      var rest := keys - {a[0]};
      assert Elements(a[1..]) == rest by {
        assert forall x :: x in a[1..] ==> x != a[0] && x in a;
        assert forall x :: x in a && x != a[0] ==> x in a[1..];
      }
      assert Elements(b[1..]) == rest by {
        assert forall x :: x in b[1..] ==> x != b[0] && x in b;
        assert forall x :: x in b && x != b[0] ==> x in b[1..];
      }
      SortedEnumerationUnique(a[1..], b[1..], rest);
      assert a == [a[0]] + a[1..] && b == [b[0]] + b[1..];
    }
  }

  lemma ElementsEmpty<T>(s: seq<T>)
    ensures Elements(s) == {} <==> |s| == 0
  {
    if |s| > 0 {
      assert s[0] in Elements(s);
    }
  }

  /** `HashMap::keys().collect()`: every key once, in an unspecified order. */
  method EnumerateKeys(keys: set<string>) returns (r: seq<string>)
    ensures Distinct(r) && Elements(r) == keys
  {
    var rest := keys;
    r := [];
    while rest != {}
      invariant Distinct(r)
      invariant Elements(r) !! rest && Elements(r) + rest == keys
      decreases rest
    {
      var k :| k in rest;
      r := r + [k];
      rest := rest - {k};
    }
  }

  /** Sorting a duplicate-free listing of `keys` yields their ascending
      enumeration. */
  lemma SortEnumerates(s: seq<string>, keys: set<string>)
    requires Distinct(s) && Elements(s) == keys
    ensures IsSortedEnumeration(Sort(s, LexLeq), keys)
  {
    var cols := Sort(s, LexLeq);
    LexLeqIsTotalPreorder();
    SortSorted(s, LexLeq);
    PermutationKeepsDistinct(s, cols);
    assert Elements(cols) == Elements(s) by {
      forall x ensures x in cols <==> x in s {
        assert x in cols <==> x in multiset(cols);
        assert x in s <==> x in multiset(s);
      }
    }
  }

  /** Collect the keys and sort them: the ascending enumeration of the keys. */
  method SortedKeys(keys: set<string>) returns (cols: seq<string>)
    ensures IsSortedEnumeration(cols, keys)
  {
    var enumerated := EnumerateKeys(keys);
    cols := Sort(enumerated, LexLeq);
    SortEnumerates(enumerated, keys);
  }

  /** Two duplicate-free listings of the same elements are permutations of
      each other. */
  lemma DistinctSameElements<T>(a: seq<T>, b: seq<T>)
    requires Distinct(a) && Distinct(b) && Elements(a) == Elements(b)
    ensures multiset(a) == multiset(b)
  {
    forall x ensures multiset(a)[x] == multiset(b)[x] {
      DistinctMultiplicity(a, x);
      DistinctMultiplicity(b, x);
      assert x in a <==> x in Elements(a);
      assert x in b <==> x in Elements(b);
    }
  }

  /** A least element of a finite non-empty set of strings. */
  lemma {:induction false} LeastKey(keys: set<string>) returns (m: string)
    requires keys != {}
    ensures m in keys && forall k :: k in keys ==> LexLeq(m, k)
    decreases keys
  {
    var x :| x in keys;
    var rest := keys - {x};
    LexLeqTotal(x, x);
    if rest == {} {
      m := x;
      forall k | k in keys ensures LexLeq(m, k) {
        assert k == x || k in rest;
      }
    } else {
      var least := LeastKey(rest);
      LexLeqTotal(x, least);
      m := if LexLeq(x, least) then x else least;
      forall k | k in keys ensures LexLeq(m, k) {
        if k != x {
          assert k in rest;
          if m == x {
            LexLeqTransitive(x, least, k);
          }
        }
      }
    }
  }

  lemma HasLeast(keys: set<string>)
    requires keys != {}
    ensures exists m :: m in keys && forall k :: k in keys ==> LexLeq(m, k)
  {
    var m := LeastKey(keys);
  }

  /** The keys of a set in ascending `String` order. */
  ghost function AscendingKeys(keys: set<string>): (r: seq<string>)
    ensures IsSortedEnumeration(r, keys)
    decreases keys
  {
    if keys == {} then []
    else
      HasLeast(keys);
      var m :| m in keys && forall k :: k in keys ==> LexLeq(m, k);
      var rest := AscendingKeys(keys - {m});
      var r := [m] + rest;
      forall x ensures x in Elements(r) <==> x in keys {
        assert x in r <==> x == r[0] || x in r[1..];
        assert x in rest <==> x in Elements(rest);
      }
      forall i, j | 0 <= i < j < |r| ensures LexLess(r[i], r[j]) {
        if i == 0 {
          assert r[j] == rest[j - 1] && rest[j - 1] in Elements(rest);
        } else {
          assert r[i] == rest[i - 1] && r[j] == rest[j - 1];
        }
      }
      r
  }

  /** A strictly ascending enumeration lists each key once, and each of
      its entries is a key. */
  lemma SortedIsDistinct(cols: seq<string>)
    requires StrictlySorted(cols)
    ensures Distinct(cols)
  {
  }
}
