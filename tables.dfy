/** Integer bookkeeping shared by the analytics tables: how many rows a
    `limit` lets through, sums of series, and the per-column aggregation that
    `print_status` (src/analysis/status.rs) and `print_isp_count`
    (src/analysis/isp.rs) perform with identical loops. */
module Tables {
  import opened Wrappers
  import opened Sorting

  /** Rows visited by a loop over `n` rows that stops right after row `i`
      when `i + 1 >= limit`. */
  function RowsShown(n: nat, limit: int): (k: nat)
    ensures k <= n
    ensures n > 0 ==> k >= 1
    ensures n > 0 && limit >= 1 ==> k == if n < limit then n else limit
    ensures n > 0 && limit <= 1 ==> k == 1
  {
    if n == 0 then 0 else if limit <= 1 then 1 else if n < limit then n else limit
  }

  function Sum(s: seq<int>): int
    decreases |s|
  {
    if |s| == 0 then 0 else Sum(s[..|s| - 1]) + s[|s| - 1]
  }

  lemma SumAppend(s: seq<int>, x: int)
    ensures Sum(s + [x]) == Sum(s) + x
  {
    assert (s + [x])[..|s|] == s;
  }

  /** A sum over a prefix extended by one element. */
  lemma SumPrefixStep(s: seq<int>, i: nat)
    requires i < |s|
    ensures Sum(s[..i + 1]) == Sum(s[..i]) + s[i]
  {
    assert s[..i + 1][..i] == s[..i];
  }

  /** Sum of the non-negative entries is non-negative. */
  lemma {:induction false} SumNonNegative(s: seq<int>)
    requires forall i :: 0 <= i < |s| ==> s[i] >= 0
    ensures Sum(s) >= 0
    decreases |s|
  {
    if |s| > 0 {
      SumNonNegative(s[..|s| - 1]);
    }
  }

  /** The series of every column, long enough for row `i`. */
  predicate HasRow(cols: seq<string>, series: map<string, seq<int>>, i: nat) {
    forall j :: 0 <= j < |cols| ==> cols[j] in series && i < |series[cols[j]]|
  }

  /** Sum across the columns of their value at row `i`. */
  function RowSum(cols: seq<string>, series: map<string, seq<int>>, i: nat): int
    requires HasRow(cols, series, i)
    decreases |cols|
  {
    if |cols| == 0 then 0
    else RowSum(cols[..|cols| - 1], series, i) + series[cols[|cols| - 1]][i]
  }

  /** Sum across the columns of their first `k` values. */
  function ColumnSums(cols: seq<string>, series: map<string, seq<int>>, k: nat): int
    requires forall j :: 0 <= j < |cols| ==> cols[j] in series && k <= |series[cols[j]]|
    decreases |cols|
  {
    if |cols| == 0 then 0
    else ColumnSums(cols[..|cols| - 1], series, k) + Sum(series[cols[|cols| - 1]][..k])
  }

  lemma {:induction false} ColumnSumsEmpty(cols: seq<string>, series: map<string, seq<int>>)
    requires forall j :: 0 <= j < |cols| ==> cols[j] in series
    ensures ColumnSums(cols, series, 0) == 0
    decreases |cols|
  {
    if |cols| > 0 {
      ColumnSumsEmpty(cols[..|cols| - 1], series);
    }
  }

  /** Adding a row to every column adds that row's sum to the column sums. */
  lemma {:induction false} ColumnSumsStep(cols: seq<string>, series: map<string, seq<int>>, k: nat)
    requires HasRow(cols, series, k)
    ensures ColumnSums(cols, series, k + 1) == ColumnSums(cols, series, k) + RowSum(cols, series, k)
    decreases |cols|
  {
    if |cols| > 0 {
      var init := cols[..|cols| - 1];
      ColumnSumsStep(init, series, k);
      SumPrefixStep(series[cols[|cols| - 1]], k);
    }
  }

  /** The integer results of one table: the visited rows' sums across
      columns, each column's total over the visited rows (`status_map`),
      and the grand total. */
  datatype Totals = Totals(rowSums: seq<int>, columnTotals: map<string, int>, total: int)

  /** A table fails (the source panics on `get(i).unwrap()`) exactly when
      some column's series is shorter than the rows visited. */
  predicate SeriesShort(cols: seq<string>, series: map<string, seq<int>>, visited: nat) {
    exists j :: 0 <= j < |cols| && cols[j] in series && |series[cols[j]]| < visited
  }

  predicate LongEnough(cols: seq<string>, series: map<string, seq<int>>, k: nat) {
    forall j :: 0 <= j < |cols| ==> cols[j] in series && k <= |series[cols[j]]|
  }

  /** Sum across the columns of one row, as the first inner loop does; fails
      when some column has no value at that row. */
  method SumRow(cols: seq<string>, series: map<string, seq<int>>, i: nat) returns (r: Option<int>)
    requires forall j :: 0 <= j < |cols| ==> cols[j] in series
    ensures r.Some? <==> HasRow(cols, series, i)
    ensures r.Some? ==> r.value == RowSum(cols, series, i)
  {
    var acc := 0;
    var j := 0;
    while j < |cols|
      invariant 0 <= j <= |cols|
      invariant HasRow(cols[..j], series, i)
      invariant acc == RowSum(cols[..j], series, i)
    {
      if i >= |series[cols[j]]| {
        return None;
      }
      assert cols[..j + 1][..j] == cols[..j];
      acc := acc + series[cols[j]][i];
      j := j + 1;
    }
    assert cols[..j] == cols;
    return Some(acc);
  }

  /** `t` holds the results of the first `k` rows: their sums across the
      columns, every column's running total and the grand total. */
  predicate TotalsAt(cols: seq<string>, series: map<string, seq<int>>, t: Totals, k: nat) {
    && LongEnough(cols, series, k)
    && |t.rowSums| == k
    && (forall i :: 0 <= i < k ==> HasRow(cols, series, i) && t.rowSums[i] == RowSum(cols, series, i))
    && t.total == Sum(t.rowSums) == ColumnSums(cols, series, k)
    && (k > 0 ==> forall j :: 0 <= j < |cols| ==> cols[j] in t.columnTotals && t.columnTotals[cols[j]] == Sum(series[cols[j]][..k]))
    && (k == 0 ==> t.columnTotals == map[])
    && (forall c :: c in t.columnTotals ==> c in cols)
  }

  /** One row of the table: fails when a column has no value at row `k`,
      otherwise adds the row to the totals. */
  method AddTableRow(cols: seq<string>, series: map<string, seq<int>>, t: Totals, k: nat)
    returns (r: Option<Totals>)
    requires Distinct(cols) && forall j :: 0 <= j < |cols| ==> cols[j] in series
    requires TotalsAt(cols, series, t, k)
    ensures r.None? <==> !HasRow(cols, series, k)
    ensures r.Some? ==> TotalsAt(cols, series, r.value, k + 1)
  {
    var timeTotal := SumRow(cols, series, k);
    if timeTotal.None? {
      return None;
    }
    ColumnSumsStep(cols, series, k);
    SumAppend(t.rowSums, timeTotal.value);
    var statusMap := AddRow(cols, series, k, t.columnTotals);
    return Some(Totals(t.rowSums + [timeTotal.value], statusMap, t.total + timeTotal.value));
  }

  /** The per-column loop of the tables: walks the visited rows, adding each
      row's values to the grand total and to the column's running total. */
  method Aggregate(cols: seq<string>, series: map<string, seq<int>>, n: nat, limit: int)
    returns (r: Result<Totals, string>)
    requires Distinct(cols) && forall j :: 0 <= j < |cols| ==> cols[j] in series
    ensures r.Err? <==> SeriesShort(cols, series, RowsShown(n, limit))
    ensures r.Ok? ==> TotalsAt(cols, series, r.value, RowsShown(n, limit))
  {
    var visited := RowsShown(n, limit);
    ColumnSumsEmpty(cols, series);
    var t := Totals([], map[], 0);
    var i := 0;
    while i < n
      invariant 0 <= i <= visited
      invariant TotalsAt(cols, series, t, i)
      invariant i < n ==> i == 0 || i < limit
      decreases n - i
    {
      var next := AddTableRow(cols, series, t, i);
      if next.None? {
        return Err("series shorter than the rows");
      }
      t := next.value;
      i := i + 1;
      if i >= limit {
        break;
      }
    }
    return Ok(t);
  }

  /** The second inner loop: every column's running total gains its value
      at row `i` (a missing column starts from that value). */
  method AddRow(cols: seq<string>, series: map<string, seq<int>>, i: nat, statusMap: map<string, int>)
    returns (m: map<string, int>)
    requires Distinct(cols) && HasRow(cols, series, i)
    requires i > 0 ==> forall j :: 0 <= j < |cols| ==> cols[j] in statusMap && statusMap[cols[j]] == Sum(series[cols[j]][..i])
    requires i == 0 ==> statusMap == map[]
    requires forall c :: c in statusMap ==> c in cols
    ensures forall j :: 0 <= j < |cols| ==> cols[j] in m && m[cols[j]] == Sum(series[cols[j]][..i + 1])
    ensures forall c :: c in m ==> c in cols
  {
    m := statusMap;
    var j := 0;
    while j < |cols|
      invariant 0 <= j <= |cols|
      invariant forall k :: 0 <= k < j ==> cols[k] in m && m[cols[k]] == Sum(series[cols[k]][..i + 1])
      invariant forall k :: j <= k < |cols| ==> (cols[k] in m <==> cols[k] in statusMap) && (cols[k] in m ==> m[cols[k]] == statusMap[cols[k]])
      invariant forall c :: c in m ==> c in cols
    {
      var c := cols[j];
      assert forall k :: 0 <= k < |cols| && k != j ==> cols[k] != c;
      SumPrefixStep(series[c], i);
      if c in m {
        m := m[c := m[c] + series[c][i]];
      } else {
        assert i == 0;
        assert series[c][..1] == [series[c][0]];
        m := m[c := series[c][i]];
      }
      j := j + 1;
    }
  }

  /** The running totals of the columns add up to the grand total, so the
      percentages of the totals row sum to one hundred. */
  lemma {:induction false} ColumnTotalsAddUp(cols: seq<string>, series: map<string, seq<int>>, k: nat, totals: map<string, int>)
    requires LongEnough(cols, series, k)
    requires forall j :: 0 <= j < |cols| ==> cols[j] in totals && totals[cols[j]] == Sum(series[cols[j]][..k])
    ensures SumOver(cols, totals) == ColumnSums(cols, series, k)
    decreases |cols|
  {
    if |cols| > 0 {
      ColumnTotalsAddUp(cols[..|cols| - 1], series, k, totals);
    }
  }

  /** Sum of a map's values over the listed keys. */
  function SumOver(keys: seq<string>, m: map<string, int>): int
    requires forall j :: 0 <= j < |keys| ==> keys[j] in m
    decreases |keys|
  {
    if |keys| == 0 then 0 else SumOver(keys[..|keys| - 1], m) + m[keys[|keys| - 1]]
  }

  /** Sum of `f` over a sequence, in sequence order. */
  function SumOf<T>(s: seq<T>, f: T -> int): int
    decreases |s|
  {
    if |s| == 0 then 0 else SumOf(s[..|s| - 1], f) + f(s[|s| - 1])
  }

  lemma {:induction false} SumOfConcat<T>(a: seq<T>, b: seq<T>, f: T -> int)
    ensures SumOf(a + b, f) == SumOf(a, f) + SumOf(b, f)
    decreases |b|
  {
    if |b| == 0 {
      assert a + b == a;
    } else {
      var init := b[..|b| - 1];
      SumOfConcat(a, init, f);
      assert (a + b)[..|a + b| - 1] == a + init;
    }
  }

  /** Taking one term out of a sequence. */
  lemma SumOfPrefixStep<T>(s: seq<T>, i: nat, f: T -> int)
    requires i < |s|
    ensures SumOf(s[..i + 1], f) == SumOf(s[..i], f) + f(s[i])
  {
    assert s[..i + 1][..i] == s[..i];
  }

  lemma RemoveTerm<T>(b: seq<T>, k: nat, f: T -> int)
    requires k < |b|
    ensures multiset(b[..k] + b[k + 1..]) == multiset(b) - multiset{b[k]}
    ensures SumOf(b, f) == SumOf(b[..k] + b[k + 1..], f) + f(b[k])
  {
    var x := b[k];
    var before, after := b[..k], b[k + 1..];
    assert b == before + ([x] + after);
    RemoveTermCount(before, x, after);
    RemoveTermSum(before, x, after, f);
  }

  lemma RemoveTermCount<T>(before: seq<T>, x: T, after: seq<T>)
    ensures multiset(before + after) == multiset(before + ([x] + after)) - multiset{x}
  {
    assert multiset(before + ([x] + after)) == multiset(before) + (multiset{x} + multiset(after));
  }

  lemma RemoveTermSum<T>(before: seq<T>, x: T, after: seq<T>, f: T -> int)
    ensures SumOf(before + ([x] + after), f) == SumOf(before + after, f) + f(x)
  {
    SumOfConcat(before, [x] + after, f);
    SumOfConcat([x], after, f);
    SumOfConcat(before, after, f);
    assert SumOf([x], f) == f(x) by {
      assert [x][..0] == [];
    }
  }

  /** A sum does not depend on the order of its terms, so a total taken
      over entries in the map's iteration order equals the total in any
      other order. */
  lemma {:induction false} SumOfPermutation<T>(a: seq<T>, b: seq<T>, f: T -> int)
    requires multiset(a) == multiset(b)
    ensures SumOf(a, f) == SumOf(b, f)
    decreases |a|
  {
    if |a| > 0 {
      var init := a[..|a| - 1];
      var x := a[|a| - 1];
      assert a == init + [x];
      assert multiset(init) == multiset(a) - multiset{x};
      assert x in multiset(b);
      var k :| 0 <= k < |b| && b[k] == x;
      RemoveTerm(b, k, f);
      SumOfPermutation(init, b[..k] + b[k + 1..], f);
    }
  }

  /** Why a table could not be produced: a fatal API error, the
      not-found message, or a panic on a series too short for the rows. */
  datatype TableError = ApiError(code: int, error: string) | NotFound | SeriesTooShort

  /** Some series of the response has fewer than `k` values. */
  predicate ShortSeries(series: map<string, seq<int>>, k: nat) {
    exists c :: c in series && |series[c]| < k
  }

  lemma ShortSeriesOfColumns(cols: seq<string>, series: map<string, seq<int>>, k: nat)
    requires Elements(cols) == series.Keys
    ensures SeriesShort(cols, series, k) <==> ShortSeries(series, k)
  {
    if ShortSeries(series, k) {
      var c :| c in series && |series[c]| < k;
      assert c in Elements(cols);
      var j :| 0 <= j < |cols| && cols[j] == c;
    }
  }

  /** The Total row adds up to the grand total: every column has a running
      total and they sum to `total`, so the Percent row sums to 100%. */
  lemma TotalsConsistent(cols: seq<string>, series: map<string, seq<int>>, t: Totals, k: nat)
    requires TotalsAt(cols, series, t, k) && k > 0
    ensures forall c :: c in cols ==> c in t.columnTotals
    ensures SumOver(cols, t.columnTotals) == t.total
  {
    ColumnTotalsAddUp(cols, series, k, t.columnTotals);
  }
}
