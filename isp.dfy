/** Carrier (ISP) analytics (src/analysis/isp.rs): the column order with
    `others` last, the per-carrier request-count table, and the per-key
    traffic and request rankings gathered from one query per region or
    carrier. */
module Isp {
  import opened Wrappers
  import opened Strings
  import opened Sorting
  import opened Tables
  import opened RegionIsp

  const Others: string := "others"

  /** The display order of carrier columns: the keys ascending, except that
      `others`, when present, comes last. */
  predicate OthersLastOrder(cols: seq<string>, keys: set<string>) {
    if Others in keys then
      |cols| > 0 && cols[|cols| - 1] == Others && IsSortedEnumeration(cols[..|cols| - 1], keys - {Others})
    else
      IsSortedEnumeration(cols, keys)
  }

  /** The column order lists every key once. */
  lemma OthersLastEnumerates(cols: seq<string>, keys: set<string>)
    requires OthersLastOrder(cols, keys)
    ensures Distinct(cols) && Elements(cols) == keys
  {
    if Others in keys {
      var init := cols[..|cols| - 1];
      SortedIsDistinct(init);
      assert cols == init + [Others];
      assert Others !in Elements(init);
      forall x ensures x in Elements(cols) <==> x in keys {
        assert x in cols <==> x in init || x == Others;
        assert x in init <==> x in Elements(init);
      }
    } else {
      SortedIsDistinct(cols);
    }
  }

  /** The column order does not depend on the map's iteration order. */
  lemma OthersLastUnique(a: seq<string>, b: seq<string>, keys: set<string>)
    requires OthersLastOrder(a, keys) && OthersLastOrder(b, keys)
    ensures a == b
  {
    if Others in keys {
      SortedEnumerationUnique(a[..|a| - 1], b[..|b| - 1], keys - {Others});
      assert a == a[..|a| - 1] + [Others] && b == b[..|b| - 1] + [Others];
    } else {
      SortedEnumerationUnique(a, b, keys);
    }
  }

  /** `Vec::remove` at the first position holding `x`, found by a scan that
      stops there. */
  method RemoveFirst(s: seq<string>, x: string) returns (r: seq<string>)
    requires x in s
    ensures exists i :: 0 <= i < |s| && s[i] == x && x !in s[..i] && r == s[..i] + s[i + 1..]
  {
    var i := 0;
    while s[i] != x
      invariant 0 <= i < |s| && x in s[i..] && x !in s[..i]
      decreases |s| - i
    {
      assert s[i..] == [s[i]] + s[i + 1..];
      assert s[..i + 1] == s[..i] + [s[i]];
      i := i + 1;
    }
    r := s[..i] + s[i + 1..];
  }

  /** Removing the one occurrence of `x` from a duplicate-free listing
      lists the other elements once each. */
  lemma RemoveFromDistinct(s: seq<string>, i: nat, x: string)
    requires Distinct(s) && i < |s| && s[i] == x
    ensures Distinct(s[..i] + s[i + 1..])
    ensures Elements(s[..i] + s[i + 1..]) == Elements(s) - {x}
  {
    var r := s[..i] + s[i + 1..];
    assert forall k :: 0 <= k < |r| ==> r[k] == if k < i then s[k] else s[k + 1];
    forall y ensures y in Elements(r) <==> y in Elements(s) - {x} {
      if y in Elements(s) - {x} {
        var k :| 0 <= k < |s| && s[k] == y;
        assert k != i;
        if k < i { assert r[k] == y; } else { assert r[k - 1] == y; }
      }
    }
  }

  /** The carrier columns: collect the keys; if `others` is among them,
      take it out, sort the rest and push it back at the end; otherwise
      sort. */
  method OrderIspCodes(keys: set<string>) returns (cols: seq<string>)
    ensures OthersLastOrder(cols, keys)
  {
    var ispCodes := EnumerateKeys(keys);
    if Others in ispCodes {
      var removed := RemoveFirst(ispCodes, Others);
      var i :| 0 <= i < |ispCodes| && ispCodes[i] == Others && Others !in ispCodes[..i]
        && removed == ispCodes[..i] + ispCodes[i + 1..];
      RemoveFromDistinct(ispCodes, i, Others);
      SortEnumerates(removed, keys - {Others});
      cols := Sort(removed, LexLeq) + [Others];
      assert cols[..|cols| - 1] == Sort(removed, LexLeq);
    } else {
      assert Others !in keys by {
        assert Others in Elements(ispCodes) ==> Others in ispCodes;
      }
      cols := Sort(ispCodes, LexLeq);
      SortEnumerates(ispCodes, keys);
    }
  }

  datatype IspCountData = IspCountData(points: seq<string>, ispReq: map<string, seq<int>>)
  datatype IspCountResponse = IspCountResponse(code: int, error: string, data: Option<IspCountData>)

  /** The columns in display order and the integer results of the rows. */
  datatype Table = Table(columns: seq<string>, totals: Totals)

  const DefaultLimit := 10000

  /** The integer content of `print_isp_count`: the same aggregation as the
      status-code table, over carrier columns with `others` last. */
  method PrintIspCount(response: IspCountResponse, limit: Option<int>) returns (r: Result<Table, TableError>)
    ensures response.code != 200 <==> r == Err(ApiError(response.code, response.error))
    ensures response.code == 200 && response.data.None? <==> r == Err(NotFound)
    ensures response.code == 200 && response.data.Some? ==>
      var d := response.data.value;
      var k := RowsShown(|d.points|, limit.GetOr(DefaultLimit));
      && (r == Err(SeriesTooShort) <==> ShortSeries(d.ispReq, k))
      && (r.Ok? ==> OthersLastOrder(r.value.columns, d.ispReq.Keys)
                    && TotalsAt(r.value.columns, d.ispReq, r.value.totals, k))
  {
    if response.code != 200 {
      return Err(ApiError(response.code, response.error));
    }
    if response.data.None? {
      return Err(NotFound);
    }
    var data := response.data.value;
    var ispCodes := OrderIspCodes(data.ispReq.Keys);
    OthersLastEnumerates(ispCodes, data.ispReq.Keys);
    var rows := RowsShown(|data.points|, limit.GetOr(DefaultLimit));
    ShortSeriesOfColumns(ispCodes, data.ispReq, rows);
    var totals := Aggregate(ispCodes, data.ispReq, |data.points|, limit.GetOr(DefaultLimit));
    if totals.Err? {
      return Err(SeriesTooShort);
    }
    return Ok(Table(ispCodes, totals.value));
  }

  /** The request parameter `regions`: the argument split on commas, which
      joins back to the argument. */
  function RegionsParam(regions: string): (r: seq<string>)
    ensures |r| >= 1 && Join(r, ",") == regions
  {
    JoinSplit(regions, ",");
    Split(regions, ",")
  }

  // ---------------------------------------------------------------------
  // Rankings gathered from one query per region or carrier

  datatype IspTrafficData = IspTrafficData(points: Option<seq<string>>, value: Option<seq<int>>)
  datatype IspTrafficResponse = IspTrafficResponse(code: int, error: string, data: Option<IspTrafficData>)

  /** A query answered with no data, or data with no value series, counts
      as zero traffic; the response code is not consulted. */
  function TrafficTotal(response: IspTrafficResponse): (v: int)
    ensures response.data.None? || response.data.value.value.None? ==> v == 0
  {
    if response.data.Some? && response.data.value.value.Some? then Sum(response.data.value.value.value) else 0
  }

  /** The traffic ranking walks the carriers (keeping the region filter) or
      the regions (keeping the carrier filter), skipping the aggregates. */
  function RankingKeys(ispSort: bool): seq<string> {
    if ispSort then IspCodes else RegionCodeList
  }

  predicate SkippedForTraffic(val: string) {
    val in ["global", "china", "all"]
  }

  /** The (region, carrier) arguments of the query for one key. */
  function TrafficQuery(ispSort: bool, regions: string, isp: string, val: string): (string, string) {
    if ispSort then (regions, val) else (val, isp)
  }

  /** A ranking row: a region or carrier code and its value. */
  type Entry = (string, int)

  function Value(e: Entry): int { e.1 }

  /** Larger values first. */
  function ByValueDescending(a: Entry, b: Entry): bool { a.1 >= b.1 }

  /** The entries of the merged map: one per key whose query answered
      (a query that fails panics its task, so that key is missing). */
  ghost function TrafficEntries(ispSort: bool, regions: string, isp: string,
                                query: ((string, string)) -> Option<IspTrafficResponse>): map<string, int>
  {
    TrafficEntriesOver(RankingKeys(ispSort), ispSort, regions, isp, query)
  }

  ghost function TrafficEntriesOver(keys: seq<string>, ispSort: bool, regions: string, isp: string,
                                    query: ((string, string)) -> Option<IspTrafficResponse>): map<string, int>
  {
    map val | val in keys && !SkippedForTraffic(val)
              && query(TrafficQuery(ispSort, regions, isp, val)).Some?
      :: TrafficTotal(query(TrafficQuery(ispSort, regions, isp, val)).value)
  }

  /** `rows` lists the entries of `m`, each once, largest value first. */
  predicate IsRanking(rows: seq<Entry>, m: map<string, int>) {
    Distinct(rows) && Elements(rows) == m.Items && SortedBy(rows, ByValueDescending)
  }

  /** A ranking has one row per key. */
  lemma RankingKeysOnce(rows: seq<Entry>, m: map<string, int>)
    requires IsRanking(rows, m)
    ensures |rows| == |m.Keys|
    ensures forall i, j :: 0 <= i < j < |rows| ==> rows[i].0 != rows[j].0
    ensures forall i :: 0 <= i < |rows| ==> rows[i].0 in m && m[rows[i].0] == rows[i].1
    ensures forall k :: k in m ==> exists i :: 0 <= i < |rows| && rows[i] == (k, m[k])
  {
    forall i, j | 0 <= i < j < |rows| ensures rows[i].0 != rows[j].0 {
      assert rows[i] in Elements(rows) && rows[j] in Elements(rows);
    }
    forall i | 0 <= i < |rows| ensures rows[i].0 in m && m[rows[i].0] == rows[i].1 {
      assert rows[i] in Elements(rows);
    }
    forall k | k in m ensures exists i :: 0 <= i < |rows| && rows[i] == (k, m[k]) {
      assert (k, m[k]) in m.Items;
      assert (k, m[k]) in Elements(rows);
    }
    KeysOfRows(rows, m);
  }

  lemma KeysOfRows(rows: seq<Entry>, m: map<string, int>)
    requires Distinct(rows) && Elements(rows) == m.Items
    ensures |rows| == |m.Keys|
  {
    DistinctCard(rows);
    assert |m.Items| == |m.Keys| by {
      MapItemsCard(m);
    }
  }

  lemma {:induction false} DistinctCard<T>(s: seq<T>)
    requires Distinct(s)
    ensures |Elements(s)| == |s|
    decreases |s|
  {
    if |s| > 0 {
      var init := s[..|s| - 1];
      DistinctCard(init);
      assert Elements(s) == Elements(init) + {s[|s| - 1]};
      assert s[|s| - 1] !in Elements(init);
    }
  }

  lemma {:induction false} MapItemsCard(m: map<string, int>)
    ensures |m.Items| == |m.Keys|
    decreases |m.Keys|
  {
    if m.Keys != {} {
      var k :| k in m.Keys;
      var rest := m - {k};
      MapItemsCard(rest);
      forall e ensures e in m.Items <==> e in rest.Items + {(k, m[k])} {
        assert e in m.Items <==> e.0 in m && m[e.0] == e.1;
        assert e in rest.Items <==> e.0 in rest && rest[e.0] == e.1;
      }
      assert m.Items == rest.Items + {(k, m[k])};
      assert (k, m[k]) !in rest.Items;
      assert m.Keys == rest.Keys + {k};
    }
  }

  /** `data_map.into_iter().collect()`: every entry of the map once, in an
      unspecified order. */
  method CollectEntries(m: map<string, int>) returns (v: seq<Entry>)
    ensures Distinct(v) && Elements(v) == m.Items
  {
    var keys := EnumerateKeys(m.Keys);
    v := seq(|keys|, i requires 0 <= i < |keys| => (keys[i], m[keys[i]]));
    forall e ensures e in Elements(v) <==> e in m.Items {
      if e in m.Items {
        assert e.0 in Elements(keys);
        var i :| 0 <= i < |keys| && keys[i] == e.0;
        assert v[i] == e;
      }
    }
  }

  /** Sort by value, largest first, and take the grand total. */
  method RankEntries(m: map<string, int>) returns (rows: seq<Entry>, total: int)
    ensures IsRanking(rows, m)
    ensures total == SumOf(rows, Value)
  {
    var vec := CollectEntries(m);
    total := SumOf(vec, Value);
    rows := Sort(vec, ByValueDescending);
    assert IsTotalPreorder(ByValueDescending);
    SortSorted(vec, ByValueDescending);
    PermutationKeepsDistinct(vec, rows);
    SumOfPermutation(vec, rows, Value);
    forall e ensures e in rows <==> e in vec {
      assert e in rows <==> e in multiset(rows);
      assert e in vec <==> e in multiset(vec);
    }
  }

  /** `isp_traffic_sort`: one query per carrier (or per region), each
      contributing the sum of its traffic series; the merged entries ranked
      by value, largest first, with the grand total of all entries. */
  method IspTrafficSort(ispSort: bool, regions: string, isp: string,
                        query: ((string, string)) -> Option<IspTrafficResponse>)
    returns (rows: seq<Entry>, total: int)
    ensures IsRanking(rows, TrafficEntries(ispSort, regions, isp, query))
    ensures total == SumOf(rows, Value)
  {
    var dataMap := CollectTraffic(RankingKeys(ispSort), ispSort, regions, isp, query);
    rows, total := RankEntries(dataMap);
  }

  /** The query loop of `isp_traffic_sort` over the given keys. */
  method CollectTraffic(keys: seq<string>, ispSort: bool, regions: string, isp: string,
                        query: ((string, string)) -> Option<IspTrafficResponse>)
    returns (dataMap: map<string, int>)
    ensures dataMap == TrafficEntriesOver(keys, ispSort, regions, isp, query)
  {
    dataMap := map[];
    for i := 0 to |keys|
      invariant forall k :: k in dataMap <==>
        (k in keys[..i] && !SkippedForTraffic(k) && query(TrafficQuery(ispSort, regions, isp, k)).Some?)
      invariant forall k :: k in dataMap ==> dataMap[k] == TrafficTotal(query(TrafficQuery(ispSort, regions, isp, k)).value)
    {
      assert keys[..i + 1] == keys[..i] + [keys[i]];
      var val := keys[i];
      if SkippedForTraffic(val) {
        continue;
      }
      var response := query(TrafficQuery(ispSort, regions, isp, val));
      if response.Some? {
        dataMap := dataMap[val := TrafficTotal(response.value)];
      }
    }
    assert keys[..|keys|] == keys;
  }

  /** Requests of one region: the sum over every carrier's series. The
      source folds over the map in its iteration order; the value is
      stated over the ascending keys, which gives the same sum. */
  function SeriesSum(m: map<string, seq<int>>): string -> int {
    c => if c in m then Sum(m[c]) else 0
  }

  ghost function AllSeriesTotal(m: map<string, seq<int>>): int {
    SumOf(AscendingKeys(m.Keys), SeriesSum(m))
  }

  /** The fold over the carrier series, in the map's iteration order. */
  method SumAllSeries(m: map<string, seq<int>>) returns (acc: int)
    ensures acc == AllSeriesTotal(m)
  {
    var keys := EnumerateKeys(m.Keys);
    acc := 0;
    for i := 0 to |keys|
      invariant acc == SumOf(keys[..i], SeriesSum(m))
    {
      assert keys[..i + 1][..i] == keys[..i];
      acc := acc + Sum(m[keys[i]]);
    }
    assert keys[..|keys|] == keys;
    var ascending := AscendingKeys(m.Keys);
    SortedIsDistinct(ascending);
    DistinctSameElements(keys, ascending);
    SumOfPermutation(keys, ascending, SeriesSum(m));
  }

  predicate SkippedForCount(region: string) {
    region in ["global", "china"]
  }

  /** The entries of the merged map of `isp_count_all_region`. */
  ghost function CountEntries(query: string -> Option<IspCountResponse>): map<string, int> {
    CountEntriesOver(RegionCodeList, query)
  }

  ghost function CountEntriesOver(keys: seq<string>, query: string -> Option<IspCountResponse>): map<string, int> {
    map region | region in keys && !SkippedForCount(region) && query(region).Some?
      :: if query(region).value.data.Some? then AllSeriesTotal(query(region).value.data.value.ispReq) else 0
  }

  /** `isp_count_all_region`: one query per region except `global` and
      `china`, each contributing its requests over all carriers (zero when
      the query has no data); ranked by value, largest first, with the
      grand total. */
  method IspCountAllRegion(query: string -> Option<IspCountResponse>) returns (rows: seq<Entry>, total: int)
    ensures IsRanking(rows, CountEntries(query))
    ensures total == SumOf(rows, Value)
  {
    var dataMap := CollectCounts(RegionCodeList, query);
    rows, total := RankEntries(dataMap);
  }

  /** The query loop of `isp_count_all_region` over the given regions. */
  method CollectCounts(keys: seq<string>, query: string -> Option<IspCountResponse>) returns (dataMap: map<string, int>)
    ensures dataMap == CountEntriesOver(keys, query)
  {
    dataMap := map[];
    for i := 0 to |keys|
      invariant forall k :: k in dataMap <==> k in keys[..i] && !SkippedForCount(k) && query(k).Some?
      invariant forall k :: k in dataMap ==>
        dataMap[k] == if query(k).value.data.Some? then AllSeriesTotal(query(k).value.data.value.ispReq) else 0
    {
      assert keys[..i + 1] == keys[..i] + [keys[i]];
      var region := keys[i];
      if SkippedForCount(region) {
        continue;
      }
      var response := query(region);
      if response.Some? {
        var t := 0;
        if response.value.data.Some? {
          t := SumAllSeries(response.value.data.value.ispReq);
        }
        dataMap := dataMap[region := t];
      }
    }
    assert keys[..|keys|] == keys;
  }
}
