/** The cache hit/miss table (src/analysis/hitmiss.rs): which rows are
    printed, where the `limit` stops the walk, and the integer totals. */
module HitMiss {
  import opened Wrappers
  import opened Strings
  import opened Tables

  /** Traffic is kept in bytes; the source's megabyte figures are display
      only. */
  datatype HitMissData = HitMissData(points: seq<string>, hit: seq<int>, miss: seq<int>,
                                     trafficHit: seq<int>, trafficMiss: seq<int>)
  datatype HitMissResponse = HitMissResponse(code: int, error: string, data: Option<HitMissData>)

  datatype Row = Row(time: string, hit: int, miss: int, trafficHit: int, trafficMiss: int)

  /** The integer results: the printed rows and the totals over every
      visited row. */
  datatype HitMissTable = HitMissTable(rows: seq<Row>, hitTotal: int, missTotal: int,
                                       trafficHitTotal: int, trafficMissTotal: int)

  const DefaultLimit := 10000

  function ValueAt(s: seq<int>, i: nat): int {
    if i < |s| then s[i] else 0
  }

  function RowAt(d: HitMissData, i: nat): Row
    requires i < |d.points|
  {
    Row(d.points[i], ValueAt(d.hit, i), ValueAt(d.miss, i), ValueAt(d.trafficHit, i), ValueAt(d.trafficMiss, i))
  }

  /** A row is skipped when its time is later than `now` and all four of
      its values are zero. */
  predicate Skipped(d: HitMissData, now: string, i: nat)
    requires i < |d.points|
    ensures Skipped(d, now, i) ==> LexLess(now, d.points[i]) && ValueAt(d.hit, i) + ValueAt(d.miss, i) == 0
  {
    LexLess(now, d.points[i])
    && ValueAt(d.hit, i) == 0 && ValueAt(d.miss, i) == 0
    && ValueAt(d.trafficHit, i) == 0 && ValueAt(d.trafficMiss, i) == 0
  }

  /** Where the walk that starts at row `i` ends: after the first printed
      row `j` with `j + 1 >= limit`, or at the end of the points. */
  function Stop(d: HitMissData, now: string, limit: int, i: nat): (v: nat)
    requires i <= |d.points|
    ensures i <= v <= |d.points|
    ensures i < |d.points| ==> i < v
    decreases |d.points| - i
  {
    if i == |d.points| then i
    else if Skipped(d, now, i) then Stop(d, now, limit, i + 1)
    else if i + 1 >= limit then i + 1
    else Stop(d, now, limit, i + 1)
  }

  /** The rows among the first `k` that are printed. */
  function Printed(d: HitMissData, now: string, k: nat): (rows: seq<Row>)
    requires k <= |d.points|
    ensures |rows| <= k
  {
    if k == 0 then []
    else Printed(d, now, k - 1) + (if Skipped(d, now, k - 1) then [] else [RowAt(d, k - 1)])
  }

  /** The walk ends at the end of the points or right after a printed row
      whose position reaches the limit; every earlier row was either skipped
      or below the limit. */
  lemma {:induction false} StopCharacterization(d: HitMissData, now: string, limit: int, i: nat)
    requires i <= |d.points|
    ensures var v := Stop(d, now, limit, i);
      && (v == |d.points| || (i < v && !Skipped(d, now, v - 1) && v >= limit))
      && forall j :: i <= j < v - 1 ==> Skipped(d, now, j) || j + 1 < limit
    decreases |d.points| - i
  {
    if i < |d.points| && (Skipped(d, now, i) || i + 1 < limit) {
      StopCharacterization(d, now, limit, i + 1);
    }
  }

  /** Every series has a value at each of the first `k` rows. */
  predicate SeriesCover(d: HitMissData, k: nat) {
    k <= |d.hit| && k <= |d.miss| && k <= |d.trafficHit| && k <= |d.trafficMiss|
  }

  /** The integer results after visiting the first `k` rows. */
  function TableAt(d: HitMissData, now: string, k: nat): HitMissTable
    requires k <= |d.points| && SeriesCover(d, k)
  {
    HitMissTable(Printed(d, now, k), Sum(d.hit[..k]), Sum(d.miss[..k]),
                 Sum(d.trafficHit[..k]), Sum(d.trafficMiss[..k]))
  }

  /** Visiting one more row adds its values to the totals and prints it
      unless it is skipped. */
  lemma TableAtStep(d: HitMissData, now: string, i: nat)
    requires i < |d.points| && SeriesCover(d, i + 1)
    ensures var t := TableAt(d, now, i);
      TableAt(d, now, i + 1) ==
        HitMissTable(t.rows + (if Skipped(d, now, i) then [] else [RowAt(d, i)]),
                     t.hitTotal + d.hit[i], t.missTotal + d.miss[i],
                     t.trafficHitTotal + d.trafficHit[i], t.trafficMissTotal + d.trafficMiss[i])
  {
    SumPrefixStep(d.hit, i);
    SumPrefixStep(d.miss, i);
    SumPrefixStep(d.trafficHit, i);
    SumPrefixStep(d.trafficMiss, i);
  }

  /** `print_hitmiss`: a missing value at a visited row panics (`Err`);
      otherwise the printed rows are the unskipped visited rows and the
      totals add up every visited row, skipped or not. */
  method PrintHitMiss(response: HitMissResponse, limit: Option<int>, now: string)
    returns (r: Result<HitMissTable, TableError>)
    ensures response.code != 200 <==> r == Err(ApiError(response.code, response.error))
    ensures response.code == 200 && response.data.None? <==> r == Err(NotFound)
    ensures response.code == 200 && response.data.Some? ==>
      var d := response.data.value;
      var v := Stop(d, now, limit.GetOr(DefaultLimit), 0);
      && (r == Err(SeriesTooShort) <==> !SeriesCover(d, v))
      && (r.Ok? ==>
            && SeriesCover(d, v)
            && r.value.rows == Printed(d, now, v)
            && r.value.hitTotal == Sum(d.hit[..v])
            && r.value.missTotal == Sum(d.miss[..v])
            && r.value.trafficHitTotal == Sum(d.trafficHit[..v])
            && r.value.trafficMissTotal == Sum(d.trafficMiss[..v]))
  {
    if response.code != 200 {
      return Err(ApiError(response.code, response.error));
    }
    if response.data.None? {
      return Err(NotFound);
    }
    r := WalkRows(response.data.value, limit.GetOr(DefaultLimit), now);
  }

  /** The row loop of `print_hitmiss`. */
  method WalkRows(d: HitMissData, lim: int, now: string) returns (r: Result<HitMissTable, TableError>)
    ensures var v := Stop(d, now, lim, 0);
      && (r.Err? <==> !SeriesCover(d, v))
      && (r.Err? ==> r.error == SeriesTooShort)
      && (r.Ok? ==> SeriesCover(d, v) && r.value == TableAt(d, now, v))
  {
    var t := HitMissTable([], 0, 0, 0, 0);
    var i := 0;
    while i < |d.points|
      invariant 0 <= i <= |d.points|
      invariant Stop(d, now, lim, i) == Stop(d, now, lim, 0)
      invariant SeriesCover(d, i)
      invariant t == TableAt(d, now, i)
    {
      if i >= |d.trafficHit| || i >= |d.trafficMiss| || i >= |d.hit| || i >= |d.miss| {
        return Err(SeriesTooShort);
      }
      TableAtStep(d, now, i);
      var row := Row(d.points[i], d.hit[i], d.miss[i], d.trafficHit[i], d.trafficMiss[i]);
      var skipped := LexLess(now, d.points[i]) && d.trafficHit[i] == 0 && d.trafficMiss[i] == 0
                     && d.hit[i] == 0 && d.miss[i] == 0;
      assert skipped == Skipped(d, now, i) && row == RowAt(d, i);
      t := HitMissTable(t.rows + (if skipped then [] else [row]),
                        t.hitTotal + d.hit[i], t.missTotal + d.miss[i],
                        t.trafficHitTotal + d.trafficHit[i], t.trafficMissTotal + d.trafficMiss[i]);
      i := i + 1;
      if !skipped && i >= lim {
        break;
      }
    }
    return Ok(t);
  }
}
