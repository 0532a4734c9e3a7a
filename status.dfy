/** The status-code table (src/analysis/status.rs): one column per status
    code, in ascending order, with per-row sums, per-code totals and a
    grand total over the rows the `limit` lets through. */
module Status {
  import opened Wrappers
  import opened Sorting
  import opened Tables

  datatype StatusData = StatusData(points: seq<string>, codes: map<string, seq<int>>)
  datatype StatusResponse = StatusResponse(code: int, error: string, data: Option<StatusData>)

  /** The columns in display order and the integer results of the rows. */
  datatype Table = Table(columns: seq<string>, totals: Totals)

  const DefaultLimit := 10000

  /** The integer content of `print_status`. */
  method PrintStatus(response: StatusResponse, limit: Option<int>) returns (r: Result<Table, TableError>)
    ensures response.code != 200 <==> r == Err(ApiError(response.code, response.error))
    ensures response.code == 200 && response.data.None? <==> r == Err(NotFound)
    ensures response.code == 200 && response.data.Some? ==>
      var d := response.data.value;
      var k := RowsShown(|d.points|, limit.GetOr(DefaultLimit));
      && (r == Err(SeriesTooShort) <==> ShortSeries(d.codes, k))
      && (r.Ok? ==> IsSortedEnumeration(r.value.columns, d.codes.Keys)
                    && TotalsAt(r.value.columns, d.codes, r.value.totals, k))
  {
    if response.code != 200 {
      return Err(ApiError(response.code, response.error));
    }
    if response.data.None? {
      return Err(NotFound);
    }
    var data := response.data.value;
    var statusCodes := SortedKeys(data.codes.Keys);
    SortedIsDistinct(statusCodes);
    var rows := RowsShown(|data.points|, limit.GetOr(DefaultLimit));
    ShortSeriesOfColumns(statusCodes, data.codes, rows);
    var totals := Aggregate(statusCodes, data.codes, |data.points|, limit.GetOr(DefaultLimit));
    if totals.Err? {
      return Err(SeriesTooShort);
    }
    return Ok(Table(statusCodes, totals.value));
  }
}
