/** Top IP / top URL rankings (src/analysis/top.rs): which endpoint is
    queried, and which (name, value) rows are printed under the `limit`. */
module Top {
  import opened Wrappers
  import opened Strings
  import Tables

  datatype FilterType = ReqCount | Traffic

  const TopTrafficPath: string := "/v2/tune/loganalyze/toptraffic"
  const TopCountPath: string := "/v2/tune/loganalyze/topcount"
  const IpSuffix: string := "ip"
  const UrlSuffix: string := "url"

  /** `top_func`: the ranking endpoint of the filter, with the `ip` or
      `url` suffix, on the client's host. */
  function TopEndpoint(host: string, filterType: FilterType, suffix: string): (url: string)
    ensures StartsWith(url, "https://" + host)
    ensures filterType == Traffic ==> url == "https://" + host + TopTrafficPath + suffix
    ensures filterType == ReqCount ==> url == "https://" + host + TopCountPath + suffix
  {
    var prefix := "https://" + host;
    var path := match filterType
      case Traffic => TopTrafficPath
      case ReqCount => TopCountPath;
    assert (prefix + path + suffix)[..|prefix|] == prefix;
    prefix + path + suffix
  }

  function TopIp(host: string, filterType: FilterType): (url: string)
    ensures filterType == Traffic ==> url == "https://" + host + "/v2/tune/loganalyze/toptrafficip"
    ensures filterType == ReqCount ==> url == "https://" + host + "/v2/tune/loganalyze/topcountip"
  {
    TopEndpoint(host, filterType, IpSuffix)
  }

  function TopUrl(host: string, filterType: FilterType): (url: string)
    ensures filterType == Traffic ==> url == "https://" + host + "/v2/tune/loganalyze/toptrafficurl"
    ensures filterType == ReqCount ==> url == "https://" + host + "/v2/tune/loganalyze/topcounturl"
  {
    TopEndpoint(host, filterType, UrlSuffix)
  }

  /** The four rankings use four different endpoints on the same host. */
  lemma EndpointsDistinct(host: string, f1: FilterType, s1: string, f2: FilterType, s2: string)
    requires s1 in {IpSuffix, UrlSuffix} && s2 in {IpSuffix, UrlSuffix}
    requires TopEndpoint(host, f1, s1) == TopEndpoint(host, f2, s2)
    ensures f1 == f2 && s1 == s2
  {
    var l1 := |TopEndpoint(host, f1, s1)|;
    var l2 := |TopEndpoint(host, f2, s2)|;
    assert l1 == 8 + |host| + (if f1 == Traffic then 30 else 28) + |s1|;
    assert l2 == 8 + |host| + (if f2 == Traffic then 30 else 28) + |s2|;
  }

  /** The payload of `TopIpResponse` and `TopUrlResponse`: the ranked
      names (IPs or URLs) and the count and traffic series. */
  datatype TopData = TopData(names: Option<seq<string>>, count: Option<seq<int>>, traffic: Option<seq<int>>)
  datatype TopResponse = TopResponse(code: int, error: string, data: Option<TopData>)

  /** Fatal outcomes: an API error, no data, or a panic on a missing name
      list. */
  datatype TopError = ApiError(code: int, error: string) | NoData | MissingNames

  /** A ranking that is printed, or the non-fatal not-found message. */
  datatype TopOutcome = NothingFound | Rows(rows: seq<(string, int)>)

  const DefaultLimit := 10000

  function Selected(d: TopData, filterType: FilterType): Option<seq<int>> {
    match filterType
    case Traffic => d.traffic
    case ReqCount => d.count
  }

  /** The value printed for row `i`: the series entry, or 0 past its end. */
  function ValueAt(series: seq<int>, i: nat): int {
    if i < |series| then series[i] else 0
  }

  /** The rows of `print_top_ip` / `print_top_url`. Traffic values are kept
      in bytes; the division into megabytes is display only. */
  method TopRows(response: TopResponse, filterType: FilterType, limit: Option<int>)
    returns (r: Result<TopOutcome, TopError>)
    ensures response.code != 200 <==> r == Err(ApiError(response.code, response.error))
    ensures response.code == 200 && response.data.None? <==> r == Err(NoData)
    ensures response.code == 200 && response.data.Some? ==>
      var d := response.data.value;
      var series := Selected(d, filterType);
      && (r == Ok(NothingFound) <==> series.None? || |series.value| == 0)
      && (r == Err(MissingNames) <==> series.Some? && |series.value| > 0 && d.names.None?)
      && (r.Ok? && r.value.Rows? ==>
            var names := d.names.value;
            && |r.value.rows| == Tables.RowsShown(|names|, limit.GetOr(DefaultLimit))
            && forall i :: 0 <= i < |r.value.rows| ==> r.value.rows[i] == (names[i], ValueAt(series.value, i)))
  {
    if response.code != 200 {
      return Err(ApiError(response.code, response.error));
    }
    if response.data.None? {
      return Err(NoData);
    }
    var data := response.data.value;
    var lim := limit.GetOr(DefaultLimit);
    var series := Selected(data, filterType);
    if series.None? || |series.value| == 0 {
      return Ok(NothingFound);
    }
    if data.names.None? {
      return Err(MissingNames);
    }
    var names := data.names.value;
    var rows: seq<(string, int)> := [];
    var i := 0;
    while i < |names|
      invariant 0 <= i <= Tables.RowsShown(|names|, lim)
      invariant i < |names| ==> i == 0 || i < lim
      invariant |rows| == i
      invariant forall k :: 0 <= k < i ==> rows[k] == (names[k], ValueAt(series.value, k))
    {
      rows := rows + [(names[i], ValueAt(series.value, i))];
      i := i + 1;
      if i >= lim {
        break;
      }
    }
    return Ok(Rows(rows));
  }
}
