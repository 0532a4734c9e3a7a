# qiniu-cdn-manager core, modelled in Dafny

This project models the deterministic core of `qiniu-cdn-manager`, a command-line client for the
Qiniu CDN management API. The model covers:

- **Request signing.** The first-version (`QBox`) and second-version (`Qiniu`) canonical strings and
  the `access_key:digest` token shape (`src/utils/token.rs`).
- **Request assembly.** The sign method and host chosen per sub-function, and the
  `Content-Type` / `Authorization` / method logic of `do_request` (`src/lib.rs`).
- **The IP diagnostic policy engine and the IP access-list merge** (`src/domain.rs`). The policy is
  `T|C:days:threshold` clauses joined by `&&` or `||`. Its window, thresholds, and union or
  intersection are modelled, together with `set_ip_acl`'s removal, merge, skip and blank-mode rules.
- **The log pipeline** (`src/log.rs`):
  - the date range and day enumeration;
  - the md5-keyed download cache;
  - the include / `!!`-exclude line filter;
  - `parse_url` and the per-URL counting of `ip_url`;
  - the `download` limit countdown.
- **Helpers.** `max_length`, `get_domains`, the region and carrier name tables, and the `Freq`
  spelling (`src/utils/mod.rs`, `src/utils/region_isp.rs`, `src/analysis/mod.rs`).
- **The integer part of the analytics tables.** This covers:
  - top-IP / top-URL endpoints and rows;
  - status-code and carrier tables, with `others` last;
  - hit/miss totals;
  - the request-count report with its five-minute alert window and marker-file deduplication;
  - the per-region and per-carrier rankings.

The model is organised as one module per concern:

| module | file |
|---|---|
| `Wrappers` | `wrappers.dfy` |
| `Strings` | `strings.dfy` (split / join / search, lexicographic order, integer text) |
| `Sorting` | `sorting.dfy` (insertion sort, key enumeration) |
| `Token` | `token.dfy` |
| `Request` | `request.dfy` |
| `Domain` | `domain.dfy` |
| `Logs` | `logs.dfy` |
| `Utils` | `utils.dfy` |
| `RegionIsp` | `region_isp.dfy` |
| `Freq` | `freq.dfy` |
| `Tables` | `tables.dfy` (the per-column aggregation shared by the status and carrier tables) |
| `Status` | `status.dfy` |
| `Isp` | `isp.dfy` |
| `Top` | `top.dfy` |
| `HitMiss` | `hitmiss.dfy` |
| `Count` | `count.dfy` |

## How the environment is represented

Everything outside the core becomes an explicit parameter:

- HMAC-SHA1 followed by URL-safe base64 is a `Digest` function.
- A parsed URL is an `Option<ParsedUrl>`, where `None` means it does not parse.
- Remote calls are functions from request to result: the top-IP query, the log catalog, the object
  download, the access-list request and the chat robot.
- The `/tmp/qiniu` cache is a map from path to content.
- The alert marker directory is a set of paths.
- The current time is a string.

Loops over a `HashMap` pick the keys in an arbitrary order. Their contracts are stated
independently of that order, and the lemmas prove that the order does not matter. Examples are
`Isp.OthersLastUnique`, `Tables.SumOfPermutation` and `Isp.SumAllSeries`.

`print_err(.., true)`, `unwrap()` on a missing value and `panic!` all end the process. They are
modelled as `Err` results.

## Modelling decisions where the code is followed

- **Log days and objects.** In `multi_day_records` the catalog query and the download run inside
  spawned tasks, and an `unwrap` failure there ends only that task. So a day whose query fails, or an
  object whose download fails, contributes nothing and the call still succeeds
  (`src/log.rs:199-216`, `src/log.rs:246-253`). In `download`, however, a failed object makes the
  whole call fail through `task.await?` (`src/log.rs:101-103`).
- **The cache key.** It is `/tmp/qiniu/{md5}/` plus the last `/`-segment of the object name, not the
  md5 alone (`src/log.rs:130-134`, `src/log.rs:234-238`).
- **Traffic thresholds.** A traffic clause compares against `num * 1024 * 1024`
  (`src/domain.rs:488-489`).
- **Response codes not checked.**
  - `download` does not check the catalog response's `code`.
  - Closing an access list (`close`) does not check the response code of the request it sends
    (`src/domain.rs:332-335`).
- **A negative `max_length` limit.** `limit as usize` wraps a negative limit around, so every item
  is taken (`src/utils/mod.rs:57`, see `Utils.NegativeLimitTakesAll`). In `download`, a limit of 0
  or less takes nothing.
- **A rejection without a message.** When the access-list request answers a code other than 200
  and no `error` field, `set_ip_acl` panics on `response.error.unwrap()` (`src/domain.rs:385`,
  `src/domain.rs:392`). `Domain.Finish` keeps this case as the error `Rejected(code, None)`: it is
  an error either way, and the model does not tell the panic apart from it.
- **Dead code in `set_ip_acl`.** The `ips.is_empty()` check after the split never fires, because
  splitting always yields at least one piece (`src/domain.rs:337-340`).

## Model

| member | source | states |
|---|---|---|
| Request.GetSignMethod | src/lib.rs:52-57 | the second sign method is used exactly for log, refresh and prefetch requests |
| Request.GetHost | src/lib.rs:59-64 | the domain sub-function talks to `api.qiniu.com`, every other one to `fusion.qiniuapi.com` |
| Request.NewClient | src/lib.rs:81-87 | a new client keeps the configured credentials; its host is `api.qiniu.com` for the domain sub-function and `fusion.qiniuapi.com` otherwise, and it signs with the second method exactly for log, refresh and prefetch |
| Request.Lookup | src/lib.rs:112 | a header name is present iff some entry carries it, and the value found is that entry's value |
| Request.LookupInsert | src/lib.rs:114-119 | after inserting a header, its name maps to the new value and every other name keeps its value |
| Request.InsertHeader | src/lib.rs:114-119 | after `HeaderMap::insert` the new entry is present, every entry under that name carries the new value, and every other entry was there before |
| Request.ParseVerb | src/lib.rs:140-145 | the method is accepted as GET, POST or PUT exactly when its upper-cased text is that word; nothing else is accepted |
| Request.PrepareRequest | src/lib.rs:107-156 | the step-by-step header building produces exactly the request of the `Prepare` specification, or its error |
| Request.Prepare | src/lib.rs:107-145 | a built request has the parsed method, an `Authorization` header that starts with the method's prefix, and a body only when non-empty data was given |
| Request.PrepareContentType | src/lib.rs:111-121 | a `Content-Type` the caller supplied is never overwritten; otherwise it is the argument, falling back to `application/json` |
| Request.PrepareAuthorization | src/lib.rs:122-138 | `Authorization` is the method's prefix (`QBox ` / `Qiniu `) followed by a token that begins with the access key and a colon; for the first method it is the v1 token, for the second the v2 token over the settled headers |
| Request.V1IgnoresVerbAndHeaders | src/lib.rs:125-126 | a first-method client sends the same `Authorization` whatever the HTTP method and headers |
| Request.PrepareVerb | src/lib.rs:139-145 | an unsupported-method error happens only for a method other than GET/POST/PUT; a built request always has one of them; once `Content-Type` is settled, a URL that does not parse fails at signing, before the method check |
| Request.InterpretResponse | src/lib.rs:182-195 | a status outside 200..299 is an error carrying the status and the parsed error body, if any; success requires a decodable body, which is returned |
| Token.Sign | src/utils/token.rs:28-33 | the token is the access key, a colon, then the digest of the canonical string under the secret key |
| Token.TokenParts | src/utils/token.rs:28-33 | with a colon-free access key, the text before the token's first colon is the access key |
| Token.V1Body | src/utils/token.rs:57-61 | the v1 body part is non-empty exactly for a non-empty form-urlencoded body, and then it is the body |
| Token.GenerateV1 | src/utils/token.rs:45-63 | v1 signing fails exactly when the URL does not parse; otherwise it signs the v1 canonical string, which ignores method and headers |
| Token.CanonicalV1 | src/utils/token.rs:52-61 | the v1 canonical string is the path and query, a newline, then the signed body part |
| Token.V1Decode | src/utils/token.rs:51-61 | the v1 canonical string's first newline follows the path and `?query`; the text after it is the signed body part |
| Token.QiniuHeadersSpec | src/utils/token.rs:91-99 | a stripped name is collected iff some header is named `X-Qiniu-` plus it, and it keeps the value of the last such header |
| Token.CollectQiniuHeaders | src/utils/token.rs:91-99 | the header loop fails exactly when some `X-Qiniu-` value is not text; otherwise it yields the collected map |
| Token.AppendHeaderLines | src/utils/token.rs:100-106 | the sorted-items loop appends one `name: value` line per stripped name, in ascending name order |
| Token.FixedV2 | src/utils/token.rs:83-90 | the start of the v2 string is the request line, the `Host` line and, iff a content type is given, the `Content-Type` line |
| Token.V2Body | src/utils/token.rs:107-112 | any body is appended unless the content type is exactly `application/octet-stream`; an absent body adds nothing |
| Token.CanonicalV2 | src/utils/token.rs:83-112 | the v2 canonical string ends with a blank line followed by the signed body part |
| Token.V2Token | src/utils/token.rs:74-114 | v2 signing fails exactly when the URL does not parse, has no host, or an `X-Qiniu-` value is not text; a token begins with the access key and a colon |
| Token.GenerateV2 | src/utils/token.rs:74-114 | the imperative v2 builder returns exactly the specified token, or the URL, host or header-text error |
| Token.V2Start | src/utils/token.rs:83-87 | a v2 canonical string begins with the upper-cased method, a space, the path and query, then `\nHost: ` and the host |
| Token.V2Decode | src/utils/token.rs:83-112 | for newline-free fields, the first blank line ends the head, the head splits back into its lines, and the rest is the body part |
| Token.V1Example | src/utils/token.rs:37-43 | the documented v1 example signs its path and a newline, and the token begins with `MY_ACCESS_KEY:` |
| Token.V2Example | src/utils/token.rs:67-73 | the documented v2 example signs `POST`, the path, the `Host` line and a blank line, and the token begins with `MY_ACCESS_KEY:` |
| Freq.FromString | src/analysis/mod.rs:20-31 | `1day`, `1hour` and `5min` read as their frequencies; any other text is an error |
| Freq.ToString | src/analysis/mod.rs:33-41 | every frequency is written as one of the three spellings |
| Freq.RoundTrip | src/analysis/mod.rs:20-41 | reading back the written form of a frequency gives the same frequency, and distinct frequencies are written differently |
| RegionIsp.LookupName | src/utils/region_isp.rs:85-92 | a listed code answers the name at its first position in the code table; an unlisted code answers the fallback |
| RegionIsp.LookupAtIndex | src/utils/region_isp.rs:111-116 | in a duplicate-free code table, a code answers the name at its own index |
| RegionIsp.RegionName | src/utils/region_isp.rs:85-92 | a listed region code answers the region name at its own position in the table, and any other code `未知地区` |
| RegionIsp.IspName | src/utils/region_isp.rs:111-118 | a carrier code at index i answers the carrier name at index i, and any other code `其他` |
| RegionIsp.TablesParallel | src/utils/region_isp.rs:2-109 | the region tables have 38 entries each and the carrier tables 8; the region codes and the carrier codes are each distinct |
| Utils.MaxByteLen | src/utils/mod.rs:57-62 | the width bounds the UTF-8 byte length of every item |
| Utils.MaxByteLenAttained | src/utils/mod.rs:57-62 | the width is 0 for no items and otherwise equals the byte length of one of them, so it is the least bound |
| Utils.MaxLength | src/utils/mod.rs:55-64 | the loop returns the width of exactly the first `limit as usize` items, so later items never matter |
| Utils.NegativeLimitTakesAll | src/utils/mod.rs:57 | a negative `i32` limit, cast to `usize`, takes every item of any vector |
| Utils.Excluding | src/utils/mod.rs:109-114 | the filtered list is no longer than the list |
| Utils.ExcludingCounts | src/utils/mod.rs:109-114 | an excluded name is dropped every time it occurs, and every other name is kept as often as it occurs |
| Utils.ExcludingNothing | src/utils/mod.rs:109-114 | with nothing to exclude, the list is kept unchanged, in order |
| Utils.ExclusionList | src/utils/mod.rs:106-107 | an absent exclusion option becomes the list `[""]` |
| Utils.AbsentExclusionDropsEmpty | src/utils/mod.rs:106-107 | without an exclusion option, exactly the empty entries are dropped |
| Utils.KeepIncluded | src/utils/mod.rs:110-113 | the push loop keeps exactly the entries not in the exclusion list, in order |
| Utils.GetDomains | src/utils/mod.rs:101-125 | an explicit list is split on `,` and filtered; otherwise the account's domains are filtered, and a failed domain query is returned as the error |
| Tables.RowsShown | src/analysis/status.rs:138-140 | a loop that breaks after row i when `i+1 >= limit` visits `min(n, limit)` rows, and always at least the first one |
| Tables.SumRow | src/analysis/status.rs:112-117 | the per-row sum across the columns exists exactly when every column has a value at that row |
| Tables.AddTableRow | src/analysis/status.rs:110-137 | one row fails exactly when a column lacks its value, and otherwise extends the running results to one more row |
| Tables.Aggregate | src/analysis/status.rs:110-141 | the table fails exactly when a column is shorter than the visited rows; otherwise it holds the visited rows' sums, per-column totals and grand total |
| Tables.AddRow | src/analysis/status.rs:118-136 | each column's running total becomes the sum of its first i+1 values, and no other key appears |
| Tables.ColumnTotalsAddUp | src/analysis/status.rs:118-136 | the per-column running totals add up to the sum of every visited value |
| Tables.TotalsConsistent | src/analysis/status.rs:142-157 | the Total row covers every column, and its entries add up to the grand total |
| Tables.SumOfPermutation | src/analysis/isp.rs:466 | a sum taken in any iteration order of a map equals the sum in any other order |
| Status.PrintStatus | src/analysis/status.rs:71-158 | a non-200 code or missing data is fatal; columns are the codes ascending; a short series fails; otherwise the totals of the first `min(n, limit)` rows |
| Top.TopEndpoint | src/analysis/top.rs:69-80 | traffic queries `/v2/tune/loganalyze/toptraffic`, counts `/v2/tune/loganalyze/topcount`, on `https://` plus the host, then the suffix |
| Top.TopIp | src/analysis/top.rs:96-106 | the top-IP endpoint is the ranking path followed by `ip` |
| Top.TopUrl | src/analysis/top.rs:110-120 | the top-URL endpoint is the ranking path followed by `url` |
| Top.EndpointsDistinct | src/analysis/top.rs:69-120 | the four rankings never share an endpoint |
| Top.TopRows | src/analysis/top.rs:132-208 | a non-200 code or missing data is fatal; an absent or empty series only reports not-found; missing names panic; otherwise the first `min(n, limit)` names, each with its value, or 0 past the series' end |
| HitMiss.Stop | src/analysis/hitmiss.rs:107-140 | the walk advances at least one row, and never past the points |
| HitMiss.Skipped | src/analysis/hitmiss.rs:118-125 | a skipped row lies after the current time and has no hits and no misses |
| HitMiss.Printed | src/analysis/hitmiss.rs:118-125 | no more rows are printed than visited |
| HitMiss.StopCharacterization | src/analysis/hitmiss.rs:118-140 | the walk ends at the last point or right after a printed row whose `i+1` reaches the limit; every earlier row was skipped or below the limit |
| HitMiss.TableAtStep | src/analysis/hitmiss.rs:112-125 | visiting a row adds its four values to the totals even when it is skipped, and prints it only when it is not skipped |
| HitMiss.WalkRows | src/analysis/hitmiss.rs:107-141 | the loop fails exactly when a series misses a visited row; otherwise it returns the printed rows and totals up to where the walk stops |
| HitMiss.PrintHitMiss | src/analysis/hitmiss.rs:71-141 | a non-200 code or missing data is fatal; otherwise the totals add every visited row and the printed rows are the unskipped ones |
| Count.RowCounts | src/analysis/count.rs:129-143 | the kept rows are unskipped points with a positive count, in order, never more than the points |
| Count.SkippedPoint | src/analysis/count.rs:131 | a skipped point lies after the current time and has nothing to count, so skipping it changes no sum |
| Count.PrintedTotalSpec | src/analysis/count.rs:134-140 | with limit 0, or a limit of at least the number of points, the total is the sum of all unskipped points; otherwise of the unskipped points among the first `limit` |
| Count.ReturnedIsUnskippedSum | src/analysis/count.rs:141-143 | with non-negative counts, the returned sum of the kept rows is the sum of every unskipped point |
| Count.CountPoints | src/analysis/count.rs:129-144 | the point loop panics exactly when a count is missing; otherwise it yields the printed total and the kept rows |
| Count.AlertWindow | src/analysis/count.rs:156-160 | only the last `min(5, len)` rows are examined |
| Count.MarkerKey | src/analysis/count.rs:162-170 | a marker path holds no space |
| Count.AlertRun | src/analysis/count.rs:160-195 | an alert run never removes a marker |
| Count.AlertRunStep | src/analysis/count.rs:161-193 | a row alerts exactly when its count reaches the warning count and its marker is absent; delivery adds the marker |
| Count.AlertsFresh | src/analysis/count.rs:171-173 | no alert is sent for a marker that already exists |
| Count.MarkersAfter | src/analysis/count.rs:181-193 | the markers afterwards are the old ones plus the keys of the delivered alerts, and nothing else |
| Count.DeliveredOnce | src/analysis/count.rs:160-195 | within one run, a delivered alert's key is never sent again |
| Count.AlertsFromWindow | src/analysis/count.rs:160-170 | every alert carries the marker of a window row whose count reaches the warning count |
| Count.AlertsAtMostOnce | src/analysis/count.rs:160-195 | across runs that share the marker directory, an alert delivered once is never sent again |
| Count.SendAlerts | src/analysis/count.rs:160-195 | the alert loop sends exactly the alerts of the alert-run specification and leaves its marker set |
| Count.PrintCount | src/analysis/count.rs:78-198 | a negative limit is an error; a non-200 code or missing data returns 0; a missing count panics; otherwise the specified total, rows, returned sum and alerts (only for five-minute global data with a robot and no `no_warn`) |
| Count.Report | src/analysis/count.rs:126-197 | an accepted report keeps at most one row per point and never removes a marker; without the alert conditions it sends nothing |
| Count.ReportDomain | src/analysis/count.rs:215-229 | one domain's report panics exactly when a count is missing, and then sends nothing; otherwise it contributes its returned sum and sends exactly the alerts of that domain's report, leaving its marker set |
| Count.ReportOfDomain | src/analysis/count.rs:78-198 | an accepted report with limit 0 returns the domain's contribution and its alerts and markers are those of `DomainAlerts` |
| Count.DomainAlerts | src/analysis/count.rs:149-196 | the alerts of one domain's report with limit 0; nothing for a refused response; markers are never removed |
| Count.DomainAlertsMarkers | src/analysis/count.rs:149-196 | one domain's markers afterwards are the old ones plus its delivered keys, and no alert is sent for an existing marker |
| Count.AlertsThrough | src/analysis/count.rs:209-233 | the domains' alerts in order, the marker set passed from each report to the next, up to the first failure |
| Count.AlertsThroughMarkers | src/analysis/count.rs:209-233 | over the whole run the new markers are the old ones plus every delivered key, and no alert is sent for a marker that existed before |
| Count.AllDomainReqCount | src/analysis/count.rs:200-238 | the grand total succeeds exactly when every domain's query succeeds and no report panics, and is then the sum of the reports' returned sums; the alerts sent and the final markers are those of `AlertsThrough` |
| Isp.OthersLastEnumerates | src/analysis/isp.rs:241-254 | the column order lists every carrier key exactly once |
| Isp.OthersLastUnique | src/analysis/isp.rs:241-254 | the column order does not depend on the map's iteration order |
| Isp.RemoveFirst | src/analysis/isp.rs:243-249 | removes the first occurrence of the value, at a position before which it does not occur, and keeps the rest in order |
| Isp.OrderIspCodes | src/analysis/isp.rs:241-254 | the columns are the keys ascending, with `others` last when present |
| Isp.PrintIspCount | src/analysis/isp.rs:221-318 | a non-200 code or missing data is fatal; columns in `others`-last order; a short series fails; otherwise the totals of the first `min(n, limit)` rows |
| Isp.RegionsParam | src/analysis/isp.rs:108 | the comma-split region list is never empty and joins back to the argument |
| Isp.TrafficTotal | src/analysis/isp.rs:445-450 | a query with no data or no value series counts as zero traffic |
| Isp.RankingKeysOnce | src/analysis/isp.rs:465-467 | a ranking has one row per key, each with that key's value |
| Isp.CollectEntries | src/analysis/isp.rs:465 | the collected vector lists every entry of the map exactly once |
| Isp.RankEntries | src/analysis/isp.rs:465-467 | rows are the map's entries, each once, largest value first, and the total is their sum |
| Isp.CollectTraffic | src/analysis/isp.rs:415-464 | the merged map has one entry per non-aggregate key whose query answered, valued at its traffic sum |
| Isp.IspTrafficSort | src/analysis/isp.rs:403-522 | the ranking of the per-carrier or per-region traffic sums, largest first, with their grand total |
| Isp.SumAllSeries | src/analysis/isp.rs:551-554 | the fold over the carrier series, in the map's iteration order, is the total over all carriers |
| Isp.CollectCounts | src/analysis/isp.rs:533-565 | the merged map has one entry per region except `global` and `china` whose query answered, valued at its requests over all carriers, or 0 without data |
| Isp.IspCountAllRegion | src/analysis/isp.rs:524-605 | the ranking of the per-region request totals, largest first, with their grand total |
| Domain.ClauseStrings | src/domain.rs:409-414 | a policy has at least one clause string |
| Domain.ClausesHaveNoAnd | src/domain.rs:410-414 | no clause string contains `&&` |
| Domain.PolicyMode | src/domain.rs:418-421 | the mode is `or` exactly when splitting the policy on the or-separator gives more than one piece |
| Domain.ParseClause | src/domain.rs:424-444 | an accepted clause has exactly three fields, at least one day, and is a count clause iff its first field is `C` |
| Domain.ParseClauseFields | src/domain.rs:424-437 | three valid fields parse to the clause they spell |
| Domain.ParseClauseText | src/domain.rs:424-444 | every clause with at least one day and `i64` fields reads back from its written form |
| Domain.WindowStart | src/domain.rs:438-441 | the window ends at the day and spans exactly `days` days |
| Domain.Threshold | src/domain.rs:480-493 | a request-count clause compares against `num` as given, a traffic clause against exactly `num` whole megabytes |
| Domain.Kept | src/domain.rs:478-494 | a clause's set is exactly the names whose value reaches the threshold; a kept index with no name panics |
| Domain.EvaluateClause | src/domain.rs:424-495 | a clause that yields a set parsed, its lookup answered 200 with data, and the set selects against its series and threshold |
| Domain.EvaluateClauseOutcomes | src/domain.rs:424-495 | every outcome of one clause: its parse error; a failed request; an API error for a code other than 200; no data; a missing field; an unnamed kept index; and otherwise exactly the kept names |
| Domain.EvaluateAll | src/domain.rs:424-496 | a full evaluation has one set per clause |
| Domain.EvaluateAllSets | src/domain.rs:424-496 | a full evaluation holds each clause's own set, in order |
| Domain.EvaluateAllStops | src/domain.rs:455-470 | no data or an error comes from the first clause that lacks data or fails, after clauses that all found a set |
| Domain.EvaluateLoopStep | src/domain.rs:424-496 | one turn of the clause loop keeps the evaluation of the remaining clauses equal to the whole |
| Domain.EvaluateOne | src/domain.rs:424-495 | one imperative iteration of the clause loop computes the clause's evaluation |
| Domain.SelectIps | src/domain.rs:478-494 | the selection loop computes the clause's kept set |
| Domain.EvaluateClauses | src/domain.rs:424-496 | the clause loop stops at the first error or lack of data, and otherwise collects every clause's set |
| Domain.AppendParts | src/domain.rs:411-413 | the inner push loop appends one piece's parts in order |
| Domain.PolicyClauses | src/domain.rs:409-414 | the nested split loop yields exactly the clause strings |
| Domain.UnionAll | src/domain.rs:501-506 | an IP is in the union iff it is in some clause set |
| Domain.InAll | src/domain.rs:507-520 | an IP is in the intersection iff there is a set and it is in every one |
| Domain.OccurrencesMeaning | src/domain.rs:508-520 | an IP is counted at all iff it is in some set, and counted once per set iff it is in every set |
| Domain.UnionSets | src/domain.rs:501-506 | the or-mode loop computes the union |
| Domain.CountSet | src/domain.rs:509-514 | the inner counting loop adds one to the counter of each IP of the set |
| Domain.CountedTimes | src/domain.rs:515-520 | the final loop selects the IPs whose counter equals the number of sets |
| Domain.CountsSelectInAll | src/domain.rs:507-520 | counters equal to the number of sets select exactly the IPs in every set |
| Domain.IntersectByCount | src/domain.rs:507-520 | the and-mode counter algorithm computes the intersection |
| Domain.DiagnoseIp | src/domain.rs:399-523 | a missing policy and more than two clauses are errors; a clause error is returned; no data gives the empty set; otherwise the union or intersection of the clause sets |
| Domain.PartsCharacterized | src/domain.rs:345-346 | removals are exactly the `d`-prefixed entries and additions the others |
| Domain.PartitionComplete | src/domain.rs:345-346 | removals and additions together hold every entry as often as the input |
| Domain.Merge | src/domain.rs:354-363 | the merged list keeps the additions in front and adds each online IP not listed or removed with `d`, once |
| Domain.MergeOnline | src/domain.rs:354-363 | the merge loop computes the merged list |
| Domain.AnyNew | src/domain.rs:365-371 | the scan finds a new IP iff some listed IP is not online |
| Domain.NothingNewIsSkipped | src/domain.rs:364-375 | when the types match and every addition is online, the list holds only online IPs, and it lacks exactly the online IPs removed with `d` |
| Domain.Finish | src/domain.rs:383-395 | the call succeeds iff the request succeeds with no code or code 200, and then it returns the count sent |
| Domain.SetIpAcl | src/domain.rs:301-397 | exactly one of black/white/close, or an error; black/white need IPs; close sends an empty blank list and returns 0; the append mode skips an unchanged list, refuses removals on a mismatched type, and sends Blank for an empty list |
| Logs.CacheKey | src/log.rs:130-134 | the cache path lies under `/tmp/qiniu/` and the object's md5 directory |
| Logs.LastSegmentIdempotent | src/log.rs:134 | taking the last segment twice is the same as taking it once |
| Logs.CacheKeyInjective | src/log.rs:234-238 | objects share a cache path only when they have the same md5 and the same last name segment |
| Logs.LoadAllKeeps | src/log.rs:234-254 | cached content is never replaced, and only the objects' keys are added |
| Logs.LoadAll | src/log.rs:226-270 | objects load in order, each cached one read from the cache and each other one downloaded once; failures are counted among the downloads |
| Logs.LoadAllFetchesMisses | src/log.rs:239-249 | only objects missing from the cache are downloaded, at most one download per object |
| Logs.LoadAllWarm | src/log.rs:239-240 | with every object cached, nothing is downloaded and the cache is unchanged |
| Logs.LoadAllFills | src/log.rs:246-253 | when every download succeeds, every object ends up cached |
| Logs.SecondRunFetchesNothing | src/log.rs:234-254 | a second run over the same objects downloads nothing |
| Logs.LoadObject | src/log.rs:234-260 | one object's cache read, or download and cache write, is the first step of the load |
| Logs.LoadObjects | src/log.rs:226-270 | the sequential load of all objects computes the specified records, cache and downloads |
| Logs.DayCount | src/log.rs:180-188 | start after end is an error; more than 30 days is an error; otherwise 1 to 30 days ending at `end` |
| Logs.Days | src/log.rs:190-191 | the enumeration lists exactly the days from `start`, one per day |
| Logs.Catalogued | src/log.rs:189-222 | an object is collected iff some day's catalog lists it for the domain |
| Logs.CollectListed | src/log.rs:189-222 | the per-day catalog loop collects exactly the `Catalogued` objects of the range, day by day |
| Logs.MultiDayRecords | src/log.rs:174-271 | a bad range is returned without any query; otherwise the records of every object listed on every day of the range, through the cache |
| Logs.TakeCount | src/log.rs:73-79 | a limit of 0 or less takes nothing; otherwise `min(n, limit)` objects |
| Logs.TakeObjects | src/log.rs:73-79 | the countdown loop takes exactly the first `TakeCount` objects, in list order |
| Logs.Download | src/log.rs:47-111 | a failed catalog request is an error; without a directory or an entry the response is returned; otherwise the limited objects are loaded and any failure fails the call |
| Logs.PassesIff | src/log.rs:377-390 | a record passes iff it contains every plain filter and none of the `!!`-stripped filters |
| Logs.Passes | src/log.rs:377-390 | the filter closure: a passing record contains every plain filter |
| Logs.Matches | src/log.rs:375-394 | no more records match than exist |
| Logs.MatchesCounts | src/log.rs:405-422 | every kept record passes, and each passing record is kept as often as it occurs |
| Logs.CountMatches | src/log.rs:373-395 | the print-mode count is the number of matches |
| Logs.FilterLog | src/log.rs:352-433 | both modes count the same matches; the file mode writes them joined by newlines into `{domain}.{first filter}-{start}-{end}.log`, and panics without a filter |
| Logs.ParseUrl | src/log.rs:344-350 | a record without `"` gives the empty URL |
| Logs.ParseUrlPanics | src/log.rs:344-350 | `parse_url` panics exactly when the record has a quote and the first quoted part has no space, so no second word |
| Logs.ParseUrlOfRequestLine | src/log.rs:344-348 | in `prefix "method url rest" tail` the URL found is `url` |
| Logs.UrlsOf | src/log.rs:291-306 | the collected URLs are never empty strings and number at most the records |
| Logs.UrlsOfStep | src/log.rs:291-306 | each record extends the URLs of the records before it |
| Logs.UrlsOfNoneStays | src/log.rs:291-306 | once a record panics, the whole collection panics |
| Logs.NextUrlsNone | src/log.rs:292-296 | one record panics the collection iff it comes from the IP and its quoted part has no second word |
| Logs.UrlsOfPanics | src/log.rs:292-296 | the collection panics iff some record of the IP has an unparsable quoted part |
| Logs.CountRecord | src/log.rs:292-305 | one loop turn counts the record's URL once more, skips other IPs and empty URLs, and panics where the collection does |
| Logs.CountOneMore | src/log.rs:297-304 | adding one to a URL's counter counts that URL once more |
| Logs.CountUrls | src/log.rs:290-306 | the counting loop panics exactly when the collection does, and otherwise counts each URL as often as it occurs |
| Logs.SumOfMultiplicities | src/log.rs:338 | summing the per-URL counts over the distinct URLs gives the number of URLs |
| Logs.SumCounts | src/log.rs:338 | the printed total is the number of counted URLs |
| Logs.IpUrl | src/log.rs:273-341 | the keys are exactly the non-empty URLs of the IP's records, each counted as often as it occurs, and the total is their number |

## Left out

- HMAC-SHA1 and base64 are a `Digest` parameter. URL parsing is a pre-parsed `ParsedUrl`, and
  serde JSON serialisation is a body string given as input.
- HTTP header-name normalisation is left out. Header names are taken as given, and the `X-Qiniu-`
  match is case-sensitive.
- Concurrency (tokio tasks, channels, the 25-permit semaphore) is modelled sequentially, in list
  order. Across days and objects, the source's order is unspecified.
- gzip decoding and a read error that cuts an object's lines short are left out. An object's
  content is taken to be its decoded lines.
- File I/O is left out: directory creation, copying into the download directory, `unzip`, marker
  files and their creation errors, and cert downloads. The cache and the marker directory are a map
  and a set.
- Date parsing and formatting are left out. Days are integers, and the current time is a string
  compared lexicographically.
- Floating point is left out: megabyte and gigabyte figures, percentages and
  `print_traffic_ratio`. Traffic is kept in bytes. `src/traffic.rs` is not part of this model.
- The column widths and display sort of `ip_url` (`max_length` over the keys, the descending sort
  and `take(limit)`) are display only. The counts and the total are modelled.
- The debug-mode response path of `do_request` and all `println!` output are left out.
- The CLI, configuration loading and the chat robot's HTTP call are left out. The robot is a
  `send` parameter answering whether a message was delivered.
- `refresh.rs`, `prefetch.rs`, `domain_info`, `cert`, `process_diagnostic_ips` and
  `all_domain_diagnostic` are left out. So are the UI helpers `print_err`, `prompt`, `wait_blink`
  and the `clear_*` functions.
- Request.ParseVerb, Token.FixedV2, Token.V2Start and Token.GenerateV2: `to_uppercase` (of the
  method, in the request and in the v2 request line) is modelled on ASCII letters only.
- Count.PrintCount: the `(i + 1) as i32` cast is taken without wrap-around, as are the `i64`
  counts. Both stay far below their limits in practice.
- Utils.MaxLength: `usize` and `i64` overflow are not modelled.
- Logs.TakeCount and Logs.TakeObjects: the `i32` countdown `limit -= 1` is taken without
  overflow. With a limit of `i32::MIN` the first decrement overflows: a debug build panics and a
  release build wraps to `i32::MAX` and takes every object. The model takes nothing.
- Domain.Threshold: the traffic threshold `num * 1024 * 1024` is the exact product. For a `num`
  beyond 2^43 in absolute value the `i64` product overflows: a debug build panics and a release
  build compares against a wrapped threshold. The model does neither.
- Domain.EvaluateClause and Domain.DiagnoseIp: they compare against that exact threshold.
- Tables.Aggregate and Tables.AddTableRow: the `i64` row sums and running totals are unbounded
  integers; their overflow is not modelled.
- HitMiss.WalkRows: the `i64` hit and miss totals are unbounded integers; their overflow is not
  modelled.
- Isp.RankEntries, Isp.CollectTraffic, Isp.SumAllSeries and Isp.CollectCounts: the `i64` sums are
  unbounded integers; their overflow is not modelled.
- Whether the Total (and Percent) rows are printed, which depends on the total being positive
  (`src/analysis/status.rs:142`, `src/analysis/isp.rs:302`, `src/analysis/hitmiss.rs:142`), is
  display only and not modelled.
- Logs.Matches, Logs.UrlsOf, Utils.Excluding, Domain.EvaluateAll and HitMiss.Printed: these carry
  only a size bound in their own contract. What they mean is stated in the lemmas next to them:
  Logs.MatchesCounts, Logs.UrlsOfPanics, Utils.ExcludingCounts, Domain.EvaluateAllSets and
  HitMiss.TableAtStep.
