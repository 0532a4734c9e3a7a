/** Request-count report and alerting (src/analysis/count.rs): which points
    are counted, the printed total under `limit`, the returned sum, and the
    five-minute alert window with its marker-file deduplication. The marker
    directory is a set of paths; the chat robot is a parameter answering
    whether a message was delivered. */
module Count {
  import opened Wrappers
  import opened Strings
  import Freq
  import Tables

  datatype ReqCountData = ReqCountData(points: seq<string>, reqCount: seq<int>)
  datatype ReqCountResponse = ReqCountResponse(code: int, error: string, data: Option<ReqCountData>)

  /** A count row kept for alerting: the count and the point's time. */
  type CountRow = (int, string)

  function CountOf(row: CountRow): int { row.0 }

  const DefaultLimit := 10000
  const DefaultWarnCount := 1000
  const MarkerDir: string := "/tmp/qiniu/monitor/count/"

  function CountAt(d: ReqCountData, i: nat): int {
    if i < |d.reqCount| then d.reqCount[i] else 0
  }

  /** A point later than `now` with a zero count is skipped entirely; it has
      nothing to count, so skipping it changes no sum. */
  predicate SkippedPoint(d: ReqCountData, now: string, i: nat)
    requires i < |d.points|
    ensures SkippedPoint(d, now, i) ==> CountAt(d, i) == 0
  {
    LexLess(now, d.points[i]) && CountAt(d, i) == 0
  }

  /** The unskipped points among the first `k` whose count is positive, in
      order. */
  function RowCounts(d: ReqCountData, now: string, k: nat): (rows: seq<CountRow>)
    requires k <= |d.points|
    ensures |rows| <= k
    ensures forall j :: 0 <= j < |rows| ==> rows[j].0 > 0
  {
    if k == 0 then []
    else
      var i := k - 1;
      RowCounts(d, now, i)
        + (if !SkippedPoint(d, now, i) && CountAt(d, i) > 0 then [(CountAt(d, i), d.points[i])] else [])
  }

  /** The count a point adds to the printed total: its count when it is
      within the first `limit` rows, and its count when `limit` is 0. */
  function TotalContribution(d: ReqCountData, now: string, limit: int, i: nat): int
    requires i < |d.points|
  {
    if SkippedPoint(d, now, i) then 0
    else (if i + 1 <= limit then CountAt(d, i) else 0) + (if limit == 0 then CountAt(d, i) else 0)
  }

  function PrintedTotal(d: ReqCountData, now: string, limit: int, k: nat): int
    requires k <= |d.points|
  {
    if k == 0 then 0 else PrintedTotal(d, now, limit, k - 1) + TotalContribution(d, now, limit, k - 1)
  }

  /** Sum of the counts of the unskipped points among the first `k`. */
  function UnskippedSum(d: ReqCountData, now: string, k: nat): int
    requires k <= |d.points|
  {
    if k == 0 then 0
    else UnskippedSum(d, now, k - 1) + (if SkippedPoint(d, now, k - 1) then 0 else CountAt(d, k - 1))
  }

  /** With `limit == 0`, or a limit no smaller than the number of points,
      the printed total is the sum of every unskipped point; with a limit
      `l` in between it is the sum of the unskipped points among the first
      `l`. */
  lemma {:induction false} PrintedTotalSpec(d: ReqCountData, now: string, limit: int, k: nat)
    requires k <= |d.points| && limit >= 0
    ensures limit == 0 || limit >= k ==> PrintedTotal(d, now, limit, k) == UnskippedSum(d, now, k)
    ensures 0 < limit < k ==> PrintedTotal(d, now, limit, k) == UnskippedSum(d, now, limit)
    decreases k
  {
    if k > 0 {
      PrintedTotalSpec(d, now, limit, k - 1);
      if 0 < limit < k - 1 {
        assert TotalContribution(d, now, limit, k - 1) == 0;
      }
    }
  }

  /** When no count is negative, the returned sum of the kept rows is the
      sum of every unskipped point. */
  lemma {:induction false} ReturnedIsUnskippedSum(d: ReqCountData, now: string, k: nat)
    requires k <= |d.points|
    requires forall i :: 0 <= i < |d.reqCount| ==> d.reqCount[i] >= 0
    ensures Tables.SumOf(RowCounts(d, now, k), CountOf) == UnskippedSum(d, now, k)
    decreases k
  {
    if k > 0 {
      var i := k - 1;
      ReturnedIsUnskippedSum(d, now, i);
      ReturnedStep(d, now, i);
      assert UnskippedSum(d, now, k) == UnskippedSum(d, now, i) + (if SkippedPoint(d, now, i) then 0 else CountAt(d, i));
    }
  }

  lemma ReturnedStep(d: ReqCountData, now: string, i: nat)
    requires i < |d.points|
    requires forall j :: 0 <= j < |d.reqCount| ==> d.reqCount[j] >= 0
    ensures Tables.SumOf(RowCounts(d, now, i + 1), CountOf)
      == Tables.SumOf(RowCounts(d, now, i), CountOf) + (if SkippedPoint(d, now, i) then 0 else CountAt(d, i))
  {
    var extra := if !SkippedPoint(d, now, i) && CountAt(d, i) > 0 then [(CountAt(d, i), d.points[i])] else [];
    assert RowCounts(d, now, i + 1) == RowCounts(d, now, i) + extra;
    Tables.SumOfConcat(RowCounts(d, now, i), extra, CountOf);
    if |extra| == 1 {
      assert extra[..0] == [];
    }
  }

  // ---------------------------------------------------------------------
  // Alerting

  /** The alert conditions that do not depend on the data. */
  datatype AlertConfig = AlertConfig(freq: Freq.Freq, regions: string, noWarn: bool,
                                     robotConfigured: bool, warnCount: Option<int>)

  predicate AlertsEnabled(cfg: AlertConfig) {
    cfg.freq == Freq.FiveMin && cfg.regions == "global" && !cfg.noWarn && cfg.robotConfigured
  }

  /** Only the last five kept rows are examined. */
  function AlertWindow(rows: seq<CountRow>): (w: seq<CountRow>)
    ensures |w| == if |rows| > 5 then 5 else |rows|
    ensures w == rows[|rows| - |w|..]
  {
    if |rows| > 5 then rows[|rows| - 5..] else rows
  }

  /** The marker path of an alert, with every space removed. */
  function MarkerKey(domains: seq<string>, t: string, count: int): (key: string)
    ensures ' ' !in key
  {
    RemoveChar(MarkerDir + Join(domains, ",") + t + IntToString(count), ' ')
  }

  function AlertMessage(domains: seq<string>, t: string, count: int, warnCount: int): string {
    "## \U{1F6A8}七牛CDN流量告警\n\n域名`" + Join(domains, ",") + "`在`" + t
      + "` 5分钟内的请求次数为`" + IntToString(count) + "`次, 超过告警值`"
      + IntToString(warnCount) + "`次，请留意！"
  }

  /** An alert that was sent, and whether the robot delivered it. */
  datatype Attempt = Attempt(key: string, message: string, delivered: bool)

  /** The alerts sent, in order, and the marker set afterwards. */
  datatype AlertResult = AlertResult(attempts: seq<Attempt>, markers: set<string>)

  /** The alert loop over the window: a row alerts when its count reaches
      the warning count and its marker does not exist; a delivered alert
      creates its marker. */
  function AlertRun(window: seq<CountRow>, domains: seq<string>, warnCount: int,
                    markers: set<string>, send: string -> bool): (r: AlertResult)
    ensures markers <= r.markers
    decreases |window|
  {
    if |window| == 0 then AlertResult([], markers)
    else
      var count := window[0].0;
      var t := window[0].1;
      var key := MarkerKey(domains, t, count);
      if count < warnCount || key in markers then AlertRun(window[1..], domains, warnCount, markers, send)
      else
        var message := AlertMessage(domains, t, count, warnCount);
        var delivered := send(message);
        var rest := AlertRun(window[1..], domains, warnCount, if delivered then markers + {key} else markers, send);
        AlertResult([Attempt(key, message, delivered)] + rest.attempts, rest.markers)
  }

  /** The first step of the alert loop. */
  lemma AlertRunStep(window: seq<CountRow>, domains: seq<string>, warnCount: int,
                     markers: set<string>, send: string -> bool)
    requires |window| > 0
    ensures var key := MarkerKey(domains, window[0].1, window[0].0);
      var message := AlertMessage(domains, window[0].1, window[0].0, warnCount);
      var rest := AlertRun(window[1..], domains, warnCount,
                           if window[0].0 >= warnCount && key !in markers && send(message) then markers + {key} else markers, send);
      AlertRun(window, domains, warnCount, markers, send)
        == if window[0].0 < warnCount || key in markers then rest
           else AlertResult([Attempt(key, message, send(message))] + rest.attempts, rest.markers)
  {
  }

  predicate NoneMarked(attempts: seq<Attempt>, markers: set<string>) {
    forall i :: 0 <= i < |attempts| ==> attempts[i].key !in markers
  }

  predicate DeliveredNotRepeated(attempts: seq<Attempt>) {
    forall i, j :: 0 <= i < j < |attempts| && attempts[i].delivered ==> attempts[i].key != attempts[j].key
  }

  predicate Delivered(attempts: seq<Attempt>, key: string) {
    exists i :: 0 <= i < |attempts| && attempts[i].delivered && attempts[i].key == key
  }

  /** The alert's key is the marker of a window row that reaches the
      warning count. */
  predicate FromRow(a: Attempt, window: seq<CountRow>, domains: seq<string>, warnCount: int) {
    exists j :: 0 <= j < |window| && window[j].0 >= warnCount && a.key == MarkerKey(domains, window[j].1, window[j].0)
  }

  predicate FromWindow(attempts: seq<Attempt>, window: seq<CountRow>, domains: seq<string>, warnCount: int) {
    forall i :: 0 <= i < |attempts| ==> FromRow(attempts[i], window, domains, warnCount)
  }

  /** No alert is sent for an existing marker. */
  lemma {:induction false} AlertsFresh(window: seq<CountRow>, domains: seq<string>, warnCount: int,
                                       markers: set<string>, send: string -> bool)
    ensures NoneMarked(AlertRun(window, domains, warnCount, markers, send).attempts, markers)
    decreases |window|
  {
    if |window| > 0 {
      AlertRunStep(window, domains, warnCount, markers, send);
      var key := MarkerKey(domains, window[0].1, window[0].0);
      var delivered := send(AlertMessage(domains, window[0].1, window[0].0, warnCount));
      var inner := if window[0].0 >= warnCount && key !in markers && delivered then markers + {key} else markers;
      AlertsFresh(window[1..], domains, warnCount, inner, send);
    }
  }

  /** The new markers are the old ones plus the keys of the delivered
      alerts. */
  lemma {:induction false} MarkersAfter(window: seq<CountRow>, domains: seq<string>, warnCount: int,
                                        markers: set<string>, send: string -> bool)
    ensures var r := AlertRun(window, domains, warnCount, markers, send);
      forall key :: key in r.markers <==> key in markers || Delivered(r.attempts, key)
    decreases |window|
  {
    if |window| > 0 {
      AlertRunStep(window, domains, warnCount, markers, send);
      var key := MarkerKey(domains, window[0].1, window[0].0);
      var delivered := send(AlertMessage(domains, window[0].1, window[0].0, warnCount));
      var inner := if window[0].0 >= warnCount && key !in markers && delivered then markers + {key} else markers;
      MarkersAfter(window[1..], domains, warnCount, inner, send);
      var rest := AlertRun(window[1..], domains, warnCount, inner, send);
      var r := AlertRun(window, domains, warnCount, markers, send);
      if !(window[0].0 < warnCount || key in markers) {
        var attempt := Attempt(key, AlertMessage(domains, window[0].1, window[0].0, warnCount), delivered);
        assert r.attempts == [attempt] + rest.attempts;
        forall k ensures Delivered(r.attempts, k) <==> (delivered && k == key) || Delivered(rest.attempts, k) {
          DeliveredCons(attempt, rest.attempts, k);
        }
      }
    }
  }

  lemma DeliveredCons(a: Attempt, rest: seq<Attempt>, key: string)
    ensures Delivered([a] + rest, key) <==> (a.delivered && a.key == key) || Delivered(rest, key)
  {
    var all := [a] + rest;
    if Delivered(rest, key) {
      var i :| 0 <= i < |rest| && rest[i].delivered && rest[i].key == key;
      assert all[i + 1] == rest[i];
    }
    if Delivered(all, key) {
      var i :| 0 <= i < |all| && all[i].delivered && all[i].key == key;
      if i > 0 {
        assert rest[i - 1] == all[i];
      }
    }
    if a.delivered && a.key == key {
      assert all[0] == a;
    }
  }

  lemma NotRepeatedCons(a: Attempt, rest: seq<Attempt>, markers: set<string>)
    requires DeliveredNotRepeated(rest) && NoneMarked(rest, markers)
    requires a.delivered ==> a.key in markers
    ensures DeliveredNotRepeated([a] + rest)
  {
    var all := [a] + rest;
    forall i, j | 0 <= i < j < |all| && all[i].delivered
      ensures all[i].key != all[j].key
    {
      assert all[j] == rest[j - 1];
      if i > 0 {
        assert all[i] == rest[i - 1];
      }
    }
  }

  /** A delivered alert's key is never sent again in the same run. */
  lemma {:induction false} DeliveredOnce(window: seq<CountRow>, domains: seq<string>, warnCount: int,
                                         markers: set<string>, send: string -> bool)
    ensures DeliveredNotRepeated(AlertRun(window, domains, warnCount, markers, send).attempts)
    decreases |window|
  {
    if |window| > 0 {
      AlertRunStep(window, domains, warnCount, markers, send);
      var key := MarkerKey(domains, window[0].1, window[0].0);
      var delivered := send(AlertMessage(domains, window[0].1, window[0].0, warnCount));
      var inner := if window[0].0 >= warnCount && key !in markers && delivered then markers + {key} else markers;
      DeliveredOnce(window[1..], domains, warnCount, inner, send);
      AlertsFresh(window[1..], domains, warnCount, inner, send);
      var rest := AlertRun(window[1..], domains, warnCount, inner, send).attempts;
      var attempts := AlertRun(window, domains, warnCount, markers, send).attempts;
      if !(window[0].0 < warnCount || key in markers) {
        var attempt := Attempt(key, AlertMessage(domains, window[0].1, window[0].0, warnCount), delivered);
        assert attempts == [attempt] + rest;
        NotRepeatedCons(attempt, rest, inner);
      }
    }
  }

  /** Every alert comes from a window row whose count reaches the warning
      count. */
  lemma {:induction false} AlertsFromWindow(window: seq<CountRow>, domains: seq<string>, warnCount: int,
                                            markers: set<string>, send: string -> bool)
    ensures FromWindow(AlertRun(window, domains, warnCount, markers, send).attempts, window, domains, warnCount)
    decreases |window|
  {
    if |window| > 0 {
      AlertRunStep(window, domains, warnCount, markers, send);
      var key := MarkerKey(domains, window[0].1, window[0].0);
      var delivered := send(AlertMessage(domains, window[0].1, window[0].0, warnCount));
      var inner := if window[0].0 >= warnCount && key !in markers && delivered then markers + {key} else markers;
      AlertsFromWindow(window[1..], domains, warnCount, inner, send);
      var rest := AlertRun(window[1..], domains, warnCount, inner, send).attempts;
      var attempts := AlertRun(window, domains, warnCount, markers, send).attempts;
      FromWindowTail(rest, window, domains, warnCount);
      if !(window[0].0 < warnCount || key in markers) {
        var attempt := Attempt(key, AlertMessage(domains, window[0].1, window[0].0, warnCount), delivered);
        assert attempts == [attempt] + rest;
        FromWindowCons(attempt, rest, window, domains, warnCount);
      }
    }
  }

  lemma FromWindowTail(attempts: seq<Attempt>, window: seq<CountRow>, domains: seq<string>, warnCount: int)
    requires |window| > 0 && FromWindow(attempts, window[1..], domains, warnCount)
    ensures FromWindow(attempts, window, domains, warnCount)
  {
    forall i | 0 <= i < |attempts|
      ensures FromRow(attempts[i], window, domains, warnCount)
    {
      var j :| 0 <= j < |window[1..]| && window[1..][j].0 >= warnCount
        && attempts[i].key == MarkerKey(domains, window[1..][j].1, window[1..][j].0);
      assert window[j + 1] == window[1..][j];
      assert window[j + 1].0 >= warnCount && attempts[i].key == MarkerKey(domains, window[j + 1].1, window[j + 1].0);
    }
  }

  lemma FromWindowCons(a: Attempt, rest: seq<Attempt>, window: seq<CountRow>, domains: seq<string>, warnCount: int)
    requires |window| > 0 && window[0].0 >= warnCount && a.key == MarkerKey(domains, window[0].1, window[0].0)
    requires FromWindow(rest, window, domains, warnCount)
    ensures FromWindow([a] + rest, window, domains, warnCount)
  {
    var all := [a] + rest;
    assert FromRow(a, window, domains, warnCount) by {
      assert window[0].0 >= warnCount && a.key == MarkerKey(domains, window[0].1, window[0].0);
    }
    assert all[0] == a;
    forall i | 1 <= i < |all|
      ensures FromRow(all[i], window, domains, warnCount)
    {
      assert all[i] == rest[i - 1];
    }
  }

  /** Across runs that pass the marker set on, an alert whose delivery
      created a marker is never sent again. */
  lemma AlertsAtMostOnce(w1: seq<CountRow>, w2: seq<CountRow>, domains: seq<string>, warnCount: int,
                         markers: set<string>, send: string -> bool, key: string)
    requires Delivered(AlertRun(w1, domains, warnCount, markers, send).attempts, key)
    ensures var second := AlertRun(w2, domains, warnCount, AlertRun(w1, domains, warnCount, markers, send).markers, send);
      forall j :: 0 <= j < |second.attempts| ==> second.attempts[j].key != key
  {
    var first := AlertRun(w1, domains, warnCount, markers, send);
    MarkersAfter(w1, domains, warnCount, markers, send);
    AlertsFresh(w2, domains, warnCount, first.markers, send);
  }

  // ---------------------------------------------------------------------
  // The report

  datatype CountError = NegativeLimit | SeriesTooShort

  /** The printed total, the kept rows, the returned sum, the alerts sent
      and the marker set afterwards. */
  datatype CountOutcome = CountOutcome(total: int, rowCounts: seq<CountRow>, returned: int,
                                       attempts: seq<Attempt>, markers: set<string>)

  /** The first loop of `print_count`: walks every point, skipping the
      later zero points, adding to the printed total and keeping the
      positive rows. */
  method CountPoints(d: ReqCountData, now: string, limit: int) returns (r: Option<(int, seq<CountRow>)>)
    ensures r.None? <==> |d.reqCount| < |d.points|
    ensures r.Some? ==> r.value.0 == PrintedTotal(d, now, limit, |d.points|)
                        && r.value.1 == RowCounts(d, now, |d.points|)
  {
    var total := 0;
    var rowCounts: seq<CountRow> := [];
    for i := 0 to |d.points|
      invariant i <= |d.reqCount|
      invariant total == PrintedTotal(d, now, limit, i)
      invariant rowCounts == RowCounts(d, now, i)
    {
      if i >= |d.reqCount| {
        return None;
      }
      var c := d.reqCount[i];
      if LexLess(now, d.points[i]) && c == 0 {
        continue;
      }
      if i + 1 <= limit {
        total := total + c;
      }
      if limit == 0 {
        total := total + c;
      }
      if c > 0 {
        rowCounts := rowCounts + [(c, d.points[i])];
      }
    }
    return Some((total, rowCounts));
  }

  /** The alerts already sent followed by the rest of a run. */
  function Prepend(attempts: seq<Attempt>, r: AlertResult): AlertResult {
    AlertResult(attempts + r.attempts, r.markers)
  }

  /** One step of the alert loop, on what is left of the window. */
  lemma SendStep(window: seq<CountRow>, i: nat, domains: seq<string>, warnCount: int,
                 after: set<string>, send: string -> bool, attempts: seq<Attempt>)
    requires i < |window|
    ensures var key := MarkerKey(domains, window[i].1, window[i].0);
      var message := AlertMessage(domains, window[i].1, window[i].0, warnCount);
      var sent := window[i].0 >= warnCount && key !in after;
      Prepend(attempts, AlertRun(window[i..], domains, warnCount, after, send))
        == Prepend(attempts + (if sent then [Attempt(key, message, send(message))] else []),
                   AlertRun(window[i + 1..], domains, warnCount,
                            if sent && send(message) then after + {key} else after, send))
  {
    var w := window[i..];
    assert w[0] == window[i] && w[1..] == window[i + 1..];
    var key := MarkerKey(domains, window[i].1, window[i].0);
    var message := AlertMessage(domains, window[i].1, window[i].0, warnCount);
    if window[i].0 >= warnCount && key !in after {
      var attempt := Attempt(key, message, send(message));
      var rest := AlertRun(window[i + 1..], domains, warnCount, if send(message) then after + {key} else after, send);
      assert AlertRun(w, domains, warnCount, after, send) == AlertResult([attempt] + rest.attempts, rest.markers);
      assert attempts + ([attempt] + rest.attempts) == (attempts + [attempt]) + rest.attempts;
    } else {
      assert AlertRun(w, domains, warnCount, after, send) == AlertRun(window[i + 1..], domains, warnCount, after, send);
      assert attempts + [] == attempts;
    }
  }

  /** The alert loop: checks each window row against the warning count and
      the marker set, sends, and records delivered markers. */
  method SendAlerts(window: seq<CountRow>, domains: seq<string>, warnCount: int,
                    markers: set<string>, send: string -> bool)
    returns (attempts: seq<Attempt>, after: set<string>)
    ensures AlertResult(attempts, after) == AlertRun(window, domains, warnCount, markers, send)
  {
    attempts := [];
    after := markers;
    assert window[0..] == window;
    for i := 0 to |window|
      invariant AlertRun(window, domains, warnCount, markers, send)
        == Prepend(attempts, AlertRun(window[i..], domains, warnCount, after, send))
    {
      SendStep(window, i, domains, warnCount, after, send, attempts);
      var key := MarkerKey(domains, window[i].1, window[i].0);
      if window[i].0 >= warnCount && key !in after {
        var message := AlertMessage(domains, window[i].1, window[i].0, warnCount);
        var delivered := send(message);
        attempts := attempts + [Attempt(key, message, delivered)];
        if delivered {
          after := after + {key};
        }
      } else {
        assert attempts + [] == attempts;
      }
    }
    assert window[|window|..] == [];
    assert attempts + [] == attempts;
  }

  /** The outcome `print_count` produces for a response it accepts. */
  function Report(d: ReqCountData, now: string, limit: int, cfg: AlertConfig, domains: seq<string>,
                  markers: set<string>, send: string -> bool): (r: CountOutcome)
    ensures |r.rowCounts| <= |d.points| && markers <= r.markers
    ensures !AlertsEnabled(cfg) ==> r.attempts == [] && r.markers == markers
  {
    var rows := RowCounts(d, now, |d.points|);
    var alerts := if AlertsEnabled(cfg) && |rows| > 0
      then AlertRun(AlertWindow(rows), domains, cfg.warnCount.GetOr(DefaultWarnCount), markers, send)
      else AlertResult([], markers);
    CountOutcome(PrintedTotal(d, now, limit, |d.points|), rows, Tables.SumOf(rows, CountOf), alerts.attempts, alerts.markers)
  }

  /** `print_count`. A negative limit is an error; an API error or missing
      data is reported and yields 0; a count missing for a point panics. */
  method PrintCount(response: ReqCountResponse, limit: Option<int>, now: string, cfg: AlertConfig,
                    domains: seq<string>, markers: set<string>, send: string -> bool)
    returns (r: Result<CountOutcome, CountError>)
    ensures limit.GetOr(DefaultLimit) < 0 <==> r == Err(NegativeLimit)
    ensures limit.GetOr(DefaultLimit) >= 0 && (response.code != 200 || response.data.None?) ==>
      r == Ok(CountOutcome(0, [], 0, [], markers))
    ensures limit.GetOr(DefaultLimit) >= 0 && response.code == 200 && response.data.Some? ==>
      var d := response.data.value;
      && (r == Err(SeriesTooShort) <==> |d.reqCount| < |d.points|)
      && (r.Ok? ==> r.value == Report(d, now, limit.GetOr(DefaultLimit), cfg, domains, markers, send))
  {
    var lim := limit.GetOr(DefaultLimit);
    if lim < 0 {
      return Err(NegativeLimit);
    }
    if response.code != 200 || response.data.None? {
      return Ok(CountOutcome(0, [], 0, [], markers));
    }
    var d := response.data.value;
    var counted := CountPoints(d, now, lim);
    if counted.None? {
      return Err(SeriesTooShort);
    }
    var (total, rowCounts) := counted.value;
    var attempts: seq<Attempt> := [];
    var after := markers;
    if AlertsEnabled(cfg) && |rowCounts| > 0 {
      var warnCount := cfg.warnCount.GetOr(DefaultWarnCount);
      var skip := 0;
      if |rowCounts| > 5 {
        skip := |rowCounts| - 5;
      }
      attempts, after := SendAlerts(rowCounts[skip..], domains, warnCount, markers, send);
    }
    var returned := Tables.SumOf(rowCounts, CountOf);
    return Ok(CountOutcome(total, rowCounts, returned, attempts, after));
  }

  /** What one domain adds to the grand total: the returned sum of its
      report, 0 when its query failed or the response is refused. */
  function DomainCount(response: ReqCountResponse, now: string): int {
    if response.code != 200 || response.data.None? then 0
    else
      var d := response.data.value;
      Tables.SumOf(RowCounts(d, now, |d.points|), CountOf)
  }

  /** A report that would panic on a missing count. */
  predicate Panics(response: ReqCountResponse) {
    response.code == 200 && response.data.Some? && |response.data.value.reqCount| < |response.data.value.points|
  }

  function DomainCounts(fetch: string -> Result<ReqCountResponse, string>, now: string): string -> int {
    d => if fetch(d).Ok? then DomainCount(fetch(d).value, now) else 0
  }

  /** The alerts one domain's report sends (with `limit` 0) and the marker
      set afterwards; a refused response sends nothing. */
  function DomainAlerts(response: ReqCountResponse, now: string, cfg: AlertConfig, d: string,
                        markers: set<string>, send: string -> bool): (r: AlertResult)
    ensures markers <= r.markers
  {
    if response.code != 200 || response.data.None? then AlertResult([], markers)
    else
      var o := Report(response.data.value, now, 0, cfg, [d], markers, send);
      AlertResult(o.attempts, o.markers)
  }

  /** The alerts of `all_domain_req_count`: each domain's report in turn,
      with the marker set passed on, up to the first failed query or
      panicking report. */
  function AlertsThrough(domains: seq<string>, fetch: string -> Result<ReqCountResponse, string>,
                         now: string, cfg: AlertConfig, markers: set<string>, send: string -> bool): (r: AlertResult)
    ensures markers <= r.markers
    decreases |domains|
  {
    if |domains| == 0 then AlertResult([], markers)
    else
      var response := fetch(domains[0]);
      if response.Err? || Panics(response.value) then AlertResult([], markers)
      else
        var first := DomainAlerts(response.value, now, cfg, domains[0], markers, send);
        Prepend(first.attempts, AlertsThrough(domains[1..], fetch, now, cfg, first.markers, send))
  }

  /** One domain of the loop, on what is left of the domain list. */
  lemma ThroughStep(domains: seq<string>, i: nat, fetch: string -> Result<ReqCountResponse, string>,
                    now: string, cfg: AlertConfig, after: set<string>, send: string -> bool, attempts: seq<Attempt>)
    requires i < |domains|
    ensures var response := fetch(domains[i]);
      Prepend(attempts, AlertsThrough(domains[i..], fetch, now, cfg, after, send))
        == if response.Err? || Panics(response.value) then AlertResult(attempts, after)
           else
             var first := DomainAlerts(response.value, now, cfg, domains[i], after, send);
             Prepend(attempts + first.attempts, AlertsThrough(domains[i + 1..], fetch, now, cfg, first.markers, send))
  {
    var ds := domains[i..];
    assert ds[0] == domains[i] && ds[1..] == domains[i + 1..];
    assert attempts + [] == attempts;
    var response := fetch(domains[i]);
    if !(response.Err? || Panics(response.value)) {
      var first := DomainAlerts(response.value, now, cfg, domains[i], after, send);
      var rest := AlertsThrough(domains[i + 1..], fetch, now, cfg, first.markers, send);
      assert attempts + (first.attempts + rest.attempts) == (attempts + first.attempts) + rest.attempts;
    }
  }

  /** One domain's report adds the keys of its delivered alerts to the
      markers, and sends no alert for an existing marker. */
  lemma DomainAlertsMarkers(response: ReqCountResponse, now: string, cfg: AlertConfig, d: string,
                            markers: set<string>, send: string -> bool)
    ensures var r := DomainAlerts(response, now, cfg, d, markers, send);
      && NoneMarked(r.attempts, markers)
      && forall key :: key in r.markers <==> key in markers || Delivered(r.attempts, key)
  {
    if response.code == 200 && response.data.Some? {
      var data := response.data.value;
      var rows := RowCounts(data, now, |data.points|);
      if AlertsEnabled(cfg) && |rows| > 0 {
        var window := AlertWindow(rows);
        var warnCount := cfg.warnCount.GetOr(DefaultWarnCount);
        MarkersAfter(window, [d], warnCount, markers, send);
        AlertsFresh(window, [d], warnCount, markers, send);
      }
    }
  }

  lemma DeliveredAppend(a: seq<Attempt>, b: seq<Attempt>, key: string)
    ensures Delivered(a + b, key) <==> Delivered(a, key) || Delivered(b, key)
  {
    var all := a + b;
    if Delivered(a, key) {
      var i :| 0 <= i < |a| && a[i].delivered && a[i].key == key;
      assert all[i] == a[i];
    }
    if Delivered(b, key) {
      var i :| 0 <= i < |b| && b[i].delivered && b[i].key == key;
      assert all[|a| + i] == b[i];
    }
    if Delivered(all, key) {
      var i :| 0 <= i < |all| && all[i].delivered && all[i].key == key;
      if i < |a| {
        assert a[i] == all[i];
      } else {
        assert b[i - |a|] == all[i];
      }
    }
  }

  /** Over all domains, the new markers are the old ones plus the keys of
      the delivered alerts, and no alert is sent for a marker that existed
      before the run. */
  lemma {:induction false} AlertsThroughMarkers(domains: seq<string>, fetch: string -> Result<ReqCountResponse, string>,
                                                now: string, cfg: AlertConfig, markers: set<string>, send: string -> bool)
    ensures var r := AlertsThrough(domains, fetch, now, cfg, markers, send);
      && NoneMarked(r.attempts, markers)
      && forall key :: key in r.markers <==> key in markers || Delivered(r.attempts, key)
    decreases |domains|
  {
    var r := AlertsThrough(domains, fetch, now, cfg, markers, send);
    if |domains| > 0 {
      var response := fetch(domains[0]);
      if !(response.Err? || Panics(response.value)) {
        var first := DomainAlerts(response.value, now, cfg, domains[0], markers, send);
        var rest := AlertsThrough(domains[1..], fetch, now, cfg, first.markers, send);
        AlertsThroughMarkers(domains[1..], fetch, now, cfg, first.markers, send);
        assert r.attempts == first.attempts + rest.attempts && r.markers == rest.markers;
        DomainAlertsMarkers(response.value, now, cfg, domains[0], markers, send);
        forall key
          ensures key in r.markers <==> key in markers || Delivered(r.attempts, key)
        {
          DeliveredAppend(first.attempts, rest.attempts, key);
        }
        forall i | 0 <= i < |r.attempts|
          ensures r.attempts[i].key !in markers
        {
          if i >= |first.attempts| {
            assert r.attempts[i] == rest.attempts[i - |first.attempts|];
          }
        }
      }
    }
  }

  /** `all_domain_req_count`: queries each domain in turn and reports it
      with `limit` 0; a failed query aborts, a panicking report aborts, and
      the grand total is the sum of the reports' returned sums. The alerts
      are those of each domain's report in order, the marker set passed
      from one report to the next. */
  method AllDomainReqCount(domains: seq<string>, fetch: string -> Result<ReqCountResponse, string>,
                           now: string, cfg: AlertConfig, markers: set<string>, send: string -> bool)
    returns (r: Result<int, string>, attempts: seq<Attempt>, after: set<string>)
    ensures r.Ok? <==> forall i :: 0 <= i < |domains| ==> fetch(domains[i]).Ok? && !Panics(fetch(domains[i]).value)
    ensures r.Ok? ==> r.value == Tables.SumOf(domains, DomainCounts(fetch, now))
    ensures AlertResult(attempts, after) == AlertsThrough(domains, fetch, now, cfg, markers, send)
  {
    var total := 0;
    attempts := [];
    after := markers;
    assert domains[0..] == domains;
    for i := 0 to |domains|
      invariant forall k :: 0 <= k < i ==> fetch(domains[k]).Ok? && !Panics(fetch(domains[k]).value)
      invariant total == Tables.SumOf(domains[..i], DomainCounts(fetch, now))
      invariant AlertsThrough(domains, fetch, now, cfg, markers, send)
        == Prepend(attempts, AlertsThrough(domains[i..], fetch, now, cfg, after, send))
    {
      Tables.SumOfPrefixStep(domains, i, DomainCounts(fetch, now));
      ThroughStep(domains, i, fetch, now, cfg, after, send, attempts);
      var d := domains[i];
      var response := fetch(d);
      if response.Err? {
        return Err(response.error), attempts, after;
      }
      var counted, sent, next := ReportDomain(response.value, now, cfg, d, after, send);
      if counted.None? {
        return Err("panic: missing count"), attempts, after;
      }
      total := total + counted.value;
      attempts := attempts + sent;
      after := next;
    }
    assert domains[..|domains|] == domains;
    assert domains[|domains|..] == [];
    assert attempts + [] == attempts;
    return Ok(total), attempts, after;
  }

  /** One domain of `all_domain_req_count`: its report with `limit` 0, the
      count it returns, the alerts it sends and the marker set afterwards. */
  method ReportDomain(response: ReqCountResponse, now: string, cfg: AlertConfig, d: string,
                      markers: set<string>, send: string -> bool)
    returns (count: Option<int>, sent: seq<Attempt>, after: set<string>)
    ensures count.None? <==> Panics(response)
    ensures count.None? ==> sent == [] && after == markers
    ensures count.Some? ==> count.value == DomainCount(response, now)
                            && AlertResult(sent, after) == DomainAlerts(response, now, cfg, d, markers, send)
  {
    var outcome := PrintCount(response, Some(0), now, cfg, [d], markers, send);
    assert Some(0).GetOr(DefaultLimit) == 0;
    if outcome.Err? {
      assert outcome.error == SeriesTooShort;
      return None, [], markers;
    }
    ReportOfDomain(outcome, response, now, cfg, d, markers, send);
    return Some(outcome.value.returned), outcome.value.attempts, outcome.value.markers;
  }

  /** An accepted report with `limit` 0 returns the domain's count and
      sends the domain's alerts. */
  lemma ReportOfDomain(outcome: Result<CountOutcome, CountError>, response: ReqCountResponse, now: string,
                       cfg: AlertConfig, d: string, markers: set<string>, send: string -> bool)
    requires outcome.Ok?
    requires response.code != 200 || response.data.None? ==> outcome == Ok(CountOutcome(0, [], 0, [], markers))
    requires response.code == 200 && response.data.Some? ==>
      outcome.value == Report(response.data.value, now, 0, cfg, [d], markers, send)
    ensures outcome.value.returned == DomainCount(response, now)
    ensures AlertResult(outcome.value.attempts, outcome.value.markers) == DomainAlerts(response, now, cfg, d, markers, send)
  {
  }
}
