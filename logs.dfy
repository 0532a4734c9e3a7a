/** The log commands of src/log.rs: the day-by-day collection of a domain's
    access-log records through a content-addressed cache, the line filter of
    `filter_log`, the per-URL request count of `ip_url`, and the object
    limit of `download`.

    The spawned tasks run one after another here, days in ascending order and
    objects in catalog order; the source fixes no order across tasks. An
    object's content stands for its gzip-decoded lines: decoding, downloading
    and file access are parameters (`Fetch`) or a map (`Store`, the directory
    `/tmp/qiniu`). Dates are day numbers. */
module Logs {
  import opened Wrappers
  import opened Strings
  import opened Sorting
  import Tables

  /** One catalog entry of `/v2/tune/log/list`. */
  datatype LogData = LogData(name: string, size: int, mtime: int, url: string, md5: string)
  datatype LogResponse = LogResponse(code: Option<int>, error: string, data: Option<map<string, seq<LogData>>>)

  /** The decoded lines of one log object. */
  type Content = seq<string>
  /** The cache directory: file path to stored content. */
  type Store = map<string, Content>
  /** A download of a URL; `None` when it fails. */
  type Fetch = string -> Option<Content>
  /** The catalog query for one day. */
  type Catalog = int -> Result<LogResponse, string>

  datatype LogError = StartAfterEnd | RangeTooLong | RequestFailed(message: string) | DownloadFailed | NoFilter

  const MaxDays := 30
  const CacheRoot := "/tmp/qiniu/"
  const DefaultDownloadLimit := 1000

  // ---------------------------------------------------------------------
  // Cache
  // ---------------------------------------------------------------------

  /** Where an object is cached: its md5 directory and the last segment of
      its name. */
  function CacheKey(md5: string, name: string): (key: string)
    ensures StartsWith(key, CacheRoot + md5 + "/")
  {
    CacheRoot + md5 + "/" + LastSegment(name)
  }

  lemma SlashFree(s: string)
    requires !Contains(s, "/")
    ensures '/' !in s
  {
  }

  /** The last segment of a last segment is itself, so `download_with_url`,
      which is handed the last segment as its file name, uses the same key. */
  lemma LastSegmentIdempotent(name: string)
    ensures LastSegment(LastSegment(name)) == LastSegment(name)
  {
    SlashFree(LastSegment(name));
    SplitAbsent(LastSegment(name), '/');
  }

  /** Distinct md5 directories give distinct keys, and within one directory
      the key names the last segment. */
  lemma CacheKeyInjective(md5a: string, namea: string, md5b: string, nameb: string)
    requires '/' !in md5a && '/' !in md5b
    requires CacheKey(md5a, namea) == CacheKey(md5b, nameb)
    ensures md5a == md5b && LastSegment(namea) == LastSegment(nameb)
  {
    var a := md5a + "/" + LastSegment(namea);
    var b := md5b + "/" + LastSegment(nameb);
    assert CacheKey(md5a, namea) == CacheRoot + a;
    assert CacheKey(md5b, nameb) == CacheRoot + b;
    assert a == CacheKey(md5a, namea)[|CacheRoot|..];
    assert b == CacheKey(md5b, nameb)[|CacheRoot|..];
    assert a == b;
    FirstSlash(md5a, LastSegment(namea));
    FirstSlash(md5b, LastSegment(nameb));
    assert |md5a| == |md5b|;
    assert md5a == a[..|md5a|] && md5b == b[..|md5b|];
    assert LastSegment(namea) == a[|md5a| + 1..];
    assert LastSegment(nameb) == b[|md5b| + 1..];
  }

  /** In `x/y` with a slash-free `x`, the first slash is at `|x|`. */
  lemma FirstSlash(x: string, y: string)
    requires '/' !in x
    ensures (x + "/" + y)[|x|] == '/'
    ensures forall i :: 0 <= i < |x| ==> (x + "/" + y)[i] != '/'
  {
    assert forall i :: 0 <= i < |x| ==> (x + "/" + y)[i] == x[i];
  }

  /** The result of loading a run of objects: their records, the cache
      afterwards, the URLs downloaded, and how many downloads failed. */
  datatype Loaded = Loaded(records: seq<string>, store: Store, fetched: seq<string>, failures: nat)

  /** Objects loaded in order: a cached object is read from the cache, any
      other one is downloaded and cached. A failed download adds nothing. */
  function LoadAll(objs: seq<LogData>, store: Store, fetch: Fetch): (r: Loaded)
    ensures |r.fetched| <= |objs|
    ensures r.failures <= |r.fetched|
    decreases |objs|
  {
    if |objs| == 0 then Loaded([], store, [], 0)
    else
      var o := objs[0];
      var key := CacheKey(o.md5, o.name);
      if key in store then
        var rest := LoadAll(objs[1..], store, fetch);
        Loaded(store[key] + rest.records, rest.store, rest.fetched, rest.failures)
      else
        match fetch(o.url)
        case None =>
          var rest := LoadAll(objs[1..], store, fetch);
          Loaded(rest.records, rest.store, [o.url] + rest.fetched, rest.failures + 1)
        case Some(c) =>
          var rest := LoadAll(objs[1..], store[key := c], fetch);
          Loaded(c + rest.records, rest.store, [o.url] + rest.fetched, rest.failures)
  }

  /** A loaded run followed by the load of the remaining objects. */
  function Then(done: Loaded, rest: Loaded): Loaded {
    Loaded(done.records + rest.records, rest.store, done.fetched + rest.fetched, done.failures + rest.failures)
  }

  /** Cached content is never replaced, and only the objects' keys are added. */
  lemma {:induction false} LoadAllKeeps(objs: seq<LogData>, store: Store, fetch: Fetch)
    ensures forall k :: k in store ==> k in LoadAll(objs, store, fetch).store && LoadAll(objs, store, fetch).store[k] == store[k]
    ensures forall k :: k in LoadAll(objs, store, fetch).store ==>
      k in store || exists o :: o in objs && k == CacheKey(o.md5, o.name)
    decreases |objs|
  {
    if |objs| > 0 {
      var o := objs[0];
      var key := CacheKey(o.md5, o.name);
      assert forall x :: x in objs[1..] ==> x in objs;
      if key in store || fetch(o.url).None? {
        LoadAllKeeps(objs[1..], store, fetch);
      } else {
        LoadAllKeeps(objs[1..], store[key := fetch(o.url).value], fetch);
      }
    }
  }

  /** Only objects missing from the cache are downloaded. */
  lemma {:induction false} LoadAllFetchesMisses(objs: seq<LogData>, store: Store, fetch: Fetch)
    ensures |LoadAll(objs, store, fetch).fetched| <= |objs|
    ensures forall u :: u in LoadAll(objs, store, fetch).fetched ==>
      exists o :: o in objs && o.url == u && CacheKey(o.md5, o.name) !in store
    decreases |objs|
  {
    if |objs| > 0 {
      var o := objs[0];
      var key := CacheKey(o.md5, o.name);
      assert forall x :: x in objs[1..] ==> x in objs;
      if key in store || fetch(o.url).None? {
        LoadAllFetchesMisses(objs[1..], store, fetch);
      } else {
        var s2 := store[key := fetch(o.url).value];
        LoadAllFetchesMisses(objs[1..], s2, fetch);
        forall u | u in LoadAll(objs[1..], s2, fetch).fetched
          ensures exists x :: x in objs && x.url == u && CacheKey(x.md5, x.name) !in store
        {
          var x :| x in objs[1..] && x.url == u && CacheKey(x.md5, x.name) !in s2;
          assert x in objs;
        }
      }
    }
  }

  /** With every object cached, nothing is downloaded and the cache is
      unchanged. */
  lemma {:induction false} LoadAllWarm(objs: seq<LogData>, store: Store, fetch: Fetch)
    requires forall o :: o in objs ==> CacheKey(o.md5, o.name) in store
    ensures LoadAll(objs, store, fetch).fetched == []
    ensures LoadAll(objs, store, fetch).store == store
    ensures LoadAll(objs, store, fetch).failures == 0
    decreases |objs|
  {
    if |objs| > 0 {
      assert objs[0] in objs;
      assert forall x :: x in objs[1..] ==> x in objs;
      LoadAllWarm(objs[1..], store, fetch);
    }
  }

  /** When every download succeeds, every object ends up cached. */
  lemma {:induction false} LoadAllFills(objs: seq<LogData>, store: Store, fetch: Fetch)
    requires forall o :: o in objs ==> fetch(o.url).Some?
    ensures forall o :: o in objs ==> CacheKey(o.md5, o.name) in LoadAll(objs, store, fetch).store
    ensures LoadAll(objs, store, fetch).failures == 0
    decreases |objs|
  {
    if |objs| > 0 {
      var o := objs[0];
      var key := CacheKey(o.md5, o.name);
      assert o in objs;
      assert forall x :: x in objs[1..] ==> x in objs;
      var s2 := if key in store then store else store[key := fetch(o.url).value];
      LoadAllFills(objs[1..], s2, fetch);
      LoadAllKeeps(objs[1..], s2, fetch);
      forall x | x in objs
        ensures CacheKey(x.md5, x.name) in LoadAll(objs, store, fetch).store
      {
        if x != o {
          assert x in objs[1..] by {
            var i :| 0 <= i < |objs| && objs[i] == x;
            assert objs[1..][i - 1] == x;
          }
        }
      }
    }
  }

  /** A second run over the same objects downloads nothing. */
  lemma SecondRunFetchesNothing(objs: seq<LogData>, store: Store, fetch: Fetch)
    requires forall o :: o in objs ==> fetch(o.url).Some?
    ensures LoadAll(objs, LoadAll(objs, store, fetch).store, fetch).fetched == []
  {
    LoadAllFills(objs, store, fetch);
    LoadAllWarm(objs, LoadAll(objs, store, fetch).store, fetch);
  }

  lemma ThenAssociative(a: Loaded, b: Loaded, c: Loaded)
    ensures Then(Then(a, b), c) == Then(a, Then(b, c))
  {
    assert (a.records + b.records) + c.records == a.records + (b.records + c.records);
    assert (a.fetched + b.fetched) + c.fetched == a.fetched + (b.fetched + c.fetched);
  }

  /** One object of the load: the cache read, or the download and the
      cache write; `rest` are the objects still to come. */
  method LoadObject(o: LogData, store: Store, fetch: Fetch, ghost rest: seq<LogData>) returns (step: Loaded)
    ensures Then(step, LoadAll(rest, step.store, fetch)) == LoadAll([o] + rest, store, fetch)
  {
    var objs := [o] + rest;
    assert objs[0] == o && objs[1..] == rest;
    var key := CacheKey(o.md5, o.name);
    if key in store {
      return Loaded(store[key], store, [], 0);
    }
    var bytes := fetch(o.url);
    if bytes.None? {
      assert [] + LoadAll(rest, store, fetch).records == LoadAll(rest, store, fetch).records;
      return Loaded([], store, [o.url], 1);
    }
    return Loaded(bytes.value, store[key := bytes.value], [o.url], 0);
  }

  /** The records of the objects, loaded one after another. */
  method LoadObjects(objs: seq<LogData>, store: Store, fetch: Fetch) returns (result: Loaded)
    ensures result == LoadAll(objs, store, fetch)
  {
    result := Loaded([], store, [], 0);
    var i := 0;
    assert objs[i..] == objs;
    assert [] + LoadAll(objs, store, fetch).records == LoadAll(objs, store, fetch).records;
    assert [] + LoadAll(objs, store, fetch).fetched == LoadAll(objs, store, fetch).fetched;
    while i < |objs|
      invariant 0 <= i <= |objs|
      invariant Then(result, LoadAll(objs[i..], result.store, fetch)) == LoadAll(objs, store, fetch)
    {
      assert objs[i..] == [objs[i]] + objs[i + 1..];
      var step := LoadObject(objs[i], result.store, fetch, objs[i + 1..]);
      ThenAssociative(result, step, LoadAll(objs[i + 1..], step.store, fetch));
      result := Then(result, step);
      i := i + 1;
    }
    assert objs[i..] == [];
    assert result.records + [] == result.records && result.fetched + [] == result.fetched;
  }

  // ---------------------------------------------------------------------
  // Days
  // ---------------------------------------------------------------------

  /** The number of days from `start` to `end` inclusive, if it is a valid
      range of at most 30 days. */
  function DayCount(start: int, end: int): (r: Result<nat, LogError>)
    ensures r == Err(StartAfterEnd) <==> start > end
    ensures r == Err(RangeTooLong) <==> start <= end && end - start + 1 > MaxDays
    ensures r.Ok? ==> 1 <= r.value <= MaxDays && start + r.value - 1 == end
  {
    if start > end then Err(StartAfterEnd)
    else if end - start + 1 > MaxDays then Err(RangeTooLong)
    else Ok(end - start + 1)
  }

  /** `n` consecutive days from `start`. */
  function Days(start: int, n: nat): (r: seq<int>)
    ensures |r| == n
    ensures forall d :: d in r <==> start <= d < start + n
  {
    var r := seq(n, i => start + i);
    forall d | start <= d < start + n
      ensures d in r
    {
      assert r[d - start] == d;
    }
    forall d | d in r
      ensures start <= d < start + n
    {
      var i :| 0 <= i < n && r[i] == d;
    }
    r
  }

  /** The domain's objects listed by one day's catalog answer; a failed query
      (a panicking task) or a day without an entry lists none. */
  function Listed(response: Result<LogResponse, string>, domain: string): seq<LogData> {
    if response.Ok? && response.value.data.Some? && domain in response.value.data.value then
      response.value.data.value[domain]
    else []
  }

  /** The catalog entries of all the days, day by day. */
  function Catalogued(days: seq<int>, domain: string, catalog: Catalog): (r: seq<LogData>)
    ensures forall o :: o in r <==> exists k :: 0 <= k < |days| && o in Listed(catalog(days[k]), domain)
  {
    if |days| == 0 then []
    else
      var init := days[..|days| - 1];
      var prev := Catalogued(init, domain, catalog);
      assert forall k :: 0 <= k < |init| ==> init[k] == days[k];
      prev + Listed(catalog(days[|days| - 1]), domain)
  }

  /** The per-day catalog loop of `multi_day_records`. */
  method CollectListed(start: int, days: nat, domain: string, catalog: Catalog) returns (logDatas: seq<LogData>)
    requires 1 <= days <= MaxDays
    ensures logDatas == Catalogued(Days(start, days), domain, catalog)
  {
    ghost var dayList := Days(start, days);
    logDatas := [];
    var i := 0;
    while i < days
      invariant 0 <= i <= days
      invariant logDatas == Catalogued(dayList[..i], domain, catalog)
    {
      assert dayList[..i + 1][..i] == dayList[..i];
      assert dayList[i] == start + i;
      var response := catalog(start + i);
      if response.Ok? && response.value.data.Some? && domain in response.value.data.value {
        logDatas := logDatas + response.value.data.value[domain];
      }
      i := i + 1;
    }
    assert dayList[..i] == dayList;
  }

  /** `multi_day_records`: the range check, one catalog query per day, and
      the records of all listed objects. */
  method MultiDayRecords(start: int, end: int, domain: string, catalog: Catalog, store: Store, fetch: Fetch)
    returns (r: Result<seq<string>, LogError>, after: Store, fetched: seq<string>)
    ensures DayCount(start, end).Err? ==> r == Err(DayCount(start, end).error) && after == store && fetched == []
    ensures DayCount(start, end).Ok? ==>
      var loaded := LoadAll(Catalogued(Days(start, DayCount(start, end).value), domain, catalog), store, fetch);
      r == Ok(loaded.records) && after == loaded.store && fetched == loaded.fetched
  {
    if start > end {
      return Err(StartAfterEnd), store, [];
    }
    var days := end - start + 1;
    if days > MaxDays {
      return Err(RangeTooLong), store, [];
    }
    var logDatas := CollectListed(start, days, domain, catalog);
    var loaded := LoadObjects(logDatas, store, fetch);
    return Ok(loaded.records), loaded.store, loaded.fetched;
  }

  // ---------------------------------------------------------------------
  // download
  // ---------------------------------------------------------------------

  /** How many of `n` listed objects a `limit` lets through. */
  function TakeCount(n: nat, limit: int): (k: nat)
    ensures k <= n
    ensures limit <= 0 ==> k == 0
    ensures limit > 0 ==> k == (if n < limit then n else limit)
  {
    if limit <= 0 then 0 else if n < limit then n else limit
  }

  /** The countdown loop of `download`: one object per step until `limit`
      goes negative. */
  method TakeObjects(list: seq<LogData>, limit: int) returns (taken: seq<LogData>)
    ensures taken == list[..TakeCount(|list|, limit)]
  {
    var lim := limit;
    taken := [];
    var i := 0;
    while i < |list|
      invariant 0 <= i <= |list|
      invariant taken == list[..i]
      invariant lim == limit - i
      invariant i == 0 || i <= limit
    {
      lim := lim - 1;
      if lim < 0 {
        break;
      }
      taken := taken + [list[i]];
      i := i + 1;
    }
  }

  /** `download` with a download directory when `toDisk` holds: the limited
      objects are loaded through the cache; any failed download makes the
      whole call fail once all downloads have run. */
  method Download(response: Result<LogResponse, string>, toDisk: bool, limit: Option<int>, domain: string,
                  store: Store, fetch: Fetch)
    returns (r: Result<LogResponse, LogError>, after: Store, fetched: seq<string>)
    ensures response.Err? ==> r == Err(RequestFailed(response.error)) && after == store && fetched == []
    ensures response.Ok? && !(toDisk && response.value.data.Some? && domain in response.value.data.value) ==>
      r == Ok(response.value) && after == store && fetched == []
    ensures response.Ok? && toDisk && response.value.data.Some? && domain in response.value.data.value ==>
      var list := response.value.data.value[domain];
      var loaded := LoadAll(list[..TakeCount(|list|, limit.GetOr(DefaultDownloadLimit))], store, fetch);
      && after == loaded.store && fetched == loaded.fetched
      && r == (if loaded.failures > 0 then Err(DownloadFailed) else Ok(response.value))
  {
    if response.Err? {
      return Err(RequestFailed(response.error)), store, [];
    }
    var resp := response.value;
    if !toDisk || resp.data.None? || domain !in resp.data.value {
      return Ok(resp), store, [];
    }
    var tasks := TakeObjects(resp.data.value[domain], limit.GetOr(DefaultDownloadLimit));
    var loaded := LoadObjects(tasks, store, fetch);
    if loaded.failures > 0 {
      return Err(DownloadFailed), loaded.store, loaded.fetched;
    }
    return Ok(resp), loaded.store, loaded.fetched;
  }

  // ---------------------------------------------------------------------
  // filter_log
  // ---------------------------------------------------------------------

  /** The filter closure: each filter in turn must occur in the record, or,
      written `!!text`, `text` must not occur. */
  predicate Passes(record: string, filters: seq<string>)
    ensures Passes(record, filters) ==> forall i :: 0 <= i < |filters| && !StartsWith(filters[i], "!!") ==> Contains(record, filters[i])
    decreases |filters|
  {
    || |filters| == 0
    || (&& (if StartsWith(filters[0], "!!") then !Contains(record, filters[0][2..]) else Contains(record, filters[0]))
        && Passes(record, filters[1..]))
  }

  /** A record passes iff it contains every plain filter and none of the
      texts of the `!!` filters. */
  lemma {:induction false} PassesIff(record: string, filters: seq<string>)
    ensures Passes(record, filters) <==>
      && (forall f :: f in filters && !StartsWith(f, "!!") ==> Contains(record, f))
      && (forall f :: f in filters && StartsWith(f, "!!") ==> !Contains(record, f[2..]))
    decreases |filters|
  {
    if |filters| > 0 {
      PassesIff(record, filters[1..]);
      assert forall f :: f in filters <==> f == filters[0] || f in filters[1..];
    }
  }

  /** The records that pass, in record order. */
  function Matches(records: seq<string>, filters: seq<string>): (r: seq<string>)
    ensures |r| <= |records|
  {
    if |records| == 0 then []
    else
      var init := records[..|records| - 1];
      var last := records[|records| - 1];
      Matches(init, filters) + (if Passes(last, filters) then [last] else [])
  }

  /** Every kept record passes, and each passing record is kept as often as
      it occurs. */
  lemma {:induction false} MatchesCounts(records: seq<string>, filters: seq<string>)
    ensures forall x :: x in Matches(records, filters) ==> Passes(x, filters)
    ensures forall x :: multiset(Matches(records, filters))[x] == if Passes(x, filters) then multiset(records)[x] else 0
    decreases |records|
  {
    if |records| > 0 {
      var init := records[..|records| - 1];
      var last := records[|records| - 1];
      MatchesCounts(init, filters);
      assert records == init + [last];
    }
  }

  datatype LogFile = LogFile(name: string, content: string)
  datatype FilterOutput = FilterOutput(total: nat, file: Option<LogFile>)

  function ExportName(domain: string, filter: string, startText: string, endText: string): string {
    domain + "." + filter + "-" + startText + "-" + endText + ".log"
  }

  /** `filter_log` on the collected records: the print mode counts the
      matches, the file mode writes them joined by newlines. */
  method FilterLog(records: seq<string>, filters: seq<string>, outputFile: bool, domain: string,
                   startText: string, endText: string)
    returns (r: Result<FilterOutput, LogError>)
    ensures r.Err? <==> outputFile && |filters| == 0
    ensures r.Ok? ==> r.value.total == |Matches(records, filters)|
    ensures r.Ok? && !outputFile ==> r.value.file.None?
    ensures r.Ok? && outputFile ==>
      r.value.file == Some(LogFile(ExportName(domain, filters[0], startText, endText), Join(Matches(records, filters), "\n")))
  {
    if !outputFile {
      var total := CountMatches(records, filters);
      return Ok(FilterOutput(total, None));
    }
    if |filters| == 0 {
      return Err(NoFilter);
    }
    var name := ExportName(domain, filters[0], startText, endText);
    var kept := Matches(records, filters);
    return Ok(FilterOutput(|kept|, Some(LogFile(name, Join(kept, "\n")))));
  }

  /** The print-mode loop: one count per passing record. */
  method CountMatches(records: seq<string>, filters: seq<string>) returns (total: nat)
    ensures total == |Matches(records, filters)|
  {
    total := 0;
    var i := 0;
    while i < |records|
      invariant 0 <= i <= |records|
      invariant total == |Matches(records[..i], filters)|
    {
      assert records[..i + 1][..i] == records[..i];
      if Passes(records[i], filters) {
        total := total + 1;
      }
      i := i + 1;
    }
    assert records[..i] == records;
  }

  // ---------------------------------------------------------------------
  // ip_url
  // ---------------------------------------------------------------------

  /** `parse_url`: the second space-separated word of the first quoted part,
      `""` when the record has no quote, `None` (a panic) when that part has
      no second word. */
  function ParseUrl(record: string): (r: Option<string>)
    ensures '"' !in record ==> r == Some("")
  {
    var parts := Split(record, "\"");
    if '"' !in record then
      SplitAbsent(record, '"');
      Some("")
    else if |parts| < 2 then None
    else
      var words := Split(parts[1], " ");
      if |words| < 2 then None else Some(words[1])
  }

  /** A one-character pattern occurs exactly where that character does. */
  lemma HasChar(s: string, c: char)
    ensures Contains(s, [c]) <==> c in s
  {
    if c in s {
      var j :| 0 <= j < |s| && s[j] == c;
      assert s[j..j + 1] == [c];
      ContainsAt(s, [c], j);
    }
    if Contains(s, [c]) {
      ContainsChar(s, c);
    }
  }

  /** `parse_url` panics exactly when the record has a quote and the first
      quoted part has no space, so that it has no second word. */
  lemma ParseUrlPanics(record: string)
    ensures '"' in record ==> |Split(record, "\"")| >= 2
    ensures ParseUrl(record).None? <==>
      '"' in record && |Split(record, "\"")| >= 2 && ' ' !in Split(record, "\"")[1]
  {
    HasChar(record, '"');
    SplitCount(record, "\"");
    if '"' in record {
      var part := Split(record, "\"")[1];
      HasChar(part, ' ');
      SplitCount(part, " ");
    }
  }

  /** The part after the first quote, up to the second. */
  lemma QuotedPart(prefix: string, line: string, tail: string)
    requires '"' !in prefix && '"' !in line
    ensures var parts := Split(prefix + "\"" + line + "\"" + tail, "\""); |parts| >= 2 && parts[1] == line
  {
    assert prefix + "\"" + line + "\"" + tail == prefix + ['"'] + (line + ['"'] + tail);
    SplitFirst(prefix, '"', line + ['"'] + tail);
    SplitFirst(line, '"', tail);
  }

  /** The second word of a request line. */
  lemma SecondWord(verb: string, url: string, rest: string)
    requires ' ' !in verb && ' ' !in url
    ensures var words := Split(verb + " " + url + " " + rest, " "); |words| >= 2 && words[1] == url
  {
    assert verb + " " + url + " " + rest == verb + [' '] + (url + [' '] + rest);
    SplitFirst(verb, ' ', url + [' '] + rest);
    SplitFirst(url, ' ', rest);
  }

  lemma NoQuoteInLine(verb: string, url: string, rest: string)
    requires '"' !in verb && '"' !in url && '"' !in rest
    ensures '"' !in verb + " " + url + " " + rest
  {
  }

  /** On a record of the form `prefix "method url rest" tail` the URL is
      the one in the request line. */
  lemma ParseUrlOfRequestLine(prefix: string, verb: string, url: string, rest: string, tail: string)
    requires '"' !in prefix && '"' !in verb && '"' !in url && '"' !in rest
    requires ' ' !in verb && ' ' !in url
    ensures ParseUrl(prefix + "\"" + verb + " " + url + " " + rest + "\"" + tail) == Some(url)
  {
    var line := verb + " " + url + " " + rest;
    NoQuoteInLine(verb, url, rest);
    var record := prefix + "\"" + line + "\"" + tail;
    assert prefix + "\"" + verb + " " + url + " " + rest + "\"" + tail == record;
    assert record[|prefix|] == '"';
    QuotedPart(prefix, line, tail);
    SecondWord(verb, url, rest);
  }

  /** The record starts with the IP once trimmed. */
  predicate FromIp(record: string, ip: string) {
    StartsWith(Trim(record), ip)
  }

  /** A record of the IP whose URL cannot be parsed. */
  predicate PanicsOn(record: string, ip: string) {
    FromIp(record, ip) && ParseUrl(Trim(record)).None?
  }

  /** The URLs after one more record: unchanged for another IP's record or
      an empty URL, extended by a parsed URL, `None` on a panic. */
  function NextUrls(urls: Option<seq<string>>, record: string, ip: string): Option<seq<string>> {
    match urls
    case None => None
    case Some(us) =>
      if !FromIp(record, ip) then Some(us)
      else
        match ParseUrl(Trim(record))
        case None => None
        case Some(u) => if u == "" then Some(us) else Some(us + [u])
  }

  /** The non-empty URLs of the IP's records in order, or `None` when one of
      its records cannot be parsed. */
  function UrlsOf(records: seq<string>, ip: string): (r: Option<seq<string>>)
    ensures r.Some? ==> "" !in r.value && |r.value| <= |records|
  {
    if |records| == 0 then Some([])
    else NextUrls(UrlsOf(records[..|records| - 1], ip), records[|records| - 1], ip)
  }

  lemma UrlsOfStep(records: seq<string>, i: nat, ip: string)
    requires i < |records|
    ensures UrlsOf(records[..i + 1], ip) == NextUrls(UrlsOf(records[..i], ip), records[i], ip)
  {
    assert records[..i + 1][..i] == records[..i];
  }

  /** Once the URLs of a prefix are missing, so are those of the whole. */
  lemma {:induction false} UrlsOfNoneStays(records: seq<string>, k: nat, ip: string)
    requires k <= |records| && UrlsOf(records[..k], ip).None?
    ensures UrlsOf(records, ip).None?
    decreases |records|
  {
    if k < |records| {
      var init := records[..|records| - 1];
      assert init[..k] == records[..k];
      UrlsOfNoneStays(init, k, ip);
    } else {
      assert records[..k] == records;
    }
  }

  lemma NextUrlsNone(urls: Option<seq<string>>, record: string, ip: string)
    ensures NextUrls(urls, record, ip).None? <==> urls.None? || PanicsOn(record, ip)
  {
  }

  /** The URLs are missing exactly when one of the IP's records cannot be
      parsed. */
  lemma {:induction false} UrlsOfPanics(records: seq<string>, ip: string)
    ensures UrlsOf(records, ip).None? <==> exists i :: 0 <= i < |records| && PanicsOn(records[i], ip)
    decreases |records|
  {
    if |records| > 0 {
      var init := records[..|records| - 1];
      var last := records[|records| - 1];
      UrlsOfPanics(init, ip);
      NextUrlsNone(UrlsOf(init, ip), last, ip);
      if UrlsOf(init, ip).None? {
        var i :| 0 <= i < |init| && PanicsOn(init[i], ip);
        assert records[i] == init[i];
      } else if !PanicsOn(last, ip) {
        forall i | 0 <= i < |records|
          ensures !PanicsOn(records[i], ip)
        {
          if i < |init| {
            assert records[i] == init[i];
            assert !PanicsOn(init[i], ip);
          } else {
            assert records[i] == last;
          }
        }
      }
    }
  }

  /** How often each URL occurs. */
  function Multiplicity(urls: seq<string>): string -> int {
    u => multiset(urls)[u]
  }

  lemma {:induction false} SumOfNoUrls(keys: seq<string>)
    ensures Tables.SumOf(keys, Multiplicity([])) == 0
    decreases |keys|
  {
    if |keys| > 0 {
      SumOfNoUrls(keys[..|keys| - 1]);
    }
  }

  /** One more URL adds one to the sum over a duplicate-free key list that
      holds it. */
  lemma {:induction false} SumOfOneMore(keys: seq<string>, urls: seq<string>, x: string)
    requires Distinct(keys)
    ensures Tables.SumOf(keys, Multiplicity(urls + [x])) == Tables.SumOf(keys, Multiplicity(urls)) + (if x in keys then 1 else 0)
    decreases |keys|
  {
    if |keys| > 0 {
      var init := keys[..|keys| - 1];
      var k := keys[|keys| - 1];
      assert Distinct(init);
      SumOfOneMore(init, urls, x);
      assert multiset(urls + [x])[k] == multiset(urls)[k] + (if k == x then 1 else 0);
      assert x in keys <==> x in init || x == k;
      assert x in init ==> x != k;
    }
  }

  /** Summing the counts over all keys gives the number of URLs. */
  lemma {:induction false} SumOfMultiplicities(keys: seq<string>, urls: seq<string>)
    requires Distinct(keys)
    requires forall u :: u in urls ==> u in keys
    ensures Tables.SumOf(keys, Multiplicity(urls)) == |urls|
    decreases |urls|
  {
    if |urls| == 0 {
      SumOfNoUrls(keys);
    } else {
      var init := urls[..|urls| - 1];
      var x := urls[|urls| - 1];
      assert urls == init + [x];
      SumOfMultiplicities(keys, init);
      SumOfOneMore(keys, init, x);
    }
  }

  datatype UrlReport = UrlReport(counts: map<string, int>, total: int)

  /** `ip_url` on the collected records: the per-URL counts of the IP's
      records and their printed total. */
  method IpUrl(records: seq<string>, ip: string) returns (r: Option<UrlReport>)
    ensures r.None? <==> UrlsOf(records, ip).None?
    ensures r.Some? ==>
      var urls := UrlsOf(records, ip).value;
      && r.value.counts.Keys == Elements(urls)
      && (forall u :: u in r.value.counts ==> r.value.counts[u] == multiset(urls)[u])
      && r.value.total == |urls|
  {
    var counts := CountUrls(records, ip);
    if counts.None? {
      return None;
    }
    var total := SumCounts(counts.value, UrlsOf(records, ip).value);
    return Some(UrlReport(counts.value, total));
  }

  /** The counting loop of `ip_url`. */
  method CountUrls(records: seq<string>, ip: string) returns (r: Option<map<string, int>>)
    ensures r.None? <==> UrlsOf(records, ip).None?
    ensures r.Some? ==> Counted(r.value, UrlsOf(records, ip).value)
  {
    var counts: map<string, int> := map[];
    ghost var urls: seq<string> := [];
    var i := 0;
    while i < |records|
      invariant 0 <= i <= |records|
      invariant UrlsOf(records[..i], ip) == Some(urls)
      invariant Counted(counts, urls)
    {
      var next, nextUrls := CountRecord(counts, urls, records[i], ip);
      UrlsOfStep(records, i, ip);
      if next.None? {
        UrlsOfNoneStays(records, i + 1, ip);
        return None;
      }
      counts, urls := next.value, nextUrls.value;
      i := i + 1;
    }
    assert records[..i] == records;
    return Some(counts);
  }

  /** One turn of the counting loop, on the record `record`. */
  method CountRecord(counts: map<string, int>, ghost urls: seq<string>, record: string, ip: string)
    returns (next: Option<map<string, int>>, ghost nextUrls: Option<seq<string>>)
    requires Counted(counts, urls)
    ensures nextUrls == NextUrls(Some(urls), record, ip)
    ensures next.None? <==> nextUrls.None?
    ensures next.Some? ==> Counted(next.value, nextUrls.value)
  {
    var line := Trim(record);
    if !StartsWith(line, ip) {
      return Some(counts), Some(urls);
    }
    var u := ParseUrl(line);
    if u.None? {
      return None, None;
    }
    if u.value == "" {
      return Some(counts), Some(urls);
    }
    var c := if u.value in counts then counts[u.value] else 0;
    CountOneMore(counts, urls, u.value);
    return Some(counts[u.value := c + 1]), Some(urls + [u.value]);
  }

  /** `counts` holds how often each URL of `urls` occurs, and no other key. */
  ghost predicate Counted(counts: map<string, int>, urls: seq<string>) {
    && counts.Keys == Elements(urls)
    && forall u :: u in counts ==> counts[u] == multiset(urls)[u]
  }

  lemma CountOneMore(counts: map<string, int>, urls: seq<string>, u: string)
    requires Counted(counts, urls)
    ensures Counted(counts[u := (if u in counts then counts[u] else 0) + 1], urls + [u])
  {
    assert Elements(urls + [u]) == Elements(urls) + {u};
  }

  /** `values().sum()`: the counts added up in the map's iteration order. */
  method SumCounts(counts: map<string, int>, ghost urls: seq<string>) returns (total: int)
    requires counts.Keys == Elements(urls)
    requires forall u :: u in counts ==> counts[u] == multiset(urls)[u]
    ensures total == |urls|
  {
    var keys := EnumerateKeys(counts.Keys);
    total := 0;
    var j := 0;
    while j < |keys|
      invariant 0 <= j <= |keys|
      invariant total == Tables.SumOf(keys[..j], Multiplicity(urls))
    {
      assert keys[..j + 1][..j] == keys[..j];
      total := total + counts[keys[j]];
      j := j + 1;
    }
    assert keys[..j] == keys;
    assert forall u :: u in urls ==> u in Elements(keys);
    SumOfMultiplicities(keys, urls);
  }
}
