/** The two algorithms of the domain commands in src/domain.rs:

    - `diagnose_ip`, which reads a policy such as `C:3:1000&&T:1:500`, asks the
      top-IP analysis once per clause and combines the per-clause IP sets by
      union (`||`) or intersection (`&&`);
    - `set_ip_acl`, which turns a comma-separated IP list into the list that is
      sent as the domain's black or white list, merging it with the list that
      is online.

    The top-IP lookup, the domain query and the ACL request are parameters.
    Dates are day numbers; parsing and formatting `%Y-%m-%d` is not modelled. */
module Domain {
  import opened Wrappers
  import opened Strings
  import opened Sorting
  import Top

  // ---------------------------------------------------------------------
  // Policy text
  // ---------------------------------------------------------------------

  datatype Mode = And | Or

  /** One policy clause `T|C:days:num`. */
  datatype Clause = Clause(kind: Top.FilterType, days: int, num: int)

  /** Outcomes that end `diagnose_ip` with an error; the `print_err(.., true)`
      exits and the `unwrap` panics of the source are errors here. */
  datatype DiagnoseError =
    | PolicyMissing
    | PolicyMalformed
    | BadNumber
    | LookupFailed(message: string)
    | ApiError(code: int, error: string)
    | MissingField
    | IndexOutOfRange

  /** Every piece split on `sep`, the results concatenated in order. */
  function SplitEach(pieces: seq<string>, sep: string): (r: seq<string>)
    requires |sep| > 0
    ensures |r| >= |pieces|
  {
    if |pieces| == 0 then []
    else SplitEach(pieces[..|pieces| - 1], sep) + Split(pieces[|pieces| - 1], sep)
  }

  /** The clause strings of a policy: split on `||`, each piece on `&&`. */
  function ClauseStrings(policy: string): (r: seq<string>)
    ensures |r| >= 1
  {
    SplitEach(Split(policy, "||"), "&&")
  }

  /** No clause string contains `&&`. */
  lemma {:induction false} SplitEachFree(pieces: seq<string>, sep: string)
    requires |sep| > 0
    ensures forall c :: c in SplitEach(pieces, sep) ==> !Contains(c, sep)
    decreases |pieces|
  {
    if |pieces| > 0 {
      SplitEachFree(pieces[..|pieces| - 1], sep);
      SplitPiecesFree(pieces[|pieces| - 1], sep);
    }
  }

  lemma ClausesHaveNoAnd(policy: string)
    ensures forall c :: c in ClauseStrings(policy) ==> !Contains(c, "&&")
  {
    SplitEachFree(Split(policy, "||"), "&&");
  }

  /** The mode is `or` exactly when the policy has more than one `||` piece. */
  function PolicyMode(policy: string): (m: Mode)
    ensures m == Or <==> |Split(policy, "||")| >= 2
  {
    SplitCount(policy, "||");
    if Contains(policy, "||") then Or else And
  }

  /** A clause as it is written in a policy. */
  function ClauseText(c: Clause): string {
    (if c.kind == Top.Traffic then "T" else "C") + ":" + IntToString(c.days) + ":" + IntToString(c.num)
  }

  /** Parses one clause: exactly three `:`-separated fields, a `T` or `C`
      kind, two `i64` fields, and at least one day. */
  function ParseClause(p: string): (r: Result<Clause, DiagnoseError>)
    ensures r.Ok? ==> r.value.days >= 1 && |Split(p, ":")| == 3
    ensures r.Ok? ==> (r.value.kind == Top.ReqCount <==> Split(p, ":")[0] == "C")
  {
    var ps := Split(p, ":");
    if |ps| != 3 || (ps[0] != "T" && ps[0] != "C") then Err(PolicyMalformed)
    else
      var days := ParseI64(ps[1]);
      var num := ParseI64(ps[2]);
      if days.None? || num.None? then Err(BadNumber)
      else if days.value < 1 then Err(PolicyMalformed)
      else Ok(Clause(if ps[0] == "C" then Top.ReqCount else Top.Traffic, days.value, num.value))
  }

  lemma IntTextHasNoColon(i: int)
    ensures ':' !in IntToString(i)
  {
    var n: nat := if i < 0 then -i else i;
    NatToStringDigits(n);
    var digits := NatToString(n);
    assert forall k :: 0 <= k < |digits| ==> digits[k] != ':';
    if i < 0 {
      assert IntToString(i) == "-" + digits;
    }
  }

  /** Three colon-free fields joined by colons split back into themselves. */
  lemma SplitThreeFields(a: string, b: string, c: string)
    requires ':' !in a && ':' !in b && ':' !in c
    ensures Split(a + ":" + b + ":" + c, ":") == [a, b, c]
  {
    assert a + ":" + b + ":" + c == a + [':'] + (b + [':'] + c);
    SplitFirst(a, ':', b + [':'] + c);
    SplitFirst(b, ':', c);
    SplitAbsent(c, ':');
  }

  /** A clause whose three fields are known parses to those fields. */
  lemma ParseClauseFields(p: string, k: string, d: string, n: string, days: int, num: int)
    requires Split(p, ":") == [k, d, n]
    requires k == "T" || k == "C"
    requires ParseI64(d) == Some(days) && ParseI64(n) == Some(num) && days >= 1
    ensures ParseClause(p) == Ok(Clause(if k == "C" then Top.ReqCount else Top.Traffic, days, num))
  {
  }

  /** Every clause with at least one day and `i64` fields reads back from
      its own text. */
  lemma ParseClauseText(c: Clause)
    requires c.days >= 1
    requires I64_MIN <= c.days <= I64_MAX && I64_MIN <= c.num <= I64_MAX
    ensures ParseClause(ClauseText(c)) == Ok(c)
  {
    var k := if c.kind == Top.Traffic then "T" else "C";
    var d, n := IntToString(c.days), IntToString(c.num);
    IntTextHasNoColon(c.days);
    IntTextHasNoColon(c.num);
    SplitThreeFields(k, d, n);
    ParseFormatRoundTrip(c.days);
    ParseFormatRoundTrip(c.num);
    assert ClauseText(c) == k + ":" + d + ":" + n;
    ParseClauseFields(ClauseText(c), k, d, n, c.days, c.num);
    assert k == "C" <==> c.kind == Top.ReqCount by {
      assert "T"[0] != "C"[0];
    }
  }

  // ---------------------------------------------------------------------
  // One clause
  // ---------------------------------------------------------------------

  /** First day of the clause's window ending at `day`. */
  function WindowStart(c: Clause, day: int): (start: int)
    ensures start <= day
    ensures c.days >= 1 ==> day - start + 1 == c.days
  {
    if c.days > 1 then day - (c.days - 1) else day
  }

  /** Request counts are compared as given; a traffic threshold is `num`
      whole megabytes. */
  function Threshold(c: Clause): (t: int)
    ensures c.kind == Top.ReqCount ==> t == c.num
    ensures c.kind != Top.ReqCount ==> t % 0x10_0000 == 0 && t / 0x10_0000 == c.num
  {
    if c.kind == Top.ReqCount then c.num else c.num * 1024 * 1024
  }

  /** `s` is the set of names whose series value reaches `threshold`. */
  ghost predicate Selects(s: set<string>, names: seq<string>, series: seq<int>, threshold: int) {
    forall ip :: ip in s <==>
      exists i :: 0 <= i < |series| && i < |names| && series[i] >= threshold && names[i] == ip
  }

  /** A series index that reaches the threshold but has no name. */
  ghost predicate Unnamed(names: seq<string>, series: seq<int>, threshold: int) {
    exists i :: 0 <= i < |series| && |names| <= i && series[i] >= threshold
  }

  /** The names kept by one clause, or `None` when a kept index has no name
      (the `ip_arr.get(i).unwrap()` panic). */
  function Kept(names: seq<string>, series: seq<int>, threshold: int): (r: Option<set<string>>)
    ensures r.None? <==> Unnamed(names, series, threshold)
    ensures r.Some? ==> Selects(r.value, names, series, threshold)
    decreases |series|
  {
    if |series| == 0 then Some({})
    else
      var init := series[..|series| - 1];
      var i := |series| - 1;
      var prev := Kept(names, init, threshold);
      assert forall j :: 0 <= j < i ==> init[j] == series[j];
      if prev.None? then
        assert Unnamed(names, series, threshold) by {
          var j :| 0 <= j < |init| && |names| <= j && init[j] >= threshold;
          assert series[j] == init[j];
        }
        None
      else if series[i] < threshold then Some(prev.value)
      else if i < |names| then Some(prev.value + {names[i]})
      else None
  }

  /** The top-IP request of a clause: the kind and the first and last day. */
  type Lookup = (Top.FilterType, int, int) -> Result<Top.TopResponse, string>

  /** One clause evaluated: `Ok(None)` when the analysis has no data. */
  function EvaluateClause(p: string, day: int, lookup: Lookup): (r: Result<Option<set<string>>, DiagnoseError>)
    ensures r.Ok? ==> ParseClause(p).Ok?
    ensures r.Ok? && r.value.Some? ==>
      var c := ParseClause(p).value;
      var resp := lookup(c.kind, WindowStart(c, day), day);
      && resp.Ok? && resp.value.code == 200 && resp.value.data.Some?
      && var d := resp.value.data.value;
      && d.names.Some? && Top.Selected(d, c.kind).Some?
      && Selects(r.value.value, d.names.value, Top.Selected(d, c.kind).value, Threshold(c))
  {
    match ParseClause(p)
    case Err(e) => Err(e)
    case Ok(c) =>
      match lookup(c.kind, WindowStart(c, day), day)
      case Err(m) => Err(LookupFailed(m))
      case Ok(resp) =>
        if resp.code != 200 then Err(ApiError(resp.code, resp.error))
        else if resp.data.None? then Ok(None)
        else
          var d := resp.data.value;
          if d.names.None? || Top.Selected(d, c.kind).None? then Err(MissingField)
          else
            match Kept(d.names.value, Top.Selected(d, c.kind).value, Threshold(c))
            case None => Err(IndexOutOfRange)
            case Some(s) => Ok(Some(s))
  }

  /** Every outcome of one clause: a parse error as it is; a failed
      request; an API error for a code other than 200; no data; a missing
      field; an unnamed kept index; and otherwise the kept names. */
  lemma EvaluateClauseOutcomes(p: string, day: int, lookup: Lookup)
    ensures ParseClause(p).Err? ==> EvaluateClause(p, day, lookup) == Err(ParseClause(p).error)
    ensures ParseClause(p).Ok? ==>
      var c := ParseClause(p).value;
      var resp := lookup(c.kind, WindowStart(c, day), day);
      var r := EvaluateClause(p, day, lookup);
      && (resp.Err? ==> r == Err(LookupFailed(resp.error)))
      && (resp.Ok? && resp.value.code != 200 ==> r == Err(ApiError(resp.value.code, resp.value.error)))
      && (resp.Ok? && resp.value.code == 200 && resp.value.data.None? ==> r == Ok(None))
      && (resp.Ok? && resp.value.code == 200 && resp.value.data.Some? ==>
            var d := resp.value.data.value;
            && (d.names.None? || Top.Selected(d, c.kind).None? ==> r == Err(MissingField))
            && (d.names.Some? && Top.Selected(d, c.kind).Some? ==>
                  var kept := Kept(d.names.value, Top.Selected(d, c.kind).value, Threshold(c));
                  && (kept.None? ==> r == Err(IndexOutOfRange))
                  && (kept.Some? ==> r == Ok(Some(kept.value)))))
  {
  }

  // ---------------------------------------------------------------------
  // All clauses
  // ---------------------------------------------------------------------

  /** The per-clause sets, or the signal that some clause found no data. */
  datatype Evaluation = NoData | Sets(sets: seq<set<string>>)

  /** Clauses `cs[..k]` all produced a set. */
  predicate AllFound(cs: seq<string>, k: nat, day: int, lookup: Lookup)
    requires k <= |cs|
  {
    forall j :: 0 <= j < k ==> EvaluateClause(cs[j], day, lookup).Ok? && EvaluateClause(cs[j], day, lookup).value.Some?
  }

  /** The clauses evaluated in order; the first error or the first clause
      without data ends the evaluation. */
  function EvaluateAll(cs: seq<string>, day: int, lookup: Lookup): (r: Result<Evaluation, DiagnoseError>)
    ensures r.Ok? && r.value.Sets? ==> |r.value.sets| == |cs|
    decreases |cs|
  {
    if |cs| == 0 then Ok(Sets([]))
    else
      match EvaluateClause(cs[0], day, lookup)
      case Err(e) => Err(e)
      case Ok(None) => Ok(NoData)
      case Ok(Some(s)) =>
        match EvaluateAll(cs[1..], day, lookup)
        case Err(e) => Err(e)
        case Ok(NoData) => Ok(NoData)
        case Ok(Sets(ss)) => Ok(Sets([s] + ss))
  }

  /** A first clause that found a set extends the run of found clauses. */
  lemma AllFoundCons(cs: seq<string>, k: nat, day: int, lookup: Lookup)
    requires 0 < |cs| && k < |cs|
    requires EvaluateClause(cs[0], day, lookup).Ok? && EvaluateClause(cs[0], day, lookup).value.Some?
    requires AllFound(cs[1..], k, day, lookup)
    ensures AllFound(cs, k + 1, day, lookup)
  {
    forall j | 0 <= j < k + 1
      ensures EvaluateClause(cs[j], day, lookup).Ok? && EvaluateClause(cs[j], day, lookup).value.Some?
    {
      if j > 0 {
        assert cs[j] == cs[1..][j - 1];
      }
    }
  }

  /** A full evaluation holds each clause's set, in order. */
  lemma {:induction false} EvaluateAllSets(cs: seq<string>, day: int, lookup: Lookup)
    ensures var r := EvaluateAll(cs, day, lookup);
      r.Ok? && r.value.Sets? ==>
        forall k :: 0 <= k < |cs| ==> EvaluateClause(cs[k], day, lookup) == Ok(Some(r.value.sets[k]))
    decreases |cs|
  {
    var r := EvaluateAll(cs, day, lookup);
    if |cs| > 0 && r.Ok? && r.value.Sets? {
      var first := EvaluateClause(cs[0], day, lookup);
      var tail := cs[1..];
      EvaluateAllSets(tail, day, lookup);
      var rest := EvaluateAll(tail, day, lookup);
      assert r.value.sets == [first.value.value] + rest.value.sets;
      forall k | 0 <= k < |cs|
        ensures EvaluateClause(cs[k], day, lookup) == Ok(Some(r.value.sets[k]))
      {
        if k > 0 {
          assert cs[k] == tail[k - 1];
        }
      }
    }
  }

  /** An evaluation without data or with an error stops at the first clause
      that has no data or fails, after clauses that all found a set. */
  lemma {:induction false} EvaluateAllStops(cs: seq<string>, day: int, lookup: Lookup)
    ensures EvaluateAll(cs, day, lookup) == Ok(NoData) ==>
      exists k :: 0 <= k < |cs| && AllFound(cs, k, day, lookup) && EvaluateClause(cs[k], day, lookup) == Ok(None)
    ensures EvaluateAll(cs, day, lookup).Err? ==>
      exists k :: 0 <= k < |cs| && AllFound(cs, k, day, lookup) && EvaluateClause(cs[k], day, lookup) == Err(EvaluateAll(cs, day, lookup).error)
    decreases |cs|
  {
    if |cs| > 0 {
      var first := EvaluateClause(cs[0], day, lookup);
      assert AllFound(cs, 0, day, lookup);
      if first.Ok? && first.value.Some? {
        var tail := cs[1..];
        EvaluateAllStops(tail, day, lookup);
        var rest := EvaluateAll(tail, day, lookup);
        if rest.Err? {
          var k :| 0 <= k < |tail| && AllFound(tail, k, day, lookup) && EvaluateClause(tail[k], day, lookup) == Err(rest.error);
          AllFoundCons(cs, k, day, lookup);
          assert cs[k + 1] == tail[k];
        } else if rest.value.NoData? {
          var k :| 0 <= k < |tail| && AllFound(tail, k, day, lookup) && EvaluateClause(tail[k], day, lookup) == Ok(None);
          AllFoundCons(cs, k, day, lookup);
          assert cs[k + 1] == tail[k];
        }
      }
    }
  }

  /** The evaluation of the remaining clauses after `done` sets were found. */
  function After(done: seq<set<string>>, e: Result<Evaluation, DiagnoseError>): Result<Evaluation, DiagnoseError> {
    match e
    case Err(err) => Err(err)
    case Ok(NoData) => Ok(NoData)
    case Ok(Sets(ss)) => Ok(Sets(done + ss))
  }

  lemma AfterNothing(e: Result<Evaluation, DiagnoseError>)
    ensures After([], e) == e
  {
    if e.Ok? && e.value.Sets? {
      assert [] + e.value.sets == e.value.sets;
    }
  }

  lemma AfterAfter(a: seq<set<string>>, b: seq<set<string>>, e: Result<Evaluation, DiagnoseError>)
    ensures After(a, After(b, e)) == After(a + b, e)
  {
    if e.Ok? && e.value.Sets? {
      assert a + (b + e.value.sets) == (a + b) + e.value.sets;
    }
  }

  /** One step of `EvaluateAll`. */
  lemma EvaluateAllStep(cs: seq<string>, day: int, lookup: Lookup)
    requires |cs| > 0
    ensures EvaluateClause(cs[0], day, lookup).Err? ==>
      EvaluateAll(cs, day, lookup) == Err(EvaluateClause(cs[0], day, lookup).error)
    ensures EvaluateClause(cs[0], day, lookup) == Ok(None) ==> EvaluateAll(cs, day, lookup) == Ok(NoData)
    ensures EvaluateClause(cs[0], day, lookup).Ok? && EvaluateClause(cs[0], day, lookup).value.Some? ==>
      EvaluateAll(cs, day, lookup) == After([EvaluateClause(cs[0], day, lookup).value.value], EvaluateAll(cs[1..], day, lookup))
  {
  }

  /** The IPs in at least one of the sets. */
  function UnionAll(ss: seq<set<string>>): (r: set<string>)
    ensures forall ip :: ip in r <==> exists k :: 0 <= k < |ss| && ip in ss[k]
  {
    if |ss| == 0 then {}
    else
      var init := ss[..|ss| - 1];
      assert forall k :: 0 <= k < |init| ==> init[k] == ss[k];
      UnionAll(init) + ss[|ss| - 1]
  }

  /** The IPs in every one of the sets; none when there are no sets. */
  function InAll(ss: seq<set<string>>): (r: set<string>)
    ensures forall ip :: ip in r <==> |ss| > 0 && forall k :: 0 <= k < |ss| ==> ip in ss[k]
  {
    if |ss| == 0 then {}
    else if |ss| == 1 then ss[0]
    else
      var init := ss[..|ss| - 1];
      assert forall k :: 0 <= k < |init| ==> init[k] == ss[k];
      InAll(init) * ss[|ss| - 1]
  }

  /** In how many of the sets `ip` occurs. */
  function Occurrences(ss: seq<set<string>>, ip: string): (n: nat)
    ensures n <= |ss|
  {
    if |ss| == 0 then 0
    else Occurrences(ss[..|ss| - 1], ip) + (if ip in ss[|ss| - 1] then 1 else 0)
  }

  /** `ip` occurs in some set exactly when it is counted at all, and in
      every set exactly when it is counted once per set. */
  lemma {:induction false} OccurrencesMeaning(ss: seq<set<string>>, ip: string)
    ensures Occurrences(ss, ip) > 0 <==> exists k :: 0 <= k < |ss| && ip in ss[k]
    ensures Occurrences(ss, ip) == |ss| <==> forall k :: 0 <= k < |ss| ==> ip in ss[k]
    decreases |ss|
  {
    if |ss| > 0 {
      var init := ss[..|ss| - 1];
      OccurrencesMeaning(init, ip);
      assert forall k :: 0 <= k < |init| ==> init[k] == ss[k];
    }
  }

  function Combine(mode: Mode, ss: seq<set<string>>): set<string> {
    if mode == Or then UnionAll(ss) else InAll(ss)
  }

  /** The or-mode combination: every IP of every set inserted into one set. */
  method UnionSets(ss: seq<set<string>>) returns (result: set<string>)
    ensures result == UnionAll(ss)
  {
    result := {};
    var k := 0;
    while k < |ss|
      invariant 0 <= k <= |ss|
      invariant result == UnionAll(ss[..k])
    {
      var rest := ss[k];
      while rest != {}
        invariant rest <= ss[k]
        invariant result == UnionAll(ss[..k]) + (ss[k] - rest)
        decreases rest
      {
        var ip :| ip in rest;
        result := result + {ip};
        rest := rest - {ip};
      }
      assert ss[..k + 1][..k] == ss[..k];
      k := k + 1;
    }
    assert ss[..k] == ss;
  }

  /** Occurrences in one more set. */
  lemma OccurrencesStep(ss: seq<set<string>>, k: nat)
    requires k < |ss|
    ensures forall ip :: Occurrences(ss[..k + 1], ip) == Occurrences(ss[..k], ip) + (if ip in ss[k] then 1 else 0)
  {
    assert ss[..k + 1][..k] == ss[..k];
    assert ss[..k + 1][k] == ss[k];
  }

  /** The inner counting loop: every IP of `s` counted once more. */
  method CountSet(counts: map<string, nat>, s: set<string>) returns (r: map<string, nat>)
    ensures forall ip :: ip in r <==> ip in counts || ip in s
    ensures forall ip :: ip in r ==> r[ip] == (if ip in counts then counts[ip] else 0) + (if ip in s then 1 else 0)
  {
    r := counts;
    var rest := s;
    while rest != {}
      invariant rest <= s
      invariant forall ip :: ip in r <==> ip in counts || ip in s - rest
      invariant forall ip :: ip in r ==> r[ip] == (if ip in counts then counts[ip] else 0) + (if ip in s - rest then 1 else 0)
      decreases rest
    {
      var ip :| ip in rest;
      var exist := if ip in r then r[ip] else 0;
      r := r[ip := exist + 1];
      rest := rest - {ip};
    }
  }

  /** The final loop: the IPs whose counter reached `n`. */
  method CountedTimes(counts: map<string, nat>, n: nat) returns (result: set<string>)
    ensures forall ip :: ip in result <==> ip in counts && counts[ip] == n
  {
    result := {};
    var pending := counts.Keys;
    while pending != {}
      invariant pending <= counts.Keys
      invariant forall ip :: ip in result <==> ip in counts && ip !in pending && counts[ip] == n
      decreases pending
    {
      var ip :| ip in pending;
      if counts[ip] == n {
        result := result + {ip};
      }
      pending := pending - {ip};
    }
  }

  /** The and-mode combination: a counter per IP, then the IPs counted once
      per set. */
  method IntersectByCount(ss: seq<set<string>>) returns (result: set<string>)
    ensures result == InAll(ss)
  {
    var counts: map<string, nat> := map[];
    var k := 0;
    while k < |ss|
      invariant 0 <= k <= |ss|
      invariant forall ip :: ip in counts <==> Occurrences(ss[..k], ip) > 0
      invariant forall ip :: ip in counts ==> counts[ip] == Occurrences(ss[..k], ip)
    {
      OccurrencesStep(ss, k);
      counts := CountSet(counts, ss[k]);
      k := k + 1;
    }
    assert ss[..k] == ss;
    result := CountedTimes(counts, |ss|);
    CountsSelectInAll(ss, counts, result);
  }

  /** The IPs counted once per set are those in every set. */
  lemma CountsSelectInAll(ss: seq<set<string>>, counts: map<string, nat>, result: set<string>)
    requires forall ip :: ip in counts <==> Occurrences(ss, ip) > 0
    requires forall ip :: ip in counts ==> counts[ip] == Occurrences(ss, ip)
    requires forall ip :: ip in result <==> ip in counts && counts[ip] == |ss|
    ensures result == InAll(ss)
  {
    forall ip
      ensures ip in result <==> ip in InAll(ss)
    {
      OccurrencesMeaning(ss, ip);
      if |ss| > 0 && Occurrences(ss, ip) == |ss| {
        assert ip in counts;
      }
    }
  }

  /** `diagnose_ip`: the IPs that the policy selects for the day `day`. */
  method DiagnoseIp(policy: Option<string>, day: int, lookup: Lookup) returns (r: Result<set<string>, DiagnoseError>)
    ensures policy.None? || policy.value == "" ==> r == Err(PolicyMissing)
    ensures policy.Some? && policy.value != "" && |ClauseStrings(policy.value)| > 2 ==> r == Err(PolicyMalformed)
    ensures policy.Some? && policy.value != "" && |ClauseStrings(policy.value)| <= 2 ==>
      r == match EvaluateAll(ClauseStrings(policy.value), day, lookup)
           case Err(e) => Err(e)
           case Ok(NoData) => Ok({})
           case Ok(Sets(ss)) => Ok(Combine(PolicyMode(policy.value), ss))
  {
    if policy.None? || policy.value == "" {
      return Err(PolicyMissing);
    }
    var text := policy.value;
    var policies := PolicyClauses(text);
    if |policies| > 2 {
      return Err(PolicyMalformed);
    }
    var mode := And;
    if Contains(text, "||") {
      mode := Or;
    }
    var evaluation := EvaluateClauses(policies, day, lookup);
    if evaluation.Err? {
      return Err(evaluation.error);
    }
    if evaluation.value.NoData? {
      return Ok({});
    }
    var ips := evaluation.value.sets;
    var result: set<string>;
    if mode == Or {
      result := UnionSets(ips);
    } else {
      result := IntersectByCount(ips);
    }
    return Ok(result);
  }

  /** One turn of the clause loop: what the whole evaluation is once the
      clause at `k` is evaluated after the sets `ips`. */
  lemma EvaluateLoopStep(policies: seq<string>, k: nat, ips: seq<set<string>>, day: int, lookup: Lookup)
    requires k < |policies|
    requires EvaluateAll(policies, day, lookup) == After(ips, EvaluateAll(policies[k..], day, lookup))
    ensures var f := EvaluateClause(policies[k], day, lookup);
      && (f.Err? ==> EvaluateAll(policies, day, lookup) == Err(f.error))
      && (f == Ok(None) ==> EvaluateAll(policies, day, lookup) == Ok(NoData))
      && (f.Ok? && f.value.Some? ==>
            EvaluateAll(policies, day, lookup) == After(ips + [f.value.value], EvaluateAll(policies[k + 1..], day, lookup)))
  {
    var rest := policies[k..];
    assert rest[0] == policies[k] && rest[1..] == policies[k + 1..];
    EvaluateAllStep(rest, day, lookup);
    var f := EvaluateClause(policies[k], day, lookup);
    if f.Ok? && f.value.Some? {
      AfterAfter(ips, [f.value.value], EvaluateAll(policies[k + 1..], day, lookup));
    }
  }

  /** The clause loop: the sets found so far, until an error or a clause
      without data ends it. */
  method EvaluateClauses(policies: seq<string>, day: int, lookup: Lookup) returns (r: Result<Evaluation, DiagnoseError>)
    ensures r == EvaluateAll(policies, day, lookup)
  {
    var ips: seq<set<string>> := [];
    var k := 0;
    assert policies[k..] == policies;
    AfterNothing(EvaluateAll(policies, day, lookup));
    while k < |policies|
      invariant 0 <= k <= |policies|
      invariant EvaluateAll(policies, day, lookup) == After(ips, EvaluateAll(policies[k..], day, lookup))
    {
      EvaluateLoopStep(policies, k, ips, day, lookup);
      var found := EvaluateOne(policies[k], day, lookup);
      if found.Err? {
        return Err(found.error);
      }
      if found.value.None? {
        return Ok(NoData);
      }
      ips := ips + [found.value.value];
      k := k + 1;
    }
    assert policies[k..] == [];
    assert ips + [] == ips;
    return Ok(Sets(ips));
  }

  lemma SplitEachStep(pieces: seq<string>, i: nat, sep: string)
    requires i < |pieces| && |sep| > 0
    ensures SplitEach(pieces[..i + 1], sep) == SplitEach(pieces[..i], sep) + Split(pieces[i], sep)
  {
    assert pieces[..i + 1][..i] == pieces[..i];
  }

  /** The inner push loop: the parts of one piece appended in order. */
  method AppendParts(policies: seq<string>, parts: seq<string>) returns (r: seq<string>)
    ensures r == policies + parts
  {
    r := policies;
    var j := 0;
    while j < |parts|
      invariant 0 <= j <= |parts|
      invariant r == policies + parts[..j]
    {
      assert parts[..j + 1] == parts[..j] + [parts[j]];
      r := r + [parts[j]];
      j := j + 1;
    }
    assert parts[..j] == parts;
  }

  /** The clause strings collected piece by piece. */
  method PolicyClauses(text: string) returns (policies: seq<string>)
    ensures policies == ClauseStrings(text)
  {
    var pieces := Split(text, "||");
    policies := [];
    var i := 0;
    while i < |pieces|
      invariant 0 <= i <= |pieces|
      invariant policies == SplitEach(pieces[..i], "&&")
    {
      var parts := Split(pieces[i], "&&");
      policies := AppendParts(policies, parts);
      SplitEachStep(pieces, i, "&&");
      i := i + 1;
    }
    assert pieces[..i] == pieces;
  }

  /** One iteration of the clause loop: validate, query, select. */
  method EvaluateOne(p: string, day: int, lookup: Lookup) returns (r: Result<Option<set<string>>, DiagnoseError>)
    ensures r == EvaluateClause(p, day, lookup)
  {
    var clause := ParseClause(p);
    if clause.Err? {
      return Err(clause.error);
    }
    var c := clause.value;
    var response := lookup(c.kind, WindowStart(c, day), day);
    if response.Err? {
      return Err(LookupFailed(response.error));
    }
    var resp := response.value;
    if resp.code != 200 {
      return Err(ApiError(resp.code, resp.error));
    }
    if resp.data.None? {
      return Ok(None);
    }
    var data := resp.data.value;
    if data.names.None? {
      return Err(MissingField);
    }
    var series := Top.Selected(data, c.kind);
    if series.None? {
      return Err(MissingField);
    }
    var kept := SelectIps(data.names.value, series.value, Threshold(c));
    if kept.None? {
      return Err(IndexOutOfRange);
    }
    return Ok(Some(kept.value));
  }

  /** One clause's selection loop over the series. */
  method SelectIps(names: seq<string>, series: seq<int>, threshold: int) returns (r: Option<set<string>>)
    ensures r == Kept(names, series, threshold)
  {
    var result: set<string> := {};
    var i := 0;
    while i < |series|
      invariant 0 <= i <= |series|
      invariant Kept(names, series[..i], threshold) == Some(result)
    {
      assert series[..i + 1][..i] == series[..i];
      if series[i] >= threshold {
        if i >= |names| {
          assert Kept(names, series[..i + 1], threshold).None?;
          assert Unnamed(names, series, threshold) by {
            assert series[..i + 1][i] == series[i];
          }
          return None;
        }
        result := result + {names[i]};
      }
      i := i + 1;
    }
    assert series[..i] == series;
    return Some(result);
  }

  // ---------------------------------------------------------------------
  // IP access list
  // ---------------------------------------------------------------------

  datatype AclType = Black | White | Blank

  /** The list and type sent by `ip_acl`. */
  datatype AclRequest = AclRequest(ips: seq<string>, kind: AclType)
  datatype AclResponse = AclResponse(code: Option<int>, error: Option<string>)

  /** The access list that is online: its type text and its values. */
  datatype OnlineAcl = OnlineAcl(kind: string, values: seq<string>)

  datatype AclError =
    | ParamConflict
    | EmptyIps
    | RequestFailed(message: string)
    | MissingAcl
    | ModeMismatch
    | Rejected(code: int, error: Option<string>)

  /** The returned count and the request that was sent, if any. */
  datatype AclOutcome = AclOutcome(count: nat, sent: Option<AclRequest>)

  type AclSender = AclRequest -> Result<AclResponse, string>

  function Flags(black: bool, white: bool, close: bool): nat {
    (if black then 1 else 0) + (if white then 1 else 0) + (if close then 1 else 0)
  }

  /** A `d`-prefixed entry names an IP to remove. */
  predicate IsRemoval(entry: string) {
    |entry| > 0 && entry[0] == 'd'
  }

  /** The removal entries, in order. */
  function Removals(entries: seq<string>): (r: seq<string>)
    ensures |r| <= |entries|
  {
    if |entries| == 0 then []
    else
      var init := entries[..|entries| - 1];
      var last := entries[|entries| - 1];
      Removals(init) + (if IsRemoval(last) then [last] else [])
  }

  /** The other entries, in order. */
  function Additions(entries: seq<string>): (r: seq<string>)
    ensures |r| <= |entries|
  {
    if |entries| == 0 then []
    else
      var init := entries[..|entries| - 1];
      var last := entries[|entries| - 1];
      Additions(init) + (if IsRemoval(last) then [] else [last])
  }

  /** The removals are exactly the `d`-prefixed entries and the additions
      exactly the others. */
  lemma {:induction false} PartsCharacterized(entries: seq<string>)
    ensures forall e :: e in Removals(entries) <==> e in entries && IsRemoval(e)
    ensures forall e :: e in Additions(entries) <==> e in entries && !IsRemoval(e)
    decreases |entries|
  {
    if |entries| > 0 {
      var init := entries[..|entries| - 1];
      var last := entries[|entries| - 1];
      PartsCharacterized(init);
      assert entries == init + [last];
    }
  }

  /** The parts of a list with one more entry. */
  lemma PartsSnoc(entries: seq<string>)
    requires |entries| > 0
    ensures var init, last := entries[..|entries| - 1], entries[|entries| - 1];
      && multiset(Removals(entries)) == multiset(Removals(init)) + (if IsRemoval(last) then multiset{last} else multiset{})
      && multiset(Additions(entries)) == multiset(Additions(init)) + (if IsRemoval(last) then multiset{} else multiset{last})
      && multiset(entries) == multiset(init) + multiset{last}
  {
    var init, last := entries[..|entries| - 1], entries[|entries| - 1];
    assert entries == init + [last];
  }

  /** The two parts together hold every entry as often as the input. */
  lemma {:induction false} PartitionComplete(entries: seq<string>)
    ensures multiset(Removals(entries)) + multiset(Additions(entries)) == multiset(entries)
    decreases |entries|
  {
    if |entries| > 0 {
      PartitionComplete(entries[..|entries| - 1]);
      PartsSnoc(entries);
    }
  }

  /** The online values appended to `acc`, skipping the ones already listed
      and the ones removed by a `d<ip>` entry. */
  function Merge(acc: seq<string>, removals: seq<string>, online: seq<string>): (r: seq<string>)
    ensures |acc| <= |r| && r[..|acc|] == acc
    ensures forall ip :: ip in r <==> ip in acc || (ip in online && "d" + ip !in removals)
    ensures forall i :: |acc| <= i < |r| ==> r[i] !in acc
    ensures forall i, j :: |acc| <= i < j < |r| ==> r[i] != r[j]
    decreases |online|
  {
    if |online| == 0 then acc
    else
      var ip := online[0];
      assert forall x :: x in online <==> x == ip || x in online[1..];
      if ip in acc || "d" + ip in removals then Merge(acc, removals, online[1..])
      else
        var r := Merge(acc + [ip], removals, online[1..]);
        assert r[..|acc|] == (acc + [ip])[..|acc|];
        assert r[|acc|] == ip;
        r
  }

  function Requested(black: bool): AclType {
    if black then Black else White
  }

  /** Whether the online type is the type being set. */
  predicate ShouldMerge(onlineKind: string, black: bool, white: bool) {
    (onlineKind == "white" && white) || (onlineKind == "black" && black)
  }

  /** The list an append sends: the additions, then the online values when
      the types match. */
  function AppendList(entries: seq<string>, online: OnlineAcl, black: bool, white: bool): seq<string> {
    if ShouldMerge(online.kind, black, white) then Merge(Additions(entries), Removals(entries), online.values)
    else Additions(entries)
  }

  /** The outcome of sending `request`: a failed request, a rejecting code,
      or the number of IPs sent. */
  function Finish(request: AclRequest, response: Result<AclResponse, string>): (r: Result<AclOutcome, AclError>)
    ensures r.Ok? <==> response.Ok? && (response.value.code.None? || response.value.code.value == 200)
    ensures r.Ok? ==> r.value == AclOutcome(|request.ips|, Some(request))
  {
    match response
    case Err(m) => Err(RequestFailed(m))
    case Ok(a) =>
      if a.code.Some? && a.code.value != 200 then Err(Rejected(a.code.value, a.error))
      else Ok(AclOutcome(|request.ips|, Some(request)))
  }

  /** When the types match, every new entry is online already and no
      removal applies, nothing new would be sent, so the call is skipped. */
  lemma NothingNewIsSkipped(entries: seq<string>, online: OnlineAcl, black: bool, white: bool)
    requires ShouldMerge(online.kind, black, white)
    requires forall e :: e in Additions(entries) ==> e in online.values
    ensures forall ip :: ip in AppendList(entries, online, black, white) ==> ip in online.values
    ensures Elements(online.values) - Elements(AppendList(entries, online, black, white))
         == set ip | ip in online.values && "d" + ip in Removals(entries) && ip !in Additions(entries)
  {
    PartsCharacterized(entries);
  }

  /** `set_ip_acl`. `info` is the result of the domain query that the
      append mode makes; `send` issues the access-list request. */
  method SetIpAcl(black: bool, white: bool, close: bool, ips: string, rewrite: bool,
                  info: Result<Option<OnlineAcl>, string>, send: AclSender)
    returns (r: Result<AclOutcome, AclError>)
    ensures Flags(black, white, close) != 1 ==> r == Err(ParamConflict)
    ensures Flags(black, white, close) == 1 && (black || white) && ips == "" ==> r == Err(EmptyIps)
    ensures Flags(black, white, close) == 1 && close ==>
      r == if send(AclRequest([], Blank)).Err? then Err(RequestFailed(send(AclRequest([], Blank)).error))
           else Ok(AclOutcome(0, Some(AclRequest([], Blank))))
    ensures Flags(black, white, close) == 1 && !close && ips != "" && rewrite ==>
      var request := AclRequest(Split(ips, ","), Requested(black));
      r == Finish(request, send(request))
    ensures Flags(black, white, close) == 1 && !close && ips != "" && !rewrite ==>
      if info.Err? then r == Err(RequestFailed(info.error))
      else if info.value.None? then r == Err(MissingAcl)
      else
        var entries := Split(ips, ",");
        var online := info.value.value;
        var list := AppendList(entries, online, black, white);
        if ShouldMerge(online.kind, black, white) && |list| > 0 && forall ip :: ip in list ==> ip in online.values then
          r == Ok(AclOutcome(0, None))
        else if !ShouldMerge(online.kind, black, white) && |Removals(entries)| > 0 then
          r == Err(ModeMismatch)
        else
          var request := AclRequest(list, if |list| == 0 then Blank else Requested(black));
          r == Finish(request, send(request))
  {
    var checkNum := 0;
    var kind := Blank;
    if black {
      checkNum := checkNum + 1;
      kind := Black;
    }
    if white {
      checkNum := checkNum + 1;
      kind := White;
    }
    if close {
      checkNum := checkNum + 1;
      kind := Blank;
    }
    if checkNum != 1 {
      return Err(ParamConflict);
    }
    if (white || black) && ips == "" {
      return Err(EmptyIps);
    }
    if close {
      var response := send(AclRequest([], Blank));
      if response.Err? {
        return Err(RequestFailed(response.error));
      }
      return Ok(AclOutcome(0, Some(AclRequest([], Blank))));
    }
    var entries := Split(ips, ",");
    if rewrite {
      var request := AclRequest(entries, kind);
      var response := send(request);
      return Finish(request, response);
    }
    if info.Err? {
      return Err(RequestFailed(info.error));
    }
    if info.value.None? {
      return Err(MissingAcl);
    }
    var online := info.value.value;
    var removals, list := Removals(entries), Additions(entries);
    var shouldMerge := false;
    if online.kind == "white" && white {
      shouldMerge := true;
    }
    if online.kind == "black" && black {
      shouldMerge := true;
    }
    if shouldMerge {
      list := MergeOnline(list, removals, online.values);
      var shouldInvoke := AnyNew(list, online.values);
      if !shouldInvoke && |list| > 0 {
        return Ok(AclOutcome(0, None));
      }
    } else if |removals| > 0 {
      return Err(ModeMismatch);
    }
    if |list| == 0 {
      kind := Blank;
    }
    var request := AclRequest(list, kind);
    var response := send(request);
    return Finish(request, response);
  }

  /** The merge loop: each online value appended unless listed or removed. */
  method MergeOnline(additions: seq<string>, removals: seq<string>, online: seq<string>) returns (list: seq<string>)
    ensures list == Merge(additions, removals, online)
  {
    list := additions;
    var i := 0;
    while i < |online|
      invariant 0 <= i <= |online|
      invariant Merge(list, removals, online[i..]) == Merge(additions, removals, online)
    {
      var ip := online[i];
      assert online[i..][0] == ip && online[i..][1..] == online[i + 1..];
      if !(ip in list || "d" + ip in removals) {
        list := list + [ip];
      }
      i := i + 1;
    }
  }

  /** Whether some listed IP is not online, scanning until the first one. */
  method AnyNew(list: seq<string>, online: seq<string>) returns (found: bool)
    ensures found <==> exists ip :: ip in list && ip !in online
  {
    var j := 0;
    while j < |list|
      invariant 0 <= j <= |list|
      invariant forall t :: 0 <= t < j ==> list[t] in online
    {
      if list[j] !in online {
        return true;
      }
      j := j + 1;
    }
    return false;
  }

}
