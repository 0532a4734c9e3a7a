/** The sampling granularity of the analytics queries and its textual form
    (src/analysis/mod.rs). */
module Freq {
  import opened Wrappers

  datatype Freq = FiveMin | OneHour | OneDay

  /** `From<String>`: the three spellings the API uses; any other string
      is a panic, modelled as `Err`. */
  function FromString(value: string): (r: Result<Freq, string>)
    ensures r.Ok? <==> value in {"1day", "1hour", "5min"}
    ensures value == "1day" ==> r == Ok(OneDay)
    ensures value == "1hour" ==> r == Ok(OneHour)
    ensures value == "5min" ==> r == Ok(FiveMin)
  {
    if value == "1day" then Ok(OneDay)
    else if value == "1hour" then Ok(OneHour)
    else if value == "5min" then Ok(FiveMin)
    else Err("invalid value")
  }

  /** `Display`. */
  function ToString(f: Freq): (s: string)
    ensures s in {"1day", "1hour", "5min"}
  {
    match f
    case FiveMin => "5min"
    case OneDay => "1day"
    case OneHour => "1hour"
  }

  /** Displaying a frequency and reading it back gives the same frequency,
      and distinct frequencies display differently. */
  lemma RoundTrip(f: Freq)
    ensures FromString(ToString(f)) == Ok(f)
    ensures forall g :: ToString(g) == ToString(f) ==> g == f
  {
    assert "1day" != "1hour" && "1day" != "5min" && "1hour" != "5min";
  }
}
