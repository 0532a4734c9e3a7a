/** Request assembly (src/lib.rs): the sign method and API host of each
    sub-function, and the header, authorization and method handling that
    `Client::do_request` performs before sending.

    The header map is a sequence of `(name, value)` entries in iteration
    order with names taken as given; JSON serialisation of the payload is
    done by the caller, so the payload arrives as its text. */
module Request {
  import opened Wrappers
  import opened Strings
  import opened Token

  datatype SubFunction =
    | Traffic | Refresh | Log | Domain | Prefetch
    | AnalysisTop | AnalysisStatus | AnalysisIsp | AnalysisHitmiss | AnalysisCount

  datatype SignMethod = Method1 | Method2

  /** `get_sign_method`: log, refresh and prefetch requests use the second
      token version; every other sub-function the first. */
  function GetSignMethod(f: SubFunction): (m: SignMethod)
    ensures m == Method2 <==> f == Log || f == Refresh || f == Prefetch
  {
    if f in [Log, Refresh, Prefetch] then Method2 else Method1
  }

  const DomainHost: string := "api.qiniu.com"
  const FusionHost: string := "fusion.qiniuapi.com"

  /** `get_host`: the domain API lives on its own host. */
  function GetHost(f: SubFunction): (h: string)
    ensures h == DomainHost <==> f == Domain
    ensures h == FusionHost <==> f != Domain
  {
    if f == Domain then DomainHost else FusionHost
  }

  /** The client keeps the credentials of its configuration, the host and
      the sign method. */
  datatype Client = Client(cred: Credential, host: string, signMethod: SignMethod)

  /** `Client::new`: host and sign method are those of the sub-function. */
  function NewClient(cred: Credential, f: SubFunction): (c: Client)
    ensures c.cred == cred
    ensures f == Domain ==> c.host == DomainHost
    ensures f != Domain ==> c.host == FusionHost
    ensures c.signMethod == Method2 <==> f == Log || f == Refresh || f == Prefetch
  {
    Client(cred, GetHost(f), GetSignMethod(f))
  }

  type Header = (string, string)

  /** The value of the first entry with this name (`HeaderMap::get`). */
  function Lookup(h: seq<Header>, name: string): (r: Option<string>)
    ensures r.Some? <==> exists i :: 0 <= i < |h| && h[i].0 == name
    ensures r.Some? ==> exists i :: 0 <= i < |h| && h[i] == (name, r.value)
  {
    if |h| == 0 then None
    else if h[0].0 == name then Some(h[0].1)
    else
      var r := Lookup(h[1..], name);
      assert forall i :: 0 <= i < |h[1..]| ==> h[1..][i] == h[i + 1];
      assert h[0].0 != name ==> ((exists i :: 0 <= i < |h| && h[i].0 == name) <==> (exists i :: 0 <= i < |h[1..]| && h[1..][i].0 == name)) by {
        if exists i :: 0 <= i < |h| && h[i].0 == name {
          var i :| 0 <= i < |h| && h[i].0 == name;
          assert i > 0 ==> h[1..][i - 1].0 == name;
        }
      }
      r
  }

  /** The entries not named `name`. */
  function Without(h: seq<Header>, name: string): (r: seq<Header>)
    ensures forall i :: 0 <= i < |r| ==> r[i].0 != name && r[i] in h
  {
    if |h| == 0 then []
    else (if h[0].0 == name then [] else [h[0]]) + Without(h[1..], name)
  }

  /** `HeaderMap::insert`: the value replaces every value under that name,
      taking the place of the first; a new name goes at the end. */
  function InsertHeader(h: seq<Header>, name: string, value: string): (r: seq<Header>)
    ensures (name, value) in r
    ensures forall i :: 0 <= i < |r| ==> (r[i].0 == name ==> r[i].1 == value) && (r[i] == (name, value) || r[i] in h)
  {
    if |h| == 0 then [(name, value)]
    else if h[0].0 == name then [(name, value)] + Without(h[1..], name)
    else [h[0]] + InsertHeader(h[1..], name, value)
  }

  lemma {:induction false} LookupWithout(h: seq<Header>, name: string, other: string)
    requires other != name
    ensures Lookup(Without(h, name), other) == Lookup(h, other)
    decreases |h|
  {
    if |h| > 0 {
      LookupWithout(h[1..], name, other);
      var w := Without(h[1..], name);
      if h[0].0 != name {
        assert Without(h, name) == [h[0]] + w;
        assert ([h[0]] + w)[1..] == w;
        assert ([h[0]] + w)[0] == h[0];
      } else {
        assert Without(h, name) == [] + w == w;
      }
    }
  }

  /** After an insert the name maps to the new value, and every other name
      maps to what it mapped to before. */
  lemma {:induction false} LookupInsert(h: seq<Header>, name: string, value: string, other: string)
    ensures Lookup(InsertHeader(h, name, value), name) == Some(value)
    ensures other != name ==> Lookup(InsertHeader(h, name, value), other) == Lookup(h, other)
    decreases |h|
  {
    if |h| > 0 {
      if h[0].0 == name {
        var r := [(name, value)] + Without(h[1..], name);
        assert r[1..] == Without(h[1..], name);
        if other != name {
          LookupWithout(h[1..], name, other);
        }
      } else {
        var r := [h[0]] + InsertHeader(h[1..], name, value);
        assert r[1..] == InsertHeader(h[1..], name, value);
        LookupInsert(h[1..], name, value, other);
      }
    }
  }

  /** `HeaderValue::from_str` accepts tab and every byte from space upwards
      except DEL; characters beyond ASCII encode to such bytes. */
  predicate ValidHeaderValue(v: string) {
    forall i :: 0 <= i < |v| ==> v[i] == '\t' || (' ' <= v[i] && v[i] != '\U{007F}')
  }

  const ContentType: string := "Content-Type"
  const Authorization: string := "Authorization"
  const JsonContentType: string := "application/json"

  function AuthPrefix(m: SignMethod): (p: string)
    ensures m == Method1 ==> p == "QBox "
    ensures m == Method2 ==> p == "Qiniu "
  {
    match m
    case Method1 => "QBox "
    case Method2 => "Qiniu "
  }

  datatype HttpVerb = Get | Post | Put

  /** The method, matched after upper-casing: only GET, POST and PUT. */
  function ParseVerb(verb: string): (r: Option<HttpVerb>)
    ensures r == Some(Get) <==> UpperAscii(verb) == "GET"
    ensures r == Some(Post) <==> UpperAscii(verb) == "POST"
    ensures r == Some(Put) <==> UpperAscii(verb) == "PUT"
  {
    var m := UpperAscii(verb);
    if m == "GET" then Some(Get)
    else if m == "POST" then Some(Post)
    else if m == "PUT" then Some(Put)
    else None
  }

  datatype BaseResponse = BaseResponse(code: int, error: string)

  datatype RequestError =
    | InvalidHeaderValue          // `HeaderValue::from_str(..).unwrap()` panics
    | Signing(cause: TokenError)
    | UnsupportedMethod(verb: string)
    | Status(status: int, detail: Option<BaseResponse>)
    | BadResponseBody

  /** What is sent: the method, the header entries, and the body, which is
      attached only when it is non-empty. */
  datatype Outgoing = Outgoing(verb: HttpVerb, headers: seq<Header>, body: Option<string>)

  /** The header map once `Content-Type` is settled: kept when present,
      otherwise the content-type argument, or `application/json`. */
  function SettledHeaders(headers: Option<seq<Header>>, contentType: Option<string>): Result<seq<Header>, RequestError>
  {
    var h := headers.GetOr([]);
    if Lookup(h, ContentType).Some? then Ok(h)
    else
      var v := contentType.GetOr(JsonContentType);
      if ValidHeaderValue(v) then Ok(InsertHeader(h, ContentType, v)) else Err(InvalidHeaderValue)
  }

  /** The token the client's sign method produces for the settled headers. */
  ghost function RequestToken(client: Client, digest: Digest, verb: string, url: Option<ParsedUrl>,
                              settled: seq<Header>, contentType: Option<string>, data: Option<string>)
    : Result<string, TokenError>
  {
    match client.signMethod
    case Method1 => GenerateV1(client.cred, digest, url, contentType, data)
    case Method2 => V2Token(client.cred, digest, verb, url, settled, contentType, data)
  }

  /** What `do_request` does before sending: settle `Content-Type`, sign,
      add `Authorization`, then check the method. */
  ghost function Prepare(client: Client, digest: Digest, verb: string, url: Option<ParsedUrl>,
                         headers: Option<seq<Header>>, contentType: Option<string>, data: Option<string>)
    : (r: Result<Outgoing, RequestError>)
    ensures r.Ok? ==> ParseVerb(verb) == Some(r.value.verb)
    ensures r.Ok? ==> var auth := Lookup(r.value.headers, Authorization);
      auth.Some? && StartsWith(auth.value, AuthPrefix(client.signMethod))
    ensures r.Ok? && r.value.body.Some? ==> data == r.value.body && data.value != ""
  {
    var settled :- SettledHeaders(headers, contentType);
    var token := RequestToken(client, digest, verb, url, settled, contentType, data);
    if token.Err? then Err(Signing(token.error))
    else
      var auth := AuthPrefix(client.signMethod) + token.value;
      LookupInsert(settled, Authorization, auth, Authorization);
      if !ValidHeaderValue(auth) then Err(InvalidHeaderValue)
      else
        match ParseVerb(verb)
        case None => Err(UnsupportedMethod(verb))
        case Some(v) =>
          Ok(Outgoing(v, InsertHeader(settled, Authorization, auth),
                      if data.Some? && data.value != "" then data else None))
  }

  /** The request-building half of `do_request`, step by step on the header
      map. */
  method PrepareRequest(client: Client, digest: Digest, verb: string, url: Option<ParsedUrl>,
                        headers: Option<seq<Header>>, contentType: Option<string>, data: Option<string>)
    returns (r: Result<Outgoing, RequestError>)
    ensures r == Prepare(client, digest, verb, url, headers, contentType, data)
  {
    var header: seq<Header> := [];
    if headers.Some? {
      header := headers.value;
    }
    if Lookup(header, ContentType).None? {
      var v := JsonContentType;
      if contentType.Some? {
        v := contentType.value;
      }
      if !ValidHeaderValue(v) {
        return Err(InvalidHeaderValue);
      }
      header := InsertHeader(header, ContentType, v);
    }
    var sign: Result<string, TokenError>;
    if client.signMethod == Method1 {
      sign := GenerateV1(client.cred, digest, url, contentType, data);
    } else {
      sign := GenerateV2(client.cred, digest, verb, url, header, contentType, data);
    }
    if sign.Err? {
      return Err(Signing(sign.error));
    }
    var authorization := AuthPrefix(client.signMethod) + sign.value;
    if !ValidHeaderValue(authorization) {
      return Err(InvalidHeaderValue);
    }
    header := InsertHeader(header, Authorization, authorization);
    var m := ParseVerb(verb);
    if m.None? {
      return Err(UnsupportedMethod(verb));
    }
    var body: Option<string> := None;
    if data.Some? && data.value != "" {
      body := data;
    }
    return Ok(Outgoing(m.value, header, body));
  }

  /** A `Content-Type` the caller supplied is never overwritten; otherwise the
      content-type argument is used, falling back to `application/json`. */
  lemma PrepareContentType(client: Client, digest: Digest, verb: string, url: Option<ParsedUrl>,
                           headers: Option<seq<Header>>, contentType: Option<string>, data: Option<string>)
    ensures var r := Prepare(client, digest, verb, url, headers, contentType, data);
      var given := Lookup(headers.GetOr([]), ContentType);
      r.Ok? ==> Lookup(r.value.headers, ContentType)
                == if given.Some? then given else Some(contentType.GetOr(JsonContentType))
  {
    var r := Prepare(client, digest, verb, url, headers, contentType, data);
    if r.Ok? {
      var h := headers.GetOr([]);
      var settled := SettledHeaders(headers, contentType).value;
      if Lookup(h, ContentType).None? {
        LookupInsert(h, ContentType, contentType.GetOr(JsonContentType), ContentType);
      }
      var token := RequestToken(client, digest, verb, url, settled, contentType, data).value;
      LookupInsert(settled, Authorization, AuthPrefix(client.signMethod) + token, ContentType);
    }
  }

  /** The `Authorization` header is `QBox ` and a first-version token, or
      `Qiniu ` and a second-version token, matching the client's method. */
  lemma PrepareAuthorization(client: Client, digest: Digest, verb: string, url: Option<ParsedUrl>,
                             headers: Option<seq<Header>>, contentType: Option<string>, data: Option<string>)
    ensures var r := Prepare(client, digest, verb, url, headers, contentType, data);
      r.Ok? ==> exists token ::
        Lookup(r.value.headers, Authorization) == Some(AuthPrefix(client.signMethod) + token)
        && StartsWith(token, client.cred.accessKey + ":")
        && (client.signMethod == Method1 ==> GenerateV1(client.cred, digest, url, contentType, data) == Ok(token))
        && (client.signMethod == Method2 ==>
              V2Token(client.cred, digest, verb, url, SettledHeaders(headers, contentType).value, contentType, data) == Ok(token))
  {
    var r := Prepare(client, digest, verb, url, headers, contentType, data);
    if r.Ok? {
      var settled := SettledHeaders(headers, contentType).value;
      var token := RequestToken(client, digest, verb, url, settled, contentType, data).value;
      TokenStartsWithKey(client, digest, verb, url, settled, contentType, data);
      LookupInsert(settled, Authorization, AuthPrefix(client.signMethod) + token, Authorization);
      assert Lookup(r.value.headers, Authorization) == Some(AuthPrefix(client.signMethod) + token);
    }
  }

  lemma TokenStartsWithKey(client: Client, digest: Digest, verb: string, url: Option<ParsedUrl>,
                           settled: seq<Header>, contentType: Option<string>, data: Option<string>)
    ensures var t := RequestToken(client, digest, verb, url, settled, contentType, data);
      t.Ok? ==> StartsWith(t.value, client.cred.accessKey + ":")
  {
  }

  /** A first-version client signs the same token whatever the method and
      the headers, as long as the request is built at all. */
  lemma V1IgnoresVerbAndHeaders(client: Client, digest: Digest, verb1: string, verb2: string,
                                url: Option<ParsedUrl>, h1: Option<seq<Header>>, h2: Option<seq<Header>>,
                                contentType: Option<string>, data: Option<string>)
    requires client.signMethod == Method1
    ensures var r1 := Prepare(client, digest, verb1, url, h1, contentType, data);
      var r2 := Prepare(client, digest, verb2, url, h2, contentType, data);
      r1.Ok? && r2.Ok? ==> Lookup(r1.value.headers, Authorization) == Lookup(r2.value.headers, Authorization)
  {
    var r1 := Prepare(client, digest, verb1, url, h1, contentType, data);
    var r2 := Prepare(client, digest, verb2, url, h2, contentType, data);
    if r1.Ok? && r2.Ok? {
      var token := GenerateV1(client.cred, digest, url, contentType, data).value;
      var s1 := SettledHeaders(h1, contentType).value;
      var s2 := SettledHeaders(h2, contentType).value;
      LookupInsert(s1, Authorization, "QBox " + token, Authorization);
      LookupInsert(s2, Authorization, "QBox " + token, Authorization);
    }
  }

  /** Once the headers are valid and signing succeeds, the request fails
      exactly when the upper-cased method is not GET, POST or PUT; a signing
      failure is reported before the method is looked at. */
  lemma PrepareVerb(client: Client, digest: Digest, verb: string, url: Option<ParsedUrl>,
                    headers: Option<seq<Header>>, contentType: Option<string>, data: Option<string>)
    ensures var r := Prepare(client, digest, verb, url, headers, contentType, data);
      r.Err? && r.error.UnsupportedMethod? ==> UpperAscii(verb) !in ["GET", "POST", "PUT"]
    ensures var r := Prepare(client, digest, verb, url, headers, contentType, data);
      r.Ok? ==> UpperAscii(verb) in ["GET", "POST", "PUT"]
    ensures url.None? && SettledHeaders(headers, contentType).Ok? ==>
      Prepare(client, digest, verb, url, headers, contentType, data) == Err(Signing(UrlParseError))
  {
  }

  /** The non-debug response handling: a status outside 200..299 is an error
      carrying the status and, when the body parses as the error shape, its
      code and message; a success whose body does not decode is an error too. */
  function InterpretResponse<T>(status: int, asError: Option<BaseResponse>, asValue: Option<T>): (r: Result<T, RequestError>)
    ensures r.Ok? <==> 200 <= status < 300 && asValue.Some?
    ensures r.Ok? ==> r.value == asValue.value
    ensures !(200 <= status < 300) ==> r == Err(Status(status, asError))
  {
    if !(200 <= status < 300) then Err(Status(status, asError))
    else if asValue.None? then Err(BadResponseBody)
    else Ok(asValue.value)
  }
}
