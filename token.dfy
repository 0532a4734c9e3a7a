/** Management-credential tokens (src/utils/token.rs).

    A token is `access_key:digest`, where the digest is the URL-safe base64 of
    the HMAC-SHA1 of a canonical request string under the secret key. The
    digest is a parameter of the model (`Digest`); the URL arrives already
    parsed (`None` when it does not parse). Request bodies are the JSON text
    the client serialises, so the lossy UTF-8 decoding the source applies to
    them is the identity and bodies are modelled as strings. */
module Token {
  import opened Wrappers
  import opened Strings
  import opened Sorting

  /** `urlsafe_base64(hmac_sha1(key, message))`. */
  type Digest = (string, string) -> string

  datatype Credential = Credential(accessKey: string, secretKey: string)

  /** The parts of a parsed URL that the canonical strings use. */
  datatype ParsedUrl = ParsedUrl(host: Option<string>, path: string, query: Option<string>)

  datatype TokenError =
    | UrlParseError        // `Url::parse` failed
    | MissingHost          // `url.host().unwrap()` panics
    | HeaderValueNotText   // `HeaderValue::to_str().unwrap()` panics

  const FormUrlencoded: string := "application/x-www-form-urlencoded"
  const OctetStream: string := "application/octet-stream"
  const QiniuPrefix: string := "X-Qiniu-"

  /** `access_key:digest(secret_key, canonical)`. */
  function Sign(cred: Credential, digest: Digest, canonical: string): (token: string)
    ensures StartsWith(token, cred.accessKey + ":")
    ensures token[|cred.accessKey| + 1..] == digest(cred.secretKey, canonical)
  {
    cred.accessKey + ":" + digest(cred.secretKey, canonical)
  }

  /** When the access key holds no colon, the text before the token's first
      colon is the access key and the rest is the digest, so a token names its
      key unambiguously. */
  lemma TokenParts(cred: Credential, digest: Digest, canonical: string)
    requires ':' !in cred.accessKey
    ensures Split(Sign(cred, digest, canonical), ":")[0] == cred.accessKey
  {
    var token := Sign(cred, digest, canonical);
    var n := |cred.accessKey|;
    assert token[n..n + 1] == ":";
    if Contains(token[..n], ":") {
      assert token[..n] == cred.accessKey;
      ContainsChar(cred.accessKey, ':');
    }
    FindFirstOccurrence(token, ":", n);
  }

  /** The request target: the path, then `?query` when the URL has a query. */
  function PathAndQuery(u: ParsedUrl): string {
    if u.query.Some? then u.path + "?" + u.query.value else u.path
  }

  /** The body part of a v1 canonical string: present only for a non-empty
      form-encoded body. */
  function V1Body(contentType: Option<string>, body: Option<string>): (r: string)
    ensures r != "" <==> contentType == Some(FormUrlencoded) && body.Some? && body.value != ""
    ensures r != "" ==> r == body.value
  {
    if contentType == Some(FormUrlencoded) && body.Some? && |body.value| > 0 then body.value else ""
  }

  /** The first-version canonical string. */
  function CanonicalV1(u: ParsedUrl, contentType: Option<string>, body: Option<string>): (c: string)
    ensures var target := PathAndQuery(u);
      |c| == |target| + 1 + |V1Body(contentType, body)|
      && c[..|target|] == target && c[|target|] == '\n' && c[|target| + 1..] == V1Body(contentType, body)
  {
    PathAndQuery(u) + "\n" + V1Body(contentType, body)
  }

  /** `generate_v1`: fails exactly when the URL does not parse. Method and
      headers are not inputs, so they cannot affect the token. */
  function GenerateV1(cred: Credential, digest: Digest, url: Option<ParsedUrl>,
                      contentType: Option<string>, body: Option<string>): (r: Result<string, TokenError>)
    ensures r.Err? <==> url.None?
    ensures r.Err? ==> r.error == UrlParseError
    ensures r.Ok? ==> r.value == Sign(cred, digest, CanonicalV1(url.value, contentType, body))
  {
    match url
    case None => Err(UrlParseError)
    case Some(u) => Ok(Sign(cred, digest, CanonicalV1(u, contentType, body)))
  }

  /** A v1 canonical string splits at its first newline into the request
      target and the signed body, provided the target has no newline. */
  lemma V1Decode(u: ParsedUrl, contentType: Option<string>, body: Option<string>)
    requires '\n' !in PathAndQuery(u)
    ensures var c := CanonicalV1(u, contentType, body);
      Find(c, "\n") == Some(|PathAndQuery(u)|)
      && c[..|PathAndQuery(u)|] == PathAndQuery(u)
      && c[|PathAndQuery(u)| + 1..] == V1Body(contentType, body)
  {
    var c := CanonicalV1(u, contentType, body);
    var n := |PathAndQuery(u)|;
    assert c[..n] == PathAndQuery(u);
    assert c[n..n + 1] == "\n";
    if Contains(c[..n], "\n") {
      ContainsChar(c[..n], '\n');
    }
    FindFirstOccurrence(c, "\n", n);
  }

  /** `HeaderValue::to_str` succeeds only on visible ASCII and tab. */
  predicate IsHeaderText(v: string) {
    forall i :: 0 <= i < |v| ==> v[i] == '\t' || (' ' <= v[i] <= '~')
  }

  /** The value of every `X-Qiniu-` header converts to text. */
  predicate QiniuValuesText(headers: seq<(string, string)>) {
    forall i :: 0 <= i < |headers| && StartsWith(headers[i].0, QiniuPrefix) ==> IsHeaderText(headers[i].1)
  }

  /** The `X-Qiniu-` headers, prefix stripped, in a map where a later value
      for a name replaces an earlier one. */
  function QiniuHeaders(headers: seq<(string, string)>): map<string, string>
    decreases |headers|
  {
    if |headers| == 0 then map[]
    else
      var m := QiniuHeaders(headers[..|headers| - 1]);
      var name := headers[|headers| - 1].0;
      if StartsWith(name, QiniuPrefix) then m[name[|QiniuPrefix|..] := headers[|headers| - 1].1] else m
  }

  predicate NamedAt(headers: seq<(string, string)>, k: string, i: int) {
    0 <= i < |headers| && headers[i].0 == QiniuPrefix + k
  }

  /** `k` is a stripped name exactly when some header is named
      `X-Qiniu-` + `k`, and its value is that of the last such header. */
  lemma {:induction false} QiniuHeadersSpec(headers: seq<(string, string)>, k: string)
    ensures k in QiniuHeaders(headers) <==> exists i :: NamedAt(headers, k, i)
    ensures k in QiniuHeaders(headers) ==>
      exists i :: NamedAt(headers, k, i) && QiniuHeaders(headers)[k] == headers[i].1
        && forall j :: i < j < |headers| ==> !NamedAt(headers, k, j)
    decreases |headers|
  {
    if |headers| > 0 {
      var n := |headers| - 1;
      var init := headers[..n];
      QiniuHeadersSpec(init, k);
      var name := headers[n].0;
      assert StartsWith(name, QiniuPrefix) && name[|QiniuPrefix|..] == k <==> name == QiniuPrefix + k by {
        if name == QiniuPrefix + k {
          assert name[..|QiniuPrefix|] == QiniuPrefix;
        }
        if StartsWith(name, QiniuPrefix) && name[|QiniuPrefix|..] == k {
          assert name == name[..|QiniuPrefix|] + name[|QiniuPrefix|..];
        }
      }
      forall i | NamedAt(init, k, i) ensures NamedAt(headers, k, i) {
      }
      forall i | NamedAt(headers, k, i) && i < n ensures NamedAt(init, k, i) {
      }
      if name == QiniuPrefix + k {
        assert NamedAt(headers, k, n);
      } else if k in QiniuHeaders(headers) {
        var i :| NamedAt(init, k, i) && QiniuHeaders(init)[k] == init[i].1
          && forall j :: i < j < |init| ==> !NamedAt(init, k, j);
        assert NamedAt(headers, k, i);
      }
    }
  }

  /** One `name: value` line per stripped header name, in the given order. */
  function HeaderLines(m: map<string, string>, keys: seq<string>): (lines: seq<string>)
    requires forall k :: k in keys ==> k in m
    ensures |lines| == |keys|
  {
    seq(|keys|, i requires 0 <= i < |keys| => keys[i] + ": " + m[keys[i]])
  }

  /** The request line, the `Host` line and, when a content type is given,
      the `Content-Type` line. */
  function FixedLinesV2(verb: string, u: ParsedUrl, host: string, contentType: Option<string>): (lines: seq<string>)
    ensures |lines| >= 2
  {
    [UpperAscii(verb) + " " + PathAndQuery(u), "Host: " + host]
    + (if contentType.Some? then ["Content-Type: " + contentType.value] else [])
  }

  /** The lines before the blank line of a v2 canonical string. */
  ghost function HeadLinesV2(verb: string, u: ParsedUrl, host: string, contentType: Option<string>,
                             qiniu: map<string, string>): (lines: seq<string>)
    ensures |lines| >= 2
  {
    FixedLinesV2(verb, u, host, contentType) + HeaderLines(qiniu, AscendingKeys(qiniu.Keys))
  }

  /** The body part of a v2 canonical string: any body, unless the content
      type is `application/octet-stream`. */
  function V2Body(contentType: Option<string>, body: Option<string>): (r: string)
    ensures body.Some? && contentType != Some(OctetStream) ==> r == body.value
    ensures body.None? || contentType == Some(OctetStream) ==> r == ""
  {
    if (contentType.None? || contentType.value != OctetStream) && body.Some? then body.value else ""
  }

  /** The second-version canonical string: the head lines joined by newlines,
      a blank line, then the body part. */
  ghost function CanonicalV2(verb: string, u: ParsedUrl, host: string, contentType: Option<string>,
                             qiniu: map<string, string>, body: Option<string>): (c: string)
    ensures var b := V2Body(contentType, body);
      |c| >= |b| + 2 && c[|c| - |b|..] == b && c[|c| - |b| - 2..|c| - |b|] == "\n\n"
  {
    Join(HeadLinesV2(verb, u, host, contentType, qiniu), "\n") + "\n\n" + V2Body(contentType, body)
  }

  /** What `generate_v2` returns: the URL must parse and have a host, and
      every `X-Qiniu-` header value must convert to text. */
  ghost function V2Token(cred: Credential, digest: Digest, verb: string, url: Option<ParsedUrl>,
                         headers: seq<(string, string)>, contentType: Option<string>,
                         body: Option<string>): (r: Result<string, TokenError>)
    ensures r.Err? <==> url.None? || url.value.host.None? || !QiniuValuesText(headers)
    ensures r.Ok? ==> StartsWith(r.value, cred.accessKey + ":")
  {
    if url.None? then Err(UrlParseError)
    else if url.value.host.None? then Err(MissingHost)
    else if !QiniuValuesText(headers) then Err(HeaderValueNotText)
    else Ok(Sign(cred, digest, CanonicalV2(verb, url.value, url.value.host.value, contentType,
                                           QiniuHeaders(headers), body)))
  }

  /** The header loop of `generate_v2`: collects the `X-Qiniu-` headers into
      a map, failing on the first value that does not convert to text. */
  method CollectQiniuHeaders(headers: seq<(string, string)>) returns (r: Result<map<string, string>, TokenError>)
    ensures r.Ok? <==> QiniuValuesText(headers)
    ensures r.Ok? ==> r.value == QiniuHeaders(headers)
    ensures r.Err? ==> r.error == HeaderValueNotText
  {
    var qiniu: map<string, string> := map[];
    var i := 0;
    while i < |headers|
      invariant 0 <= i <= |headers|
      invariant qiniu == QiniuHeaders(headers[..i])
      invariant QiniuValuesText(headers[..i])
    {
      var name := headers[i].0;
      assert headers[..i + 1][..i] == headers[..i];
      if StartsWith(name, QiniuPrefix) {
        if !IsHeaderText(headers[i].1) {
          return Err(HeaderValueNotText);
        }
        qiniu := qiniu[name[|QiniuPrefix|..] := headers[i].1];
      }
      i := i + 1;
    }
    assert headers[..i] == headers;
    return Ok(qiniu);
  }

  /** The sorted-items loop of `generate_v2`: appends one line per header,
      in ascending order of stripped name, to a string of joined lines. */
  method AppendHeaderLines(signStr: string, ghost lines: seq<string>, qiniu: map<string, string>)
    returns (out: string)
    requires |lines| >= 1 && signStr == Join(lines, "\n")
    ensures out == Join(lines + HeaderLines(qiniu, AscendingKeys(qiniu.Keys)), "\n")
  {
    out := signStr;
    if |qiniu| == 0 {
      ElementsEmpty(AscendingKeys(qiniu.Keys));
      assert lines + HeaderLines(qiniu, AscendingKeys(qiniu.Keys)) == lines;
      return;
    }
    var items := SortedKeys(qiniu.Keys);
    SortedEnumerationUnique(items, AscendingKeys(qiniu.Keys), qiniu.Keys);
    ghost var done := lines;
    var j := 0;
    assert HeaderLines(qiniu, items[..0]) == [];
    while j < |items|
      invariant 0 <= j <= |items|
      invariant done == lines + HeaderLines(qiniu, items[..j])
      invariant out == Join(done, "\n")
    {
      var line := items[j] + ": " + qiniu[items[j]];
      HeaderLinesSnoc(qiniu, items, j);
      JoinSnoc(done, line, "\n");
      done := done + [line];
      out := out + "\n" + line;
      j := j + 1;
    }
    assert items[..j] == items;
  }

  lemma HeaderLinesSnoc(m: map<string, string>, keys: seq<string>, j: nat)
    requires j < |keys| && forall k :: k in keys ==> k in m
    ensures HeaderLines(m, keys[..j + 1]) == HeaderLines(m, keys[..j]) + [keys[j] + ": " + m[keys[j]]]
  {
    assert keys[..j + 1] == keys[..j] + [keys[j]];
  }

  /** `generate_v2`: builds the canonical string line by line, collecting the
      `X-Qiniu-` headers into a map and emitting them sorted by name. An absent
      header map is the empty sequence. */
  method GenerateV2(cred: Credential, digest: Digest, verb: string, url: Option<ParsedUrl>,
                    headers: seq<(string, string)>, contentType: Option<string>, body: Option<string>)
    returns (r: Result<string, TokenError>)
    ensures r == V2Token(cred, digest, verb, url, headers, contentType, body)
  {
    if url.None? {
      return Err(UrlParseError);
    }
    var u := url.value;
    if u.host.None? {
      return Err(MissingHost);
    }
    var signStr := FixedV2(verb, u, u.host.value, contentType);
    var collected := CollectQiniuHeaders(headers);
    if collected.Err? {
      return Err(collected.error);
    }
    var qiniu := collected.value;
    signStr := AppendHeaderLines(signStr, FixedLinesV2(verb, u, u.host.value, contentType), qiniu);
    signStr := signStr + "\n\n" + V2Body(contentType, body);
    return Ok(Sign(cred, digest, signStr));
  }

  /** The straight-line start of `generate_v2`: request line, `Host` line and
      optional `Content-Type` line, separated by newlines. */
  method FixedV2(verb: string, u: ParsedUrl, host: string, contentType: Option<string>) returns (signStr: string)
    ensures signStr == Join(FixedLinesV2(verb, u, host, contentType), "\n")
  {
    signStr := UpperAscii(verb) + " " + PathAndQuery(u);
    ghost var lines := [signStr];
    JoinSnoc(lines, "Host: " + host, "\n");
    lines := lines + ["Host: " + host];
    signStr := signStr + "\n" + "Host: " + host;
    if contentType.Some? {
      JoinSnoc(lines, "Content-Type: " + contentType.value, "\n");
      lines := lines + ["Content-Type: " + contentType.value];
      signStr := signStr + "\n" + "Content-Type: " + contentType.value;
    }
  }

  /** A v2 canonical string begins with the upper-cased method, a space, the
      request target and the `Host` line. */
  lemma V2Start(verb: string, u: ParsedUrl, host: string, contentType: Option<string>,
                qiniu: map<string, string>, body: Option<string>)
    ensures StartsWith(CanonicalV2(verb, u, host, contentType, qiniu, body),
                       UpperAscii(verb) + " " + PathAndQuery(u) + "\nHost: " + host)
  {
    var lines := HeadLinesV2(verb, u, host, contentType, qiniu);
    var p := UpperAscii(verb) + " " + PathAndQuery(u) + "\nHost: " + host;
    assert lines[0] == UpperAscii(verb) + " " + PathAndQuery(u) && lines[1] == "Host: " + host;
    assert "\n" + "Host: " == "\nHost: ";
    assert lines[0] + "\n" + lines[1] == p;
    var j := Join(lines, "\n");
    JoinStartsWithTwo(lines, "\n");
    StartsWithExtend(j, "\n\n", p);
    StartsWithExtend(j + "\n\n", V2Body(contentType, body), p);
  }

  /** Joined lines begin with the first two lines and the separator between
      them. */
  lemma JoinStartsWithTwo(xs: seq<string>, sep: string)
    requires |xs| >= 2
    ensures StartsWith(Join(xs, sep), xs[0] + sep + xs[1])
  {
    assert xs == [xs[0]] + xs[1..];
    JoinCons(xs[0], xs[1..], sep);
    var rest := Join(xs[1..], sep);
    if |xs| == 2 {
      assert rest == xs[1];
    } else {
      assert xs[1..] == [xs[1]] + xs[2..];
      JoinCons(xs[1], xs[2..], sep);
      assert rest == xs[1] + sep + Join(xs[2..], sep);
    }
    var p := xs[0] + sep + xs[1];
    assert Join(xs, sep) == xs[0] + sep + rest;
    assert Join(xs, sep)[..|p|] == p;
  }

  lemma StartsWithExtend(a: string, b: string, p: string)
    requires StartsWith(a, p)
    ensures StartsWith(a + b, p)
  {
    assert (a + b)[..|p|] == a[..|p|];
  }

  predicate LineSafe(x: string) {
    |x| > 0 && '\n' !in x
  }

  /** No two newlines in a row. */
  predicate NoBlankLine(s: string) {
    forall k :: 0 <= k < |s| - 1 ==> !(s[k] == '\n' && s[k + 1] == '\n')
  }

  lemma {:induction false} NoBlankLineFree(s: string)
    requires NoBlankLine(s)
    ensures !Contains(s, "\n\n")
    decreases |s|
  {
    if |s| > 0 {
      assert NoBlankLine(s[1..]) by {
        forall k | 0 <= k < |s[1..]| - 1 ensures !(s[1..][k] == '\n' && s[1..][k + 1] == '\n') {
          assert s[1..][k] == s[k + 1] && s[1..][k + 1] == s[k + 2];
        }
      }
      NoBlankLineFree(s[1..]);
      if |s| >= 2 {
        assert !(s[0] == '\n' && s[1] == '\n');
        assert s[..2] != "\n\n" by {
          assert s[..2][0] == s[0] && s[..2][1] == s[1];
        }
      }
    }
  }

  /** Lines that are non-empty and free of newlines, joined by newlines and
      followed by one, never show two newlines in a row. */
  lemma {:induction false} JoinedLinesNoBlank(xs: seq<string>)
    requires |xs| >= 1 && forall i :: 0 <= i < |xs| ==> LineSafe(xs[i])
    ensures NoBlankLine(Join(xs, "\n") + "\n")
    decreases |xs|
  {
    var s := Join(xs, "\n") + "\n";
    var x := xs[0];
    forall k | 0 <= k < |x| ensures s[k] != '\n' {
      assert s[k] == x[k];
    }
    if |xs| > 1 {
      var t := Join(xs[1..], "\n") + "\n";
      JoinedLinesNoBlank(xs[1..]);
      assert s == x + "\n" + t;
      assert t[0] == xs[1][0];
      forall k | |x| < k < |s| - 1 ensures !(s[k] == '\n' && s[k + 1] == '\n') {
        var k' := k - |x| - 1;
        assert 0 <= k' < |t| - 1;
        assert s[k] == t[k'] && s[k + 1] == t[k' + 1];
        assert !(t[k'] == '\n' && t[k' + 1] == '\n');
      }
    }
  }

  /** When no field holds a newline, the first blank line of a v2 canonical
      string ends its head, the head splits back into exactly the head lines,
      and what follows is the body part: the canonical string determines the
      request it was built from. */
  lemma V2Decode(verb: string, u: ParsedUrl, host: string, contentType: Option<string>,
                 qiniu: map<string, string>, body: Option<string>)
    requires forall i :: 0 <= i < |HeadLinesV2(verb, u, host, contentType, qiniu)| ==>
      '\n' !in HeadLinesV2(verb, u, host, contentType, qiniu)[i]
    ensures var lines := HeadLinesV2(verb, u, host, contentType, qiniu);
      var c := CanonicalV2(verb, u, host, contentType, qiniu, body);
      var n := |Join(lines, "\n")|;
      Find(c, "\n\n") == Some(n) && Split(c[..n], "\n") == lines
      && c[n + 2..] == V2Body(contentType, body)
  {
    HeadLinesSafe(verb, u, host, contentType, qiniu);
    DecodeJoined(HeadLinesV2(verb, u, host, contentType, qiniu), V2Body(contentType, body));
  }

  /** Safe lines joined by newlines, a blank line and any text: the first
      blank line ends the lines, which split back out. */
  lemma DecodeJoined(lines: seq<string>, rest: string)
    requires |lines| >= 1 && forall i :: 0 <= i < |lines| ==> LineSafe(lines[i])
    ensures var j := Join(lines, "\n");
      var c := j + "\n\n" + rest;
      Find(c, "\n\n") == Some(|j|) && Split(c[..|j|], "\n") == lines && c[|j| + 2..] == rest
  {
    var j := Join(lines, "\n");
    var c := j + "\n\n" + rest;
    var n := |j|;
    JoinedLinesNoBlank(lines);
    assert c[..n + 1] == j + "\n";
    assert c[n..n + 2] == "\n\n";
    NoBlankLineFree(j + "\n");
    FindFirstOccurrence(c, "\n\n", n);
    assert c[..n] == j;
    SplitJoin(lines);
  }

  /** Head lines free of newlines are also non-empty. */
  lemma HeadLinesSafe(verb: string, u: ParsedUrl, host: string, contentType: Option<string>,
                      qiniu: map<string, string>)
    requires forall i :: 0 <= i < |HeadLinesV2(verb, u, host, contentType, qiniu)| ==>
      '\n' !in HeadLinesV2(verb, u, host, contentType, qiniu)[i]
    ensures var lines := HeadLinesV2(verb, u, host, contentType, qiniu);
      forall i :: 0 <= i < |lines| ==> LineSafe(lines[i])
  {
    var fixed := FixedLinesV2(verb, u, host, contentType);
    var headers := HeaderLines(qiniu, AscendingKeys(qiniu.Keys));
    var lines := fixed + headers;
    forall i | 0 <= i < |lines| ensures |lines[i]| > 0 {
      if i < |fixed| {
        assert lines[i] == fixed[i];
      } else {
        assert lines[i] == headers[i - |fixed|];
      }
    }
  }

  /** Splitting newline-free lines joined by newlines gives the lines back. */
  lemma {:induction false} SplitJoin(xs: seq<string>)
    requires |xs| >= 1 && forall i :: 0 <= i < |xs| ==> '\n' !in xs[i]
    ensures Split(Join(xs, "\n"), "\n") == xs
    decreases |xs|
  {
    var s := Join(xs, "\n");
    if Contains(xs[0], "\n") {
      ContainsChar(xs[0], '\n');
    }
    if |xs| == 1 {
      assert Find(s, "\n").None?;
    } else {
      var x := xs[0];
      var rest := Join(xs[1..], "\n");
      assert s == x + "\n" + rest;
      assert s[..|x|] == x;
      assert s[|x|..|x| + 1] == "\n";
      FindFirstOccurrence(s, "\n", |x|);
      assert s[|x| + 1..] == rest;
      SplitJoin(xs[1..]);
      assert xs == [x] + xs[1..];
    }
  }

  const ExampleUrl: ParsedUrl :=
    ParsedUrl(Some("rs.qiniu.com"), "/move/bmV3ZG9jczpmaW5kX21hbi50eHQ=/bmV3ZG9jczpmaW5kLm1hbi50eHQ=", None)

  /** The documented v1 example signs the path followed by a newline, and its
      token begins with the access key and a colon. */
  lemma V1Example(digest: Digest)
    ensures CanonicalV1(ExampleUrl, None, None)
      == "/move/bmV3ZG9jczpmaW5kX21hbi50eHQ=/bmV3ZG9jczpmaW5kLm1hbi50eHQ=\n"
    ensures var r := GenerateV1(Credential("MY_ACCESS_KEY", "MY_SECRET_KEY"), digest, Some(ExampleUrl), None, None);
      r.Ok? && StartsWith(r.value, "MY_ACCESS_KEY:")
  {
  }

  /** The documented v2 example signs `POST`, the path, the `Host` line and a
      blank line, and its token begins with the access key and a colon. */
  lemma V2Example(digest: Digest)
    ensures CanonicalV2("POST", ExampleUrl, "rs.qiniu.com", None, map[], None)
      == "POST" + " " + ExampleUrl.path + "\n" + "Host: " + "rs.qiniu.com" + "\n\n"
    ensures var r := V2Token(Credential("MY_ACCESS_KEY", "MY_SECRET_KEY"), digest, "POST", Some(ExampleUrl), [], None, None);
      r.Ok? && StartsWith(r.value, "MY_ACCESS_KEY:")
  {
    var empty: map<string, string> := map[];
    assert empty.Keys == {};
    ElementsEmpty(AscendingKeys(empty.Keys));
    assert HeaderLines(empty, AscendingKeys(empty.Keys)) == [];
    assert UpperAscii("POST") == "POST";
    assert QiniuHeaders([]) == empty;
    var lines := HeadLinesV2("POST", ExampleUrl, "rs.qiniu.com", None, empty);
    assert lines == ["POST" + " " + ExampleUrl.path, "Host: " + "rs.qiniu.com"];
    JoinCons(lines[0], lines[1..], "\n");
  }
}
