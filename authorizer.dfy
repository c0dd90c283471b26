/** `OAuthAuthorizer.swift`: signing a request (RFC 5849 sections 3.4.1, 3.4.2
    and 3.5.1), reading the authorization server's responses, and the steps of
    the credential exchange as functions of their inputs. The state the steps
    change lives in `Manager.OAuthManager`. */
module Authorizer {
  import opened Wrappers
  import opened Models
  import opened Strings
  import opened Extensions
  import opened RequestType

  // ---------------------------------------------------------------------------
  // Signature base string (`oAuthSignatureBaseString`)

  /** `parameter.value?.oAuthURLEncodedString ?? ""`. */
  function EncodedValue(item: QueryItem): string {
    match item.value
    case Some(v) => PercentEncode(v)
    case None => ""
  }

  /** `name=value`, both encoded. */
  function ParameterComponent(item: QueryItem): string {
    PercentEncode(item.name) + "=" + EncodedValue(item)
  }

  /** The normalised parameter string: the components sorted as whole strings
      and joined with `&`. */
  function ParameterString(parameters: seq<QueryItem>): string {
    Join(Sort(MapSeq(ParameterComponent, parameters)), "&")
  }

  /** method `&` encoded base URL `&` encoded parameter string. */
  function SignatureBaseString(httpMethod: string, baseUrlString: string, parameters: seq<QueryItem>): string {
    httpMethod + "&" + PercentEncode(baseUrlString) + "&" + PercentEncode(ParameterString(parameters))
  }

  /** `oAuthSignatureBaseString`, which collects the components in a loop. */
  method BuildSignatureBaseString(httpMethod: string, baseUrlString: string, parameters: seq<QueryItem>)
    returns (s: string)
    ensures s == SignatureBaseString(httpMethod, baseUrlString, parameters)
  {
    var parameterComponents: seq<string> := [];
    for i := 0 to |parameters|
      invariant parameterComponents == MapSeq(ParameterComponent, parameters[..i])
    {
      parameterComponents := parameterComponents + [ParameterComponent(parameters[i])];
      MapSeqPrefixStep(ParameterComponent, parameters, i);
    }
    assert parameters[..|parameters|] == parameters;
    var parameterString := Join(Sort(parameterComponents), "&");
    s := Join([httpMethod, PercentEncode(baseUrlString), PercentEncode(parameterString)], "&");
    JoinThree(httpMethod, PercentEncode(baseUrlString), PercentEncode(parameterString), "&");
  }

  lemma JoinThree(a: string, b: string, c: string, separator: string)
    ensures Join([a, b, c], separator) == a + separator + b + separator + c
  {
    assert [a, b, c][1..] == [b, c] && [b, c][1..] == [c];
    assert Join([b, c], separator) == b + separator + c;
    assert Join([a, b, c], separator) == a + separator + Join([b, c], separator);
  }

  /** The base string depends on the parameters only as a multiset: their
      order in the request does not matter. */
  lemma SignatureBaseStringIgnoresOrder(httpMethod: string, baseUrlString: string, p: seq<QueryItem>, q: seq<QueryItem>)
    requires multiset(p) == multiset(q)
    ensures SignatureBaseString(httpMethod, baseUrlString, p) == SignatureBaseString(httpMethod, baseUrlString, q)
  {
    MapSeqPermutation(ParameterComponent, p, q);
    SortDependsOnlyOnMultiset(MapSeq(ParameterComponent, p), MapSeq(ParameterComponent, q));
  }

  /** Splitting at the first `&`: what precedes it is determined when it has no `&`. */
  lemma SplitAtAmpersand(a: string, b: string, c: string, d: string)
    requires '&' !in a && '&' !in c
    requires a + "&" + b == c + "&" + d
    ensures a == c && b == d
  {
    var s := a + "&" + b;
    assert forall i :: 0 <= i < |a| ==> s[i] == a[i];
    assert forall i :: 0 <= i < |c| ==> s[i] == c[i];
    assert s[|a|] == '&' && s[|c|] == '&';
    assert |a| == |c|;
    assert a == s[..|a|] && c == s[..|c|];
    assert b == s[|a| + 1..] && d == s[|c| + 1..];
  }

  lemma NoAmpersandInEncoding(s: string)
    ensures '&' !in PercentEncode(s)
  {
    PercentEncodedAlphabet(PercentEncode(s));
  }

  /** The base string determines its three fields: for methods without `&`,
      equal base strings have equal methods, equal base URLs and equal
      parameter strings. */
  lemma SignatureBaseStringUnambiguous(
    m1: string, u1: string, p1: seq<QueryItem>, m2: string, u2: string, p2: seq<QueryItem>)
    requires '&' !in m1 && '&' !in m2
    requires SignatureBaseString(m1, u1, p1) == SignatureBaseString(m2, u2, p2)
    ensures m1 == m2 && u1 == u2 && ParameterString(p1) == ParameterString(p2)
  {
    var ps1, ps2 := ParameterString(p1), ParameterString(p2);
    NoAmpersandInEncoding(u1);
    NoAmpersandInEncoding(u2);
    SplitThreeFields(m1, PercentEncode(u1), PercentEncode(ps1), m2, PercentEncode(u2), PercentEncode(ps2));
    PercentEncodeInjective(u1, u2);
    PercentEncodeInjective(ps1, ps2);
  }

  lemma SplitThreeFields(a1: string, b1: string, c1: string, a2: string, b2: string, c2: string)
    requires '&' !in a1 && '&' !in a2 && '&' !in b1 && '&' !in b2
    requires a1 + "&" + b1 + "&" + c1 == a2 + "&" + b2 + "&" + c2
    ensures a1 == a2 && b1 == b2 && c1 == c2
  {
    assert a1 + "&" + b1 + "&" + c1 == a1 + "&" + (b1 + "&" + c1);
    assert a2 + "&" + b2 + "&" + c2 == a2 + "&" + (b2 + "&" + c2);
    SplitAtAmpersand(a1, b1 + "&" + c1, a2, b2 + "&" + c2);
    SplitAtAmpersand(b1, c1, b2, c2);
  }

  /** Parameters with the same name are ordered by their encoded values (a
      missing value counting as empty), as RFC 5849 section 3.4.1.3.2 asks. */
  lemma SameNameOrderedByValue(a: QueryItem, b: QueryItem)
    requires a.name == b.name
    ensures LexLe(ParameterComponent(a), ParameterComponent(b)) <==> LexLe(EncodedValue(a), EncodedValue(b))
  {
    var prefix := PercentEncode(a.name) + "=";
    assert ParameterComponent(a) == prefix + EncodedValue(a);
    assert ParameterComponent(b) == prefix + EncodedValue(b);
    LexLeCommonPrefix(prefix, EncodedValue(a), EncodedValue(b));
  }

  /** In the sorted components, a component that comes before another of the
      same name has the lesser or equal encoded value. */
  lemma SameNameSortedByValue(parameters: seq<QueryItem>, i: int, j: int, a: QueryItem, b: QueryItem)
    requires 0 <= i < j < |Sort(MapSeq(ParameterComponent, parameters))|
    requires Sort(MapSeq(ParameterComponent, parameters))[i] == ParameterComponent(a)
    requires Sort(MapSeq(ParameterComponent, parameters))[j] == ParameterComponent(b)
    requires a.name == b.name
    ensures LexLe(EncodedValue(a), EncodedValue(b))
  {
    var sorted := Sort(MapSeq(ParameterComponent, parameters));
    assert LexLe(sorted[i], sorted[j]);
    SameNameOrderedByValue(a, b);
  }

  /** Where whole strings are sorted and RFC 5849 sorts by name first, the two
      disagree. Take a name and the same name extended by a character that
      precedes `=` (a digit, `-` or `.`), such as `a` and `a1`: the shorter
      name comes first, yet in the parameter string the component of the
      longer name comes first, whatever the two values. */
  lemma ParameterStringSortsWholeComponents(name: string, d: char, v: string, w: string)
    requires IsUrlRfc3986Allowed(d) && d < '='
    ensures LexLe(PercentEncode(name), PercentEncode(name + [d]))
    ensures PercentEncode(name) != PercentEncode(name + [d])
    ensures var shorter, longer := QueryItem(name, Some(v)), QueryItem(name + [d], Some(w));
      ParameterString([shorter, longer]) == ParameterComponent(longer) + "&" + ParameterComponent(shorter)
  {
    var n := PercentEncode(name);
    var shorter, longer := QueryItem(name, Some(v)), QueryItem(name + [d], Some(w));
    ExtendedNameEncoding(name, d);
    ExtendedNameOrder(n, d);
    var a, b := ParameterComponent(shorter), ParameterComponent(longer);
    ComponentOrder(n, d, PercentEncode(v), PercentEncode(w));
    assert MapSeq(ParameterComponent, [shorter, longer]) == [a, b];
    SortPair(a, b);
    JoinPair(b, a, "&");
  }

  /** An allowed character appended to a name is appended to its encoding. */
  lemma ExtendedNameEncoding(name: string, d: char)
    requires IsUrlRfc3986Allowed(d)
    ensures PercentEncode(name + [d]) == PercentEncode(name) + [d]
  {
    PercentEncodeConcat(name, [d]);
    assert PercentEncode([d]) == [d] by { assert [d][1..] == []; }
  }

  lemma ExtendedNameOrder(n: string, d: char)
    ensures LexLe(n, n + [d]) && n != n + [d]
  {
    LexLeCommonPrefix(n, [], [d]);
    assert n + [] == n;
    assert |n + [d]| == |n| + 1;
  }

  /** `n=v` follows `n` `d` `=w` when `d` precedes `=`. */
  lemma ComponentOrder(n: string, d: char, v: string, w: string)
    requires d < '='
    ensures var a, b := n + "=" + v, n + [d] + "=" + w;
      LexLe(b, a) && !LexLe(a, b)
  {
    var restA, restB := "=" + v, [d] + "=" + w;
    assert n + "=" + v == n + restA;
    assert n + [d] + "=" + w == n + restB;
    LexLeCommonPrefix(n, restA, restB);
    LexLeCommonPrefix(n, restB, restA);
  }

  /** Sorting two strings out of order swaps them. */
  lemma SortPair(a: string, b: string)
    requires !LexLe(a, b)
    ensures Sort([a, b]) == [b, a]
  {
    assert [a, b][1..] == [b] && [b][1..] == [];
    assert Sort([b]) == [b];
    assert Insert(a, [b]) == [b] + Insert(a, []);
  }

  lemma JoinPair(a: string, b: string, separator: string)
    ensures Join([a, b], separator) == a + separator + b
  {
    assert [a, b][1..] == [b];
  }

  // ---------------------------------------------------------------------------
  // Signing key and signature (`oAuthSigningKey`, `oAuthSignature`)

  /** `oAuthSigningKey`: the encoded consumer secret, `&`, and the encoded
      token secret; without a token secret the key ends in `&`, exactly as
      with an empty one. */
  function SigningKey(consumerSecret: string, tokenSecret: Option<string>): (r: string)
    ensures r == PercentEncode(consumerSecret) + "&" + PercentEncode(tokenSecret.GetOr(""))
  {
    match tokenSecret
    case Some(secret) => PercentEncode(consumerSecret) + "&" + PercentEncode(secret)
    case None => PercentEncode(consumerSecret) + "&"
  }

  /** The key determines both secrets (an absent token secret counting as the
      empty one). */
  lemma SigningKeyUnambiguous(c1: string, t1: Option<string>, c2: string, t2: Option<string>)
    requires SigningKey(c1, t1) == SigningKey(c2, t2)
    ensures c1 == c2 && t1.GetOr("") == t2.GetOr("")
  {
    NoAmpersandInEncoding(c1);
    NoAmpersandInEncoding(c2);
    SplitAtAmpersand(PercentEncode(c1), PercentEncode(t1.GetOr("")), PercentEncode(c2), PercentEncode(t2.GetOr("")));
    PercentEncodeInjective(c1, c2);
    PercentEncodeInjective(t1.GetOr(""), t2.GetOr(""));
  }

  /** `oAuthSignature`: HMAC-SHA1 of the base string under the signing key, in
      Base64. */
  function Signature(
    platform: Platform, httpMethod: string, baseUrlString: string, parameters: seq<QueryItem>,
    consumerSecret: string, tokenSecret: Option<string>): string
  {
    platform.hmacSha1Base64(SigningKey(consumerSecret, tokenSecret),
                            SignatureBaseString(httpMethod, baseUrlString, parameters))
  }

  method BuildSignature(
    platform: Platform, httpMethod: string, baseUrlString: string, parameters: seq<QueryItem>,
    consumerSecret: string, tokenSecret: Option<string>) returns (signature: string)
    ensures signature == platform.hmacSha1Base64(
      PercentEncode(consumerSecret) + "&" + PercentEncode(tokenSecret.GetOr("")),
      SignatureBaseString(httpMethod, baseUrlString, parameters))
    ensures signature == Signature(platform, httpMethod, baseUrlString, parameters, consumerSecret, tokenSecret)
  {
    var signatureBaseString := BuildSignatureBaseString(httpMethod, baseUrlString, parameters);
    var signingKey := SigningKey(consumerSecret, tokenSecret);
    signature := platform.hmacSha1Base64(signingKey, signatureBaseString);
  }

  /** The signature does not depend on the order of the parameters. */
  lemma SignatureIgnoresOrder(
    platform: Platform, httpMethod: string, baseUrlString: string, p: seq<QueryItem>, q: seq<QueryItem>,
    consumerSecret: string, tokenSecret: Option<string>)
    requires multiset(p) == multiset(q)
    ensures Signature(platform, httpMethod, baseUrlString, p, consumerSecret, tokenSecret)
         == Signature(platform, httpMethod, baseUrlString, q, consumerSecret, tokenSecret)
  {
    SignatureBaseStringIgnoresOrder(httpMethod, baseUrlString, p, q);
  }

  // ---------------------------------------------------------------------------
  // Authorization header (`oAuthAuthorizationHeader`)

  /** `name="value"`, both encoded. */
  function HeaderComponent(item: QueryItem): string {
    PercentEncode(item.name) + "=\"" + EncodedValue(item) + "\""
  }

  function AuthorizationHeader(parameters: seq<QueryItem>): string {
    "OAuth " + Join(Sort(MapSeq(HeaderComponent, parameters)), ", ")
  }

  /** `oAuthAuthorizationHeader`, which collects the components in a loop. */
  method BuildAuthorizationHeader(parameters: seq<QueryItem>) returns (header: string)
    ensures header == AuthorizationHeader(parameters)
  {
    var parameterComponents: seq<string> := [];
    for i := 0 to |parameters|
      invariant parameterComponents == MapSeq(HeaderComponent, parameters[..i])
    {
      parameterComponents := parameterComponents + [HeaderComponent(parameters[i])];
      MapSeqPrefixStep(HeaderComponent, parameters, i);
    }
    assert parameters[..|parameters|] == parameters;
    header := "OAuth " + Join(Sort(parameterComponents), ", ");
  }

  /** The header lists every parameter once per occurrence, in sorted order,
      whatever order they were given in. */
  lemma AuthorizationHeaderIgnoresOrder(p: seq<QueryItem>, q: seq<QueryItem>)
    requires multiset(p) == multiset(q)
    ensures AuthorizationHeader(p) == AuthorizationHeader(q)
  {
    MapSeqPermutation(HeaderComponent, p, q);
    SortDependsOnlyOnMultiset(MapSeq(HeaderComponent, p), MapSeq(HeaderComponent, q));
  }

  // ---------------------------------------------------------------------------
  // Request builder (`buildOAuthRequest`)

  /** The five protocol parameters every request carries. */
  function BaselineParameters(config: Configuration, nonce: string, timestamp: string): seq<QueryItem> {
    [ QueryItem("oauth_consumer_key", Some(config.consumerKey)),
      QueryItem("oauth_nonce", Some(nonce)),
      QueryItem("oauth_signature_method", Some("HMAC-SHA1")),
      QueryItem("oauth_timestamp", Some(timestamp)),
      QueryItem("oauth_version", Some("1.0")) ]
  }

  /** The parameters that depend on the kind of request. */
  function VariantParameters(config: Configuration, t: AuthorizedRequestType): seq<QueryItem> {
    match t
    case Temporary(_) => [QueryItem("oauth_callback", Some(config.callback))]
    case Access(_, temporaryCredentials, verifier) =>
      [QueryItem("oauth_token", Some(temporaryCredentials.requestToken)), QueryItem("oauth_verifier", Some(verifier))]
    case AuthorizedGet(_, token) => [QueryItem("oauth_token", Some(token.accessToken))]
  }

  /** `url.query?.urlQueryItems`: none when the URL has no query or the query
      does not parse. */
  function QueryItemsOf(platform: Platform, url: Url): Option<seq<QueryItem>> {
    match url.parts.query
    case None => None
    case Some(q) => platform.queryItems(q)
  }

  /** Everything the signature covers: the protocol parameters and the query
      items of the target URL. */
  function SignedParameters(
    platform: Platform, config: Configuration, t: AuthorizedRequestType, url: Url,
    nonce: string, timestamp: string): seq<QueryItem>
  {
    BaselineParameters(config, nonce, timestamp) + VariantParameters(config, t) + QueryItemsOf(platform, url).GetOr([])
  }

  /** The request handed to the transport: its URL (with the query), its
      method, and the value of its `Authorization` header. */
  datatype Request = Request(url: Url, httpMethod: string, authorization: string)

  /** What `buildOAuthRequest` produces for a request kind, a UUID string for
      the nonce and the current time in whole seconds. */
  function OAuthRequest(
    platform: Platform, config: Configuration, t: AuthorizedRequestType,
    uuidString: string, seconds: int): (r: Result<Request, Failure>)
    ensures r.Err? <==>
      platform.url(BaseUrlString(t)).None? || AbsoluteStringByTrimmingQuery(platform.url(BaseUrlString(t)).value).Err?
    ensures platform.url(BaseUrlString(t)).None? ==> r == Err(BadUrl(BaseUrlString(t)))
    ensures r.Err? && platform.url(BaseUrlString(t)).Some? ==> r == Err(OAuth(FailedUrlStrippingQueries))
    ensures r.Ok? ==> r.value.url == platform.url(BaseUrlString(t)).value && r.value.httpMethod == MethodName(Method(t))
  {
    match RequestUrl(platform, t)
    case Err(e) => Err(e)
    case Ok(url) =>
      match AbsoluteStringByTrimmingQuery(url)
      case Err(e) => Err(e)
      case Ok(base) =>
        var signed := SignedParameters(platform, config, t, url, GenerateNonce(uuidString), Timestamp(seconds));
        var signature := Signature(platform, MethodName(Method(t)), base, signed, config.consumerSecret, Secret(t));
        Ok(Request(url, MethodName(Method(t)), AuthorizationHeader(signed + [QueryItem("oauth_signature", Some(signature))])))
  }

  /** `buildOAuthRequest`, which grows its parameter list step by step. */
  method BuildOAuthRequest(
    platform: Platform, config: Configuration, t: AuthorizedRequestType,
    uuidString: string, seconds: int) returns (r: Result<Request, Failure>)
    ensures r == OAuthRequest(platform, config, t, uuidString, seconds)
  {
    var baseUrl := RequestUrl(platform, t);
    if baseUrl.Err? {
      return Err(baseUrl.error);
    }
    var url := baseUrl.value;
    var baseUrlStringMinusQueries := AbsoluteStringByTrimmingQuery(url);
    if baseUrlStringMinusQueries.Err? {
      return Err(baseUrlStringMinusQueries.error);
    }

    var parameters := [
      QueryItem("oauth_consumer_key", Some(config.consumerKey)),
      QueryItem("oauth_nonce", Some(GenerateNonce(uuidString))),
      QueryItem("oauth_signature_method", Some("HMAC-SHA1")),
      QueryItem("oauth_timestamp", Some(Timestamp(seconds))),
      QueryItem("oauth_version", Some("1.0"))
    ];
    match t {
      case Temporary(_) =>
        parameters := parameters + [QueryItem("oauth_callback", Some(config.callback))];
      case Access(_, temporaryCredentials, verifier) =>
        parameters := parameters + [QueryItem("oauth_token", Some(temporaryCredentials.requestToken)),
                                    QueryItem("oauth_verifier", Some(verifier))];
      case AuthorizedGet(_, token) =>
        parameters := parameters + [QueryItem("oauth_token", Some(token.accessToken))];
    }
    parameters := parameters + QueryItemsOf(platform, url).GetOr([]);

    var signature := BuildSignature(
      platform, MethodName(Method(t)), baseUrlStringMinusQueries.value, parameters,
      config.consumerSecret, Secret(t));
    parameters := parameters + [QueryItem("oauth_signature", Some(signature))];

    var authorizationHeader := BuildAuthorizationHeader(parameters);
    r := Ok(Request(url, MethodName(Method(t)), authorizationHeader));
  }

  /** The five baseline values, looked up by name in what the signature
      covers (`SignedParameters`, which starts with them), whatever follows
      them: the items of the URL's query come later, so a duplicate name there
      is not what the lookup finds. */
  lemma BaselineValues(config: Configuration, nonce: string, timestamp: string, rest: seq<QueryItem>)
    ensures var s := BaselineParameters(config, nonce, timestamp) + rest;
      && Value(s, "oauth_consumer_key") == Some(config.consumerKey)
      && Value(s, "oauth_nonce") == Some(nonce)
      && Value(s, "oauth_signature_method") == Some("HMAC-SHA1")
      && Value(s, "oauth_timestamp") == Some(timestamp)
      && Value(s, "oauth_version") == Some("1.0")
  {
    var baseline := BaselineParameters(config, nonce, timestamp);
    BaselineLookup(config, nonce, timestamp);
    ValueIgnoresLaterItems(baseline, rest, "oauth_consumer_key", 0);
    ValueIgnoresLaterItems(baseline, rest, "oauth_nonce", 1);
    ValueIgnoresLaterItems(baseline, rest, "oauth_signature_method", 2);
    ValueIgnoresLaterItems(baseline, rest, "oauth_timestamp", 3);
    ValueIgnoresLaterItems(baseline, rest, "oauth_version", 4);
  }

  lemma BaselineLookup(config: Configuration, nonce: string, timestamp: string)
    ensures var b := BaselineParameters(config, nonce, timestamp);
      && Value(b, "oauth_consumer_key") == Some(config.consumerKey)
      && Value(b, "oauth_nonce") == Some(nonce)
      && Value(b, "oauth_signature_method") == Some("HMAC-SHA1")
      && Value(b, "oauth_timestamp") == Some(timestamp)
      && Value(b, "oauth_version") == Some("1.0")
  {
    var b := BaselineParameters(config, nonce, timestamp);
    assert IsFirstMatch(b, "oauth_consumer_key", 0);
    assert IsFirstMatch(b, "oauth_nonce", 1);
    assert IsFirstMatch(b, "oauth_signature_method", 2);
    assert IsFirstMatch(b, "oauth_timestamp", 3);
    assert IsFirstMatch(b, "oauth_version", 4);
  }

  /** The values each kind adds, looked up by name in what the signature
      covers (`SignedParameters`: the baseline, then these, then the URL's
      query items): the callback for the temporary request, the request token
      and the verifier for the access request, the access token for a signed
      GET. The token sent is always the one whose secret signs (`Secret`). */
  lemma VariantValues(
    config: Configuration, t: AuthorizedRequestType, nonce: string, timestamp: string, rest: seq<QueryItem>)
    ensures var s := BaselineParameters(config, nonce, timestamp) + VariantParameters(config, t) + rest;
      && (t.Temporary? ==> Value(s, "oauth_callback") == Some(config.callback))
      && (t.Access? ==>
            && Value(s, "oauth_token") == Some(t.temporaryCredentials.requestToken)
            && Value(s, "oauth_verifier") == Some(t.verifier))
      && (t.AuthorizedGet? ==> Value(s, "oauth_token") == Some(t.token.accessToken))
  {
    var baseline := BaselineParameters(config, nonce, timestamp);
    var variant := VariantParameters(config, t);
    assert baseline + variant + rest == baseline + (variant + rest);
    VariantLookup(config, t);
    BaselineOmitsVariantNames(config, nonce, timestamp);
    match t {
      case Temporary(_) =>
        ValueIgnoresLaterItems(variant, rest, "oauth_callback", 0);
        ValueSkipsOtherNames(baseline, variant + rest, "oauth_callback");
      case Access(_, _, _) =>
        ValueIgnoresLaterItems(variant, rest, "oauth_token", 0);
        ValueIgnoresLaterItems(variant, rest, "oauth_verifier", 1);
        ValueSkipsOtherNames(baseline, variant + rest, "oauth_token");
        ValueSkipsOtherNames(baseline, variant + rest, "oauth_verifier");
      case AuthorizedGet(_, _) =>
        ValueIgnoresLaterItems(variant, rest, "oauth_token", 0);
        ValueSkipsOtherNames(baseline, variant + rest, "oauth_token");
    }
  }

  lemma BaselineOmitsVariantNames(config: Configuration, nonce: string, timestamp: string)
    ensures var b := BaselineParameters(config, nonce, timestamp);
      forall i :: 0 <= i < |b| ==>
        b[i].name != "oauth_callback" && b[i].name != "oauth_token" && b[i].name != "oauth_verifier"
  {
    var b := BaselineParameters(config, nonce, timestamp);
    assert |b[0].name| == 18 && |b[1].name| == 11 && |b[2].name| == 22 && |b[3].name| == 15 && |b[4].name| == 13;
    assert b[1].name[6] == 'n';
  }

  lemma VariantLookup(config: Configuration, t: AuthorizedRequestType)
    ensures var v := VariantParameters(config, t);
      && (t.Temporary? ==> Value(v, "oauth_callback") == Some(config.callback))
      && (t.Access? ==>
            && Value(v, "oauth_token") == Some(t.temporaryCredentials.requestToken)
            && Value(v, "oauth_verifier") == Some(t.verifier))
      && (t.AuthorizedGet? ==> Value(v, "oauth_token") == Some(t.token.accessToken))
  {
    var v := VariantParameters(config, t);
    match t {
      case Temporary(_) => assert IsFirstMatch(v, "oauth_callback", 0);
      case Access(_, _, _) =>
        assert IsFirstMatch(v, "oauth_token", 0);
        assert IsFirstMatch(v, "oauth_verifier", 1);
      case AuthorizedGet(_, _) => assert IsFirstMatch(v, "oauth_token", 0);
    }
  }

  /** No protocol parameter is named `oauth_signature`: the signature is added
      only after it has been computed. */
  lemma ProtocolParametersUnsigned(config: Configuration, t: AuthorizedRequestType, nonce: string, timestamp: string)
    ensures var protocol := BaselineParameters(config, nonce, timestamp) + VariantParameters(config, t);
      forall i :: 0 <= i < |protocol| ==> protocol[i].name != "oauth_signature"
  {
  }

  /** The header lists the signed parameters followed by the signature,
      computed over exactly those parameters with the kind's method name and
      token secret and the URL without its query. */
  lemma OAuthRequestAuthorization(
    platform: Platform, config: Configuration, t: AuthorizedRequestType, uuidString: string, seconds: int)
    requires platform.url(BaseUrlString(t)).Some?
    requires AbsoluteStringByTrimmingQuery(platform.url(BaseUrlString(t)).value).Ok?
    ensures OAuthRequest(platform, config, t, uuidString, seconds).Ok?
    ensures var url := platform.url(BaseUrlString(t)).value;
      var signed := SignedParameters(platform, config, t, url, GenerateNonce(uuidString), Timestamp(seconds));
      var signature := Signature(platform, MethodName(Method(t)), AbsoluteStringByTrimmingQuery(url).value,
                                 signed, config.consumerSecret, Secret(t));
      OAuthRequest(platform, config, t, uuidString, seconds).value.authorization
        == AuthorizationHeader(signed + [QueryItem("oauth_signature", Some(signature))])
  {
  }

  // ---------------------------------------------------------------------------
  // Responses (`getResponseParameters`, `parseTemporaryCredentials`,
  // `parseTokenCredentials`)

  /** The `URLResponse` a request produced: an `HTTPURLResponse` with its
      status code, or another kind. */
  datatype UrlResponse = HttpResponse(statusCode: int) | OtherResponse

  /** The outcome of `URLSession.data(for:)`: data and a response, or a
      thrown transport error. */
  datatype Exchange = Received(response: UrlResponse, data: seq<byte>) | TransportFailed

  /** `getResponseParameters`: the guards in this order: not HTTP, status not
      200, body not UTF-8, body not a query string, no items. */
  function GetResponseParameters(platform: Platform, response: UrlResponse, data: seq<byte>): (r: Result<seq<QueryItem>, Failure>)
    ensures response.OtherResponse? ==> r == Err(OAuth(Unknown))
    ensures response.HttpResponse? && response.statusCode != 200 ==> r == Err(OAuth(HttpURLResponse(response.statusCode)))
    ensures response == HttpResponse(200) ==>
      match platform.utf8String(data)
      case None => r == Err(OAuth(CannotDecodeRawData))
      case Some(text) =>
        match platform.queryItems(text)
        case None => r == Err(OAuth(UnexpectedResponse))
        case Some(items) => r == if items == [] then Err(OAuth(ResponseParametersEmpty)) else Ok(items)
    ensures r.Ok? ==> r.value != [] && response == HttpResponse(200)
  {
    match response
    case OtherResponse => Err(OAuth(Unknown))
    case HttpResponse(statusCode) =>
      if statusCode != 200 then Err(OAuth(HttpURLResponse(statusCode)))
      else
        match platform.utf8String(data)
        case None => Err(OAuth(CannotDecodeRawData))
        case Some(parameterString) =>
          match platform.queryItems(parameterString)
          case None => Err(OAuth(UnexpectedResponse))
          case Some(parameters) =>
            if parameters == [] then Err(OAuth(ResponseParametersEmpty)) else Ok(parameters)
  }

  /** The response parameters of an exchange; a transport error propagates. */
  function ResponseParameters(platform: Platform, exchange: Exchange): (r: Result<seq<QueryItem>, Failure>)
    ensures exchange.TransportFailed? ==> r == Err(NetworkError)
    ensures exchange.Received? ==> r == GetResponseParameters(platform, exchange.response, exchange.data)
  {
    match exchange
    case TransportFailed => Err(NetworkError)
    case Received(response, data) => GetResponseParameters(platform, response, data)
  }

  /** `parseTemporaryCredentials`: any of the three fields missing is an
      unexpected response; a callback confirmation other than `true` is a
      failed confirmation. */
  function ParseTemporaryCredentials(parameters: seq<QueryItem>): (r: Result<TemporaryCredentials, Failure>)
    ensures var token, secret, confirmed :=
      Value(parameters, "oauth_token"), Value(parameters, "oauth_token_secret"), Value(parameters, "oauth_callback_confirmed");
      && (token.None? || secret.None? || confirmed.None? ==> r == Err(OAuth(UnexpectedResponse)))
      && (token.Some? && secret.Some? && confirmed.Some? && confirmed.value != "true" ==> r == Err(OAuth(FailedToConfirmCallback)))
      && (r.Ok? <==> token.Some? && secret.Some? && confirmed == Some("true"))
      && (r.Ok? ==> r.value == TemporaryCredentials(token.value, secret.value))
  {
    var token, secret, confirmed :=
      Value(parameters, "oauth_token"), Value(parameters, "oauth_token_secret"), Value(parameters, "oauth_callback_confirmed");
    if token.None? || secret.None? || confirmed.None? then Err(OAuth(UnexpectedResponse))
    else if confirmed.value != "true" then Err(OAuth(FailedToConfirmCallback))
    else Ok(TemporaryCredentials(token.value, secret.value))
  }

  /** `parseTokenCredentials`: a missing field cannot be parsed. */
  function ParseTokenCredentials(parameters: seq<QueryItem>): (r: Result<TokenCredentials, Failure>)
    ensures var token, secret := Value(parameters, "oauth_token"), Value(parameters, "oauth_token_secret");
      && (r.Ok? <==> token.Some? && secret.Some?)
      && (r.Err? ==> r.error == OAuth(CannotParseResponse))
      && (r.Ok? ==> r.value == TokenCredentials(token.value, secret.value))
  {
    var token, secret := Value(parameters, "oauth_token"), Value(parameters, "oauth_token_secret");
    if token.None? || secret.None? then Err(OAuth(CannotParseResponse))
    else Ok(TokenCredentials(token.value, secret.value))
  }

  /** The body `oauth_token=abc&oauth_token_secret=xyz&oauth_callback_confirmed=true`
      of a status 200 answer, decoded and parsed into its three items, gives
      the temporary credentials `abc`/`xyz`. */
  lemma TemporaryResponseExample(platform: Platform, data: seq<byte>)
    requires platform.utf8String(data) == Some(TemporaryResponseBody())
    requires platform.queryItems(TemporaryResponseBody()) == Some([
      QueryItem("oauth_token", Some("abc")), QueryItem("oauth_token_secret", Some("xyz")),
      QueryItem("oauth_callback_confirmed", Some("true"))])
    ensures TemporaryCredentialsFrom(platform, Received(HttpResponse(200), data)) == Ok(TemporaryCredentials("abc", "xyz"))
  {
    var items := [QueryItem("oauth_token", Some("abc")), QueryItem("oauth_token_secret", Some("xyz")),
                  QueryItem("oauth_callback_confirmed", Some("true"))];
    assert IsFirstMatch(items, "oauth_token", 0);
    assert IsFirstMatch(items, "oauth_token_secret", 1);
    assert IsFirstMatch(items, "oauth_callback_confirmed", 2);
  }

  function TemporaryResponseBody(): string {
    "oauth_token=abc&oauth_token_secret=xyz&oauth_callback_confirmed=true"
  }

  /** The body `oauth_token=final&oauth_token_secret=finalsecret` of a status
      200 answer, decoded and parsed into its two items, gives the token
      credentials `final`/`finalsecret`. */
  lemma TokenResponseExample(platform: Platform, data: seq<byte>)
    requires platform.utf8String(data) == Some(TokenResponseBody())
    requires platform.queryItems(TokenResponseBody()) == Some([
      QueryItem("oauth_token", Some("final")), QueryItem("oauth_token_secret", Some("finalsecret"))])
    ensures TokenCredentialsFrom(platform, Received(HttpResponse(200), data)) == Ok(TokenCredentials("final", "finalsecret"))
  {
    var items := [QueryItem("oauth_token", Some("final")), QueryItem("oauth_token_secret", Some("finalsecret"))];
    assert IsFirstMatch(items, "oauth_token", 0);
    assert IsFirstMatch(items, "oauth_token_secret", 1);
  }

  function TokenResponseBody(): string {
    "oauth_token=final&oauth_token_secret=finalsecret"
  }

  // ---------------------------------------------------------------------------
  // The steps of the exchange

  /** What `getTemporaryCredentials` reads from the answer to its request:
      the response parameters, then the temporary credentials in them. Only a
      status 200 HTTP response can give credentials. */
  function TemporaryCredentialsFrom(platform: Platform, exchange: Exchange): (r: Result<TemporaryCredentials, Failure>)
    ensures ResponseParameters(platform, exchange).Err? ==> r == Err(ResponseParameters(platform, exchange).error)
    ensures ResponseParameters(platform, exchange).Ok? ==> r == ParseTemporaryCredentials(ResponseParameters(platform, exchange).value)
    ensures r.Ok? ==> exchange.Received? && exchange.response == HttpResponse(200)
  {
    match ResponseParameters(platform, exchange)
    case Err(e) => Err(e)
    case Ok(parameters) => ParseTemporaryCredentials(parameters)
  }

  /** `getTemporaryCredentials`: sign and send the temporary request to the
      request-token URL, then read the credentials from the answer. */
  function FetchTemporaryCredentials(
    platform: Platform, config: Configuration, uuidString: string, seconds: int,
    transport: Request -> Exchange): (r: Result<TemporaryCredentials, Failure>)
    ensures var request := OAuthRequest(platform, config, Temporary(config.requestTokenUrl), uuidString, seconds);
      && (request.Err? ==> r == Err(request.error))
      && (request.Ok? ==> r == TemporaryCredentialsFrom(platform, transport(request.value)))
  {
    match OAuthRequest(platform, config, Temporary(config.requestTokenUrl), uuidString, seconds)
    case Err(e) => Err(e)
    case Ok(request) => TemporaryCredentialsFrom(platform, transport(request))
  }

  /** What `getTokenCredentials` reads from the answer to its request: the
      response parameters, then the token credentials in them. Only a status
      200 HTTP response can give credentials. */
  function TokenCredentialsFrom(platform: Platform, exchange: Exchange): (r: Result<TokenCredentials, Failure>)
    ensures ResponseParameters(platform, exchange).Err? ==> r == Err(ResponseParameters(platform, exchange).error)
    ensures ResponseParameters(platform, exchange).Ok? ==> r == ParseTokenCredentials(ResponseParameters(platform, exchange).value)
    ensures r.Ok? ==> exchange.Received? && exchange.response == HttpResponse(200)
  {
    match ResponseParameters(platform, exchange)
    case Err(e) => Err(e)
    case Ok(parameters) => ParseTokenCredentials(parameters)
  }

  /** `getTokenCredentials`: sign and send the access request carrying the
      temporary credentials and the verifier, then read the token credentials
      from the answer. */
  function FetchTokenCredentials(
    platform: Platform, config: Configuration, temporaryCredentials: TemporaryCredentials, verifier: string,
    uuidString: string, seconds: int, transport: Request -> Exchange): (r: Result<TokenCredentials, Failure>)
    ensures var request := OAuthRequest(
        platform, config, Access(config.accessTokenUrl, temporaryCredentials, verifier), uuidString, seconds);
      && (request.Err? ==> r == Err(request.error))
      && (request.Ok? ==> r == TokenCredentialsFrom(platform, transport(request.value)))
  {
    match OAuthRequest(platform, config, Access(config.accessTokenUrl, temporaryCredentials, verifier), uuidString, seconds)
    case Err(e) => Err(e)
    case Ok(request) => TokenCredentialsFrom(platform, transport(request))
  }

  /** `getCredentialsFromRedirect`: the checks in this order: temporary
      credentials in flight, a query that parses, both `oauth_token` and
      `oauth_verifier`, the token equal to the request token; only then is
      the verifier redeemed. */
  function CredentialsFromRedirect(
    platform: Platform, config: Configuration, inFlight: Option<TemporaryCredentials>, redirect: Url,
    uuidString: string, seconds: int, transport: Request -> Exchange): (r: Result<TokenCredentials, Failure>)
    ensures inFlight.None? ==> r == Err(OAuth(NoCredentialsOnRedirect))
    ensures inFlight.Some? && QueryItemsOf(platform, redirect).None? ==> r == Err(OAuth(CannotParseResponse))
    ensures inFlight.Some? && QueryItemsOf(platform, redirect).Some? ==>
      var items := QueryItemsOf(platform, redirect).value;
      var token, verifier := Value(items, "oauth_token"), Value(items, "oauth_verifier");
      && (token.None? || verifier.None? ==> r == Err(OAuth(NoVerifiedTokens)))
      && (token.Some? && verifier.Some? && token.value != inFlight.value.requestToken ==>
            r == Err(OAuth(CredentialsDidNotMatch)))
      && (token == Some(inFlight.value.requestToken) && verifier.Some? ==>
            r == FetchTokenCredentials(platform, config, inFlight.value, verifier.value, uuidString, seconds, transport))
  {
    match inFlight
    case None => Err(OAuth(NoCredentialsOnRedirect))
    case Some(tempCredentials) =>
      match QueryItemsOf(platform, redirect)
      case None => Err(OAuth(CannotParseResponse))
      case Some(parameters) =>
        var oAuthToken, oAuthVerifier := Value(parameters, "oauth_token"), Value(parameters, "oauth_verifier");
        if oAuthToken.None? || oAuthVerifier.None? then Err(OAuth(NoVerifiedTokens))
        else if oAuthToken.value != tempCredentials.requestToken then Err(OAuth(CredentialsDidNotMatch))
        else FetchTokenCredentials(platform, config, tempCredentials, oAuthVerifier.value, uuidString, seconds, transport)
  }

  /** A redirect is redeemed only for the request token in flight: whenever
      token credentials come back, the redirect carried that very token and
      the access request was sent with those temporary credentials. */
  lemma RedirectRedeemedOnlyForInFlightToken(
    platform: Platform, config: Configuration, inFlight: Option<TemporaryCredentials>, redirect: Url,
    uuidString: string, seconds: int, transport: Request -> Exchange)
    requires CredentialsFromRedirect(platform, config, inFlight, redirect, uuidString, seconds, transport).Ok?
    ensures inFlight.Some? && QueryItemsOf(platform, redirect).Some?
    ensures var items := QueryItemsOf(platform, redirect).value;
      && Value(items, "oauth_token") == Some(inFlight.value.requestToken)
      && Value(items, "oauth_verifier").Some?
      && var request := OAuthRequest(platform, config,
           Access(config.accessTokenUrl, inFlight.value, Value(items, "oauth_verifier").value), uuidString, seconds);
         request.Ok? && transport(request.value).response == HttpResponse(200)
  {
  }

  /** `get(from:)` up to the JSON decoding: no stored token credentials is a
      missing access token; otherwise the signed GET must come back as an
      HTTP response with status 200, whose data is the result. */
  function GetData(
    platform: Platform, config: Configuration, token: Option<TokenCredentials>, urlString: string,
    uuidString: string, seconds: int, transport: Request -> Exchange): (r: Result<seq<byte>, Failure>)
    ensures token.None? ==> r == Err(OAuth(MissingAccessToken))
    ensures token.Some? ==>
      var request := OAuthRequest(platform, config, AuthorizedGet(urlString, token.value), uuidString, seconds);
      && (request.Err? ==> r == Err(request.error))
      && (request.Ok? ==>
            match transport(request.value)
            case TransportFailed => r == Err(NetworkError)
            case Received(OtherResponse, _) => r == Err(OAuth(Unknown))
            case Received(HttpResponse(status), data) =>
              r == if status == 200 then Ok(data) else Err(OAuth(HttpURLResponse(status))))
  {
    match token
    case None => Err(OAuth(MissingAccessToken))
    case Some(credentials) =>
      match OAuthRequest(platform, config, AuthorizedGet(urlString, credentials), uuidString, seconds)
      case Err(e) => Err(e)
      case Ok(request) =>
        match transport(request)
        case TransportFailed => Err(NetworkError)
        case Received(OtherResponse, _) => Err(OAuth(Unknown))
        case Received(HttpResponse(status), data) =>
          if status != 200 then Err(OAuth(HttpURLResponse(status))) else Ok(data)
  }

  // ---------------------------------------------------------------------------
  // Keychain locations

  /** `tokenLocation`: the key under which the access token is stored. */
  function TokenLocation(config: Configuration): string
  {
    config.callback + "_key"
  }

  /** `secretLocation`: the key of the access-token secret, never the same as
      the token's. */
  function SecretLocation(config: Configuration): (r: string)
    ensures r != TokenLocation(config)
  {
    config.callback + "_secret"
  }

  /** The two locations never collide, even across configurations: no token
      key is any configuration's secret key, and token keys (like secret
      keys) are equal exactly when the callbacks are. */
  lemma LocationsNeverCollide(c1: Configuration, c2: Configuration)
    ensures TokenLocation(c1) != SecretLocation(c2)
    ensures TokenLocation(c1) == TokenLocation(c2) <==> c1.callback == c2.callback
    ensures SecretLocation(c1) == SecretLocation(c2) <==> c1.callback == c2.callback
  {
    var t1, s2 := TokenLocation(c1), SecretLocation(c2);
    assert t1[|t1| - 1] == 'y' && s2[|s2| - 1] == 't';
    if TokenLocation(c1) == TokenLocation(c2) {
      assert c1.callback == TokenLocation(c1)[..|c1.callback|];
      assert c2.callback == TokenLocation(c2)[..|c2.callback|];
    }
    if SecretLocation(c1) == SecretLocation(c2) {
      assert c1.callback == SecretLocation(c1)[..|c1.callback|];
      assert c2.callback == SecretLocation(c2)[..|c2.callback|];
    }
  }
}
