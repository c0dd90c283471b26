/** `AuthorizedRequestType.swift`: the HTTP methods and the three kinds of
    request the library signs. Each kind fixes the HTTP method, the token
    secret of the signing key and the URL it is sent to. */
module RequestType {
  import opened Wrappers
  import opened Models
  import opened Extensions

  datatype HttpMethod = Get | Post | Put | Patch | Delete

  /** `HTTPMethod.method`: the upper-case method token. */
  function MethodName(m: HttpMethod): (r: string)
    ensures r != [] && forall i :: 0 <= i < |r| ==> 'A' <= r[i] <= 'Z'
  {
    match m
    case Get => "GET"
    case Post => "POST"
    case Put => "PUT"
    case Patch => "PATCH"
    case Delete => "DELETE"
  }

  /** Different methods have different tokens. */
  lemma MethodNameInjective(a: HttpMethod, b: HttpMethod)
    requires MethodName(a) == MethodName(b)
    ensures a == b
  {
    match a
    case Get => assert MethodName(a)[0] == 'G';
    case Post => assert MethodName(a)[..2] == "PO";
    case Put => assert MethodName(a)[..2] == "PU";
    case Patch => assert MethodName(a)[..2] == "PA";
    case Delete => assert MethodName(a)[0] == 'D';
  }

  /** The request for temporary credentials, the request exchanging them and
      a verifier for token credentials, and a GET request signed with token
      credentials. */
  datatype AuthorizedRequestType =
    | Temporary(urlString: string)
    | Access(urlString: string, temporaryCredentials: TemporaryCredentials, verifier: string)
    | AuthorizedGet(urlString: string, token: TokenCredentials)

  /** `baseUrlString`: the URL string every kind carries. */
  function BaseUrlString(t: AuthorizedRequestType): (r: string)
    ensures t.Temporary? ==> r == t.urlString
    ensures t.Access? ==> r == t.urlString
    ensures t.AuthorizedGet? ==> r == t.urlString
  {
    match t
    case Temporary(u) => u
    case Access(u, _, _) => u
    case AuthorizedGet(u, _) => u
  }

  /** `secret`: the token secret of the signing key. Only the temporary
      request is signed without one; the other two use the secret belonging
      to the token they carry. */
  function Secret(t: AuthorizedRequestType): (r: Option<string>)
    ensures r.None? <==> t.Temporary?
    ensures t.Access? ==> r == Some(t.temporaryCredentials.requestTokenSecret)
    ensures t.AuthorizedGet? ==> r == Some(t.token.accessTokenSecret)
  {
    match t
    case Access(_, temporaryCredentials, _) => Some(temporaryCredentials.requestTokenSecret)
    case AuthorizedGet(_, token) => Some(token.accessTokenSecret)
    case _ => None
  }

  /** `httpMethod`: the two credential requests are POSTs, the signed
      resource request is a GET. */
  function Method(t: AuthorizedRequestType): (r: HttpMethod)
    ensures r == Post <==> !t.AuthorizedGet?
    ensures r == Get <==> t.AuthorizedGet?
  {
    match t
    case Temporary(_) | Access(_, _, _) => Post
    case AuthorizedGet(_, _) => Get
  }

  /** `url`: the parsed base URL string, or `BadURLError` when it does not
      parse. */
  function RequestUrl(platform: Platform, t: AuthorizedRequestType): (r: Result<Url, Failure>)
    ensures r.Err? <==> platform.url(BaseUrlString(t)).None?
    ensures r.Err? ==> r.error == BadUrl(BaseUrlString(t))
    ensures r.Ok? ==> platform.url(BaseUrlString(t)) == Some(r.value)
  {
    UrlFromString(platform, BaseUrlString(t))
  }
}
