# MGOAuth1 in Dafny

A model of the core of MGOAuth1, a small Swift client for OAuth 1.0a
(RFC 5849). It covers four parts:

- **Signing.** The signature base string (section 3.4.1 of RFC 5849), the HMAC-SHA1 signing key (section 3.4.2), the `Authorization` header (section 3.5.1), and the assembly of the signed parameters in `buildOAuthRequest`.
- **Reading responses.** `getResponseParameters`, `parseTemporaryCredentials` and `parseTokenCredentials`, each with its guards in the source's order.
- **The helpers the signing relies on.** The RFC 3986 percent-encoder, the lookup of a query item by name, the query-stripping of a URL, the nonce and the timestamp.
- **The credential exchange.** `OAuthManager` with its configuration, the temporary credentials in flight and the keychain. The keychain is a map field here. On it run `getAuthorizeUrl`, `handleOAuthRedirect`, `clearCredentials`, the `tokenCredentials`/`isAuthenticated` queries, and `get(from:)` up to JSON decoding.

Modules follow the source files:

| module | file | source |
|---|---|---|
| `Wrappers` | wrappers.dfy | Swift's `Optional` and `throws`, as `Option` and `Result` |
| `Models` | models.dfy | `OAuth+Models.swift`, `OAuth+Config.swift`, and the errors a step can throw |
| `Strings` | strings.dfy | the standard-library pieces used: string order, `sorted()`, `joined(separator:)`, `map` |
| `Extensions` | extensions.dfy | `OAuth+Extensions.swift` |
| `RequestType` | request_type.dfy | `AuthorizedRequestType.swift` |
| `Authorizer` | authorizer.dfy | `OAuthAuthorizer.swift`: signing and response handling as functions, and each step of the exchange as a function of its inputs |
| `Manager` | manager.dfy | `OAuth.swift`, plus the `OAuthAuthorizer` extension methods that read or change the manager's state |

The imperative code stays imperative:

- `oAuthSignatureBaseString` and `oAuthAuthorizationHeader` collect their components in a `for` loop.
- `buildOAuthRequest` grows its parameter list step by step.
- The manager methods assign `temporaryCredentials` and write the keychain.

Each such method is proved equal to a specification function. The properties are proved about those functions.

What the platform computes is given to the model as inputs:

- **A `Platform` value** holds the foreign calls as total functions: `URL(string:)`, `String.urlQueryItems`, `String(data:encoding: .utf8)` and `hmacSHA1Hash`.
- **A `transport` function** from the request to what came back stands for the network.
- **The nonce** comes from a `uuidString` parameter.
- **The time** comes from a `seconds` parameter.

The allowed set of the encoder is ASCII: `CharacterSet.urlRFC3986Allowed` adds `- _ . ~` to Foundation's `.alphanumerics`, which is Unicode-wide, but `addingPercentEncoding(withAllowedCharacters:)` ignores the members of the allowed set outside 7-bit ASCII and escapes every byte of a non-ASCII character (`café` becomes `caf%C3%A9`). `Extensions.IsUrlRfc3986Allowed` is therefore exactly the set the encoder leaves alone.

### Where the code departs from RFC 5849

- **Sort order.** `oAuthSignatureBaseString` and `oAuthAuthorizationHeader` sort whole `name=value` strings. RFC 5849 sorts by name first, then by value. `Authorizer.ParameterStringSortsWholeComponents` proves where the two orders disagree: names `a` and `a1` put `a1=…` before `a=…`. `Authorizer.SameNameOrderedByValue` and `Authorizer.SameNameSortedByValue` prove where they agree: components with the same name are ordered by encoded value, a missing value counting as empty.

### What the flow keeps between steps

- **Temporary credentials are kept.** They stay in the manager after a successful redirect. A second redirect with the same token sends a second access request with it; whether that request is redeemed is up to the server, which section 2.3 of RFC 5849 makes responsible for one-time use.
- **Order of steps in `getAuthorizeUrl`.** It stores the temporary credentials before it parses the authorize URL, so they are kept even when that parse throws `BadURLError`.

## Model

| member | source | states |
|---|---|---|
| `Extensions.PercentEncode` | Sources/MGOAuth1/OAuth+Extensions.swift:19-21 | the encoder is total and its output consists of unreserved characters and `%XX` triplets with upper-case hex digits |
| `Extensions.PercentEncodeIdentity` | Sources/MGOAuth1/OAuth+Extensions.swift:13-15 | encoding leaves a string unchanged exactly when every character is an ASCII letter, a digit or one of `- _ . ~` |
| `Extensions.PercentEncodedAlphabet` | Sources/MGOAuth1/OAuth+Extensions.swift:19-21 | every character of encoded output is an unreserved character or `%` |
| `Extensions.PercentEncodeConcat` | Sources/MGOAuth1/OAuth+Extensions.swift:19-21 | encoding works character by character: the encoding of `a + b` is the encoding of `a` followed by that of `b` |
| `Extensions.PercentEncodeLength` | Sources/MGOAuth1/OAuth+Extensions.swift:19-21 | encoding never shortens a string, and lengthens it by at least two when some character is not unreserved |
| `Extensions.PercentDecodeEncode` | Sources/MGOAuth1/OAuth+Extensions.swift:19-21 | decoding the triplets of an encoded string gives back the UTF-8 bytes of the original |
| `Extensions.PercentEncodeInjective` | Sources/MGOAuth1/OAuth+Extensions.swift:19-21 | different strings have different encodings |
| `Extensions.Utf8RoundTrip` | Sources/MGOAuth1/OAuth+Extensions.swift:19-21 | the UTF-8 bytes the encoder escapes decode back to the string |
| `Extensions.Filter` | Sources/MGOAuth1/OAuth+Extensions.swift:48-50 | `filter` by name is empty exactly when no item has the name, and otherwise starts with the first item that has it |
| `Extensions.Value` | Sources/MGOAuth1/OAuth+Extensions.swift:48-54 | the subscript is the value of the first item with the name; it is nil when no item has the name or when that first item has no value |
| `Extensions.ValueIgnoresLaterItems` | Sources/MGOAuth1/OAuth+Extensions.swift:48-54 | items appended after a match do not change the lookup, so later duplicates are ignored |
| `Extensions.ValueSkipsOtherNames` | Sources/MGOAuth1/OAuth+Extensions.swift:48-54 | items with other names placed before the list do not change the lookup |
| `Extensions.FirstMatchIndex` | Sources/MGOAuth1/OAuth+Extensions.swift:49 | whenever some item has the name, there is a first one, at or before it |
| `Extensions.AbsoluteStringByTrimmingQuery` | Sources/MGOAuth1/OAuth+Extensions.swift:76-88 | fails with `failedUrlStrippingQueries` exactly when the URL cannot be decomposed or recomposed; otherwise the result is the full URL string with its `?query` part removed and nothing else changed |
| `Extensions.UrlFromString` | Sources/MGOAuth1/OAuth+Extensions.swift:71-74 | the throwing `URL(string:)` fails with `BadURLError(string)` exactly when the string does not parse |
| `Extensions.GenerateNonce` | Sources/MGOAuth1/OAuth+Extensions.swift:27-30 | the nonce is a prefix of the UUID string, eight characters long when the string has at least eight |
| `Extensions.NonceFromUuid` | Sources/MGOAuth1/OAuth+Extensions.swift:27-30 | for a standard UUID string the nonce is eight hexadecimal digits, which encoding leaves unchanged |
| `Extensions.Timestamp` | Sources/MGOAuth1/OAuth+Extensions.swift:32-34 | `String(Int)` of the whole seconds: decimal digits only for a non-negative time, a minus sign followed by digits for a negative one; never a leading zero, except the numeral `0` itself |
| `Extensions.TimestampRoundTrip` | Sources/MGOAuth1/OAuth+Extensions.swift:32-34 | the digits read back as the time (as its magnitude after the minus sign for a negative time), and encoding leaves the timestamp unchanged |
| `RequestType.MethodName` | Sources/MGOAuth1/AuthorizedRequestType.swift:13-21 | each method token is non-empty and upper-case |
| `RequestType.MethodNameInjective` | Sources/MGOAuth1/AuthorizedRequestType.swift:13-21 | distinct methods have distinct tokens |
| `RequestType.BaseUrlString` | Sources/MGOAuth1/AuthorizedRequestType.swift:35-40 | the base URL string is the one carried by whichever kind of request it is |
| `RequestType.Secret` | Sources/MGOAuth1/AuthorizedRequestType.swift:42-51 | no secret for the temporary request; the request-token secret for the access request; the access-token secret for a signed GET |
| `RequestType.Method` | Sources/MGOAuth1/AuthorizedRequestType.swift:53-60 | POST for the temporary and access requests, GET for a signed GET |
| `RequestType.RequestUrl` | Sources/MGOAuth1/AuthorizedRequestType.swift:29-33 | `url` fails with `BadURLError` exactly when the base URL string does not parse, and otherwise is the parsed URL |
| `Strings.Sort` | Sources/MGOAuth1/OAuthAuthorizer.swift:208 | `sorted()` gives a sorted permutation of its input |
| `Strings.SortDependsOnlyOnMultiset` | Sources/MGOAuth1/OAuthAuthorizer.swift:208 | the result of `sorted()` depends only on the multiset of its input |
| `Authorizer.BuildSignatureBaseString` | Sources/MGOAuth1/OAuthAuthorizer.swift:200-216 | the loop computes the base string: the method, `&`, the encoded base URL, `&`, and the encoded `joined(separator: "&")` (`Strings.Join`) of the sorted `enc(name)=enc(value)` components, where a missing value counts as empty |
| `Authorizer.SignatureBaseStringIgnoresOrder` | Sources/MGOAuth1/OAuthAuthorizer.swift:201-208 | the base string depends only on the multiset of the parameters, not on their order |
| `Authorizer.SignatureBaseStringUnambiguous` | Sources/MGOAuth1/OAuthAuthorizer.swift:209-213 | for methods without `&`, equal base strings have equal methods, equal base URLs and equal parameter strings |
| `Authorizer.SameNameOrderedByValue` | Sources/MGOAuth1/OAuthAuthorizer.swift:203-208 | for two parameters with the same name, one component sorts before the other exactly when its encoded value (empty for a missing value) does |
| `Authorizer.SameNameSortedByValue` | Sources/MGOAuth1/OAuthAuthorizer.swift:201-208 | in the sorted components, a component placed before another of the same name has the lesser or equal encoded value |
| `Authorizer.ParameterStringSortsWholeComponents` | Sources/MGOAuth1/OAuthAuthorizer.swift:208 | when one name extends another by a digit, `-` or `.`, the shorter name sorts first, yet the longer name's component comes first in the parameter string |
| `Authorizer.SigningKey` | Sources/MGOAuth1/OAuthAuthorizer.swift:219-225 | the key is `enc(consumerSecret) & enc(tokenSecret)`; without a token secret it equals the key for an empty one |
| `Authorizer.SigningKeyUnambiguous` | Sources/MGOAuth1/OAuthAuthorizer.swift:219-225 | the key determines the consumer secret and the token secret (a missing token secret counted as empty) |
| `Authorizer.BuildSignature` | Sources/MGOAuth1/OAuthAuthorizer.swift:184-197 | the signature is HMAC-SHA1 (in Base64) of the base string, keyed with `enc(consumerSecret) & enc(tokenSecret)` |
| `Authorizer.SignatureIgnoresOrder` | Sources/MGOAuth1/OAuthAuthorizer.swift:184-208 | the signature does not depend on the order of the parameters |
| `Authorizer.BuildAuthorizationHeader` | Sources/MGOAuth1/OAuthAuthorizer.swift:228-237 | the loop computes `OAuth ` followed by the `joined(separator: ", ")` (`Strings.Join`) of the sorted `enc(name)="enc(value)"` components of every parameter |
| `Authorizer.AuthorizationHeaderIgnoresOrder` | Sources/MGOAuth1/OAuthAuthorizer.swift:228-237 | the header depends only on the multiset of the parameters |
| `Authorizer.OAuthRequest` | Sources/MGOAuth1/OAuthAuthorizer.swift:136-180 | an unparseable base URL gives `BadURLError`; a URL that cannot be stripped of its query gives `failedUrlStrippingQueries`; these are the only failures; a built request carries the parsed URL and the kind's method token |
| `Authorizer.BuildOAuthRequest` | Sources/MGOAuth1/OAuthAuthorizer.swift:136-180 | building the parameter list step by step gives the request `OAuthRequest` describes |
| `Authorizer.OAuthRequestAuthorization` | Sources/MGOAuth1/OAuthAuthorizer.swift:162-178 | the header covers the signed parameters plus `oauth_signature`; the signature is computed over exactly the signed parameters, with the kind's method and secret and the base URL without its query |
| `Authorizer.BaselineValues` | Sources/MGOAuth1/OAuthAuthorizer.swift:140-146 | the signed set gives `oauth_consumer_key` the consumer key, `oauth_nonce` the nonce, `oauth_signature_method` `HMAC-SHA1`, `oauth_timestamp` the timestamp and `oauth_version` `1.0`, whatever follows these five |
| `Authorizer.VariantValues` | Sources/MGOAuth1/OAuthAuthorizer.swift:148-159 | the signed set gives `oauth_callback` for the temporary request, `oauth_token` (the request token) and `oauth_verifier` for the access request, and `oauth_token` (the access token) for a signed GET, whatever follows them |
| `Authorizer.ProtocolParametersUnsigned` | Sources/MGOAuth1/OAuthAuthorizer.swift:140-173 | no protocol parameter is named `oauth_signature`: the signature is appended only after signing |
| `Authorizer.GetResponseParameters` | Sources/MGOAuth1/OAuthAuthorizer.swift:90-112 | guards in order: not HTTP gives `unknown`; status other than 200 gives `httpURLResponse(status)`; not UTF-8 gives `cannotDecodeRawData`; no query items give `unexpectedResponse`; none at all give `responseParametersEmpty`; success means a non-empty list from a 200 response |
| `Authorizer.ResponseParameters` | Sources/MGOAuth1/OAuthAuthorizer.swift:36-37 | a thrown transport error propagates; otherwise it is `getResponseParameters` of the data and response |
| `Authorizer.ParseTemporaryCredentials` | Sources/MGOAuth1/OAuthAuthorizer.swift:114-125 | any of the three fields missing gives `unexpectedResponse`; a confirmation other than `true` gives `failedToConfirmCallback`; succeeds exactly when token, secret and `true` confirmation are present, with those values |
| `Authorizer.ParseTokenCredentials` | Sources/MGOAuth1/OAuthAuthorizer.swift:127-133 | succeeds exactly when token and secret are present, with those values; otherwise `cannotParseResponse` |
| `Authorizer.TemporaryResponseExample` | Sources/MGOAuth1/OAuthAuthorizer.swift:90-125 | a status 200 answer whose body `oauth_token=abc&oauth_token_secret=xyz&oauth_callback_confirmed=true` decodes and parses into those three items gives the temporary credentials `abc`/`xyz` |
| `Authorizer.TokenResponseExample` | Sources/MGOAuth1/OAuthAuthorizer.swift:90-133 | a status 200 answer whose body `oauth_token=final&oauth_token_secret=finalsecret` decodes and parses into those two items gives the token credentials `final`/`finalsecret` |
| `Authorizer.TemporaryCredentialsFrom` | Sources/MGOAuth1/OAuthAuthorizer.swift:36-38 | response errors propagate, otherwise the parsed credentials; credentials come only from a status 200 HTTP response |
| `Authorizer.FetchTemporaryCredentials` | Sources/MGOAuth1/OAuthAuthorizer.swift:33-40 | a request-building error propagates; otherwise the answer to the temporary request to the request-token URL decides |
| `Authorizer.TokenCredentialsFrom` | Sources/MGOAuth1/OAuthAuthorizer.swift:83-85 | response errors propagate, otherwise the parsed credentials; credentials come only from a status 200 HTTP response |
| `Authorizer.FetchTokenCredentials` | Sources/MGOAuth1/OAuthAuthorizer.swift:75-87 | a request-building error propagates; otherwise the answer to the access request with the temporary credentials and verifier decides |
| `Authorizer.CredentialsFromRedirect` | Sources/MGOAuth1/OAuthAuthorizer.swift:49-73 | checks in order: nothing in flight gives `noCredentialsOnRedirect`; no query gives `cannotParseResponse`; a missing token or verifier gives `noVerifiedTokens`; a token other than the request token gives `credentialsDidNotMatch`; only then is the verifier redeemed |
| `Authorizer.RedirectRedeemedOnlyForInFlightToken` | Sources/MGOAuth1/OAuthAuthorizer.swift:49-73 | token credentials are obtained only when the redirect carried the in-flight request token and a verifier, and the access request was answered with status 200 |
| `Authorizer.GetData` | Sources/MGOAuth1/OAuthAuthorizer.swift:241-256 | no stored token gives `missingAccessToken`; request errors propagate; a non-HTTP response gives `unknown`; a status other than 200 gives `httpURLResponse(status)`; otherwise the data |
| `Authorizer.LocationsNeverCollide` | Sources/MGOAuth1/OAuthAuthorizer.swift:264-265 | no configuration's token location is any configuration's secret location, and two token (or two secret) locations are equal exactly when the callbacks are |
| `Authorizer.SecretLocation` | Sources/MGOAuth1/OAuthAuthorizer.swift:265 | the secret location differs from the token location of the same configuration |
| `Manager.StoredCredentials` | Sources/MGOAuth1/OAuth.swift:17-26 | credentials are present exactly when both locations are stored, and consist of the two stored values |
| `Manager.SavedCredentialsAreStored` | Sources/MGOAuth1/OAuthAuthorizer.swift:45-46 | saving a token and its secret at the two locations stores exactly those credentials |
| `Manager.RemovedCredentialsAreGone` | Sources/MGOAuth1/OAuth.swift:36-39 | removing the two locations leaves no credentials and keeps every other key |
| `Manager.OAuthManager.constructor` | Sources/MGOAuth1/OAuth.swift:32-34 | the configuration is the given one and no temporary credentials are in flight |
| `Manager.OAuthManager.CurrentTokenCredentials` | Sources/MGOAuth1/OAuth.swift:17-26 | `tokenCredentials` is what the keychain holds at the two locations |
| `Manager.OAuthManager.IsAuthenticated` | Sources/MGOAuth1/OAuth.swift:28-30 | authenticated exactly when both locations are stored |
| `Manager.OAuthManager.ClearCredentials` | Sources/MGOAuth1/OAuth.swift:36-39 | removes exactly the two locations and leaves the configuration and temporary credentials alone, after which the manager is not authenticated |
| `Manager.OAuthManager.GetTemporaryCredentials` | Sources/MGOAuth1/OAuthAuthorizer.swift:33-40 | computes `FetchTemporaryCredentials` for the manager's configuration |
| `Manager.OAuthManager.GetAuthorizeUrl` | Sources/MGOAuth1/OAuthAuthorizer.swift:25-31 | a failed fetch is passed on and leaves the temporary credentials unchanged; a successful one stores them and returns `URL(string:)` of the authorize URL, `?oauth_token=` and the unencoded request token; the keychain is unchanged |
| `Manager.OAuthManager.GetTokenCredentials` | Sources/MGOAuth1/OAuthAuthorizer.swift:75-87 | computes `FetchTokenCredentials` for the manager's configuration |
| `Manager.OAuthManager.GetCredentialsFromRedirect` | Sources/MGOAuth1/OAuthAuthorizer.swift:49-73 | its guards compute `CredentialsFromRedirect` for the credentials in flight |
| `Manager.OAuthManager.HandleOAuthRedirect` | Sources/MGOAuth1/OAuthAuthorizer.swift:43-47 | a failure is passed on and writes nothing; success writes exactly the token and secret at their two locations, after which `tokenCredentials` is the obtained pair; configuration and temporary credentials are unchanged |
| `Manager.OAuthManager.Get` | Sources/MGOAuth1/OAuthAuthorizer.swift:241-256 | computes `GetData` with the stored token credentials |

## Left out

- `WKView.swift` and `OAuthObservable.swift` are not part of this model. They are SwiftUI/WebKit UI and `@MainActor` orchestration, and only forward to the manager.
- `hmacSHA1Hash` (`OAuth+Extensions.swift:36-43`) calls CommonCrypto. It is the uninterpreted `Platform.hmacSha1Base64`. This leaves out that the source passes character counts, not UTF-8 byte lengths, to `CCHmac`.
- `URL(string:)`, `urlQueryItems` and `String(data:encoding:)` are Foundation parsing. They are `Platform` functions. `URLComponents` is a record of its parts, and whether it can recompose them is written out (`ComponentsString`), but percent-encoding is not.
- Extensions.PercentEncode: strings are sequences of Unicode scalar values. Swift's grapheme clusters and normalisation are not modelled. The model compares strings scalar by scalar, but Swift's `String ==` uses canonical equivalence. Three comparisons differ for that reason: the name match `$0.name == name` in the query-item subscript (OAuth+Extensions.swift:49, `Extensions.Value`), the token check `oAuthToken != tempCredentials.requestToken` (OAuthAuthorizer.swift:63, `Authorizer.CredentialsFromRedirect`) and the callback check `== "true"` (OAuthAuthorizer.swift:120, `Authorizer.ParseTemporaryCredentials`). A token written with different but canonically equivalent scalars fails with `credentialsDidNotMatch` in the model, while the source accepts it.
- `URLSession.shared.data(for:)` is network I/O. It is the `transport` parameter. A thrown error is `NetworkError`, which the library only propagates.
- `Date()` and `UUID()` are inputs: the whole seconds since 1970 and the UUID string.
- `JSONDecoder().decode` in `get(from:)` is foreign generic decoding. `Manager.OAuthManager.Get` returns the data it would decode.
- `MGKeychain` is not part of this model. The shared keychain is the manager's `keychain` map.
  - Manager.OAuthManager.CurrentTokenCredentials: the `print` of the error when a read fails (`OAuth.swift:23`) is console output and is not modelled; only the nil result is.
  - Manager.OAuthManager.HandleOAuthRedirect: saves are treated as infallible, so a keychain error after the first save (which would leave only the token stored) is not modelled.
  - Manager.OAuthManager.ClearCredentials: removes are treated as infallible. Nothing is claimed about `remove` of a missing key.
- A `URLRequest` is modelled by three fields of `Request`: the URL, the HTTP method, and the whole `Authorization` header value (`OAuth ` followed by every component, `oauth_signature` among them). The rest of a `URLRequest` is not modelled.
- The `async` flow methods (`getAuthorizeUrl`, `handleOAuthRedirect`, `get(from:)` and the steps they await) are each modelled as one atomic step. Interleavings at their `await` points are not modelled. For example, a second `getAuthorizeUrl` could replace `temporaryCredentials` while the access request of an earlier redirect is still outstanding.
