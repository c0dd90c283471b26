/** The plain records of the library: credentials, configuration and the errors
    a step of the flow can throw. They carry no behaviour of their own. */
module Models {

  /** The request-token pair returned by the temporary-credential request. */
  datatype TemporaryCredentials = TemporaryCredentials(requestToken: string, requestTokenSecret: string)

  /** The access-token pair returned by the token request. */
  datatype TokenCredentials = TokenCredentials(accessToken: string, accessTokenSecret: string)

  datatype OAuthError =
    | Unknown
    | HttpURLResponse(statusCode: int)
    | CannotDecodeRawData
    | CannotParseResponse
    | UnexpectedResponse
    | ResponseParametersEmpty
    | FailedToConfirmCallback
    | NoVerifiedTokens
    | NoCredentialsOnRedirect
    | CredentialsDidNotMatch
    | MissingAccessToken
    | FailedUrlStrippingQueries

  /** The client configuration, supplied once. */
  datatype Configuration = Configuration(
    client: string,
    consumerKey: string,
    consumerSecret: string,
    callback: string,
    callbackScheme: string,
    requestTokenUrl: string,
    authorizeUrl: string,
    accessTokenUrl: string)

  /** Everything a step can throw: the library's own errors, the `BadURLError`
      of the throwing `URL(string:)` initialiser, and a failure of the transport
      itself (the error `URLSession` throws, which the library only propagates). */
  datatype Failure =
    | OAuth(error: OAuthError)
    | BadUrl(urlString: string)
    | NetworkError
}
