/** `OAuth.swift` and the state-changing half of `OAuthAuthorizer.swift`:
    `OAuthManager` holds the configuration and the temporary credentials of
    the exchange in flight; the token credentials live in the keychain, a map
    from location to stored string here. All network traffic goes through the
    `transport` parameter; the nonce and the time of each request are the
    `uuidString` and `seconds` parameters. */
module Manager {
  import opened Wrappers
  import opened Models
  import opened Extensions
  import opened RequestType
  import opened Authorizer

  /** `KeychainManager.get(for:)`, which fails for a missing key. */
  function Read(keychain: map<string, string>, key: string): Option<string> {
    if key in keychain then Some(keychain[key]) else None
  }

  /** The token credentials a keychain holds for a configuration: the token
      and secret stored at its two locations, or nothing when either read
      fails. */
  function StoredCredentials(config: Configuration, keychain: map<string, string>): (r: Option<TokenCredentials>)
    ensures r.Some? <==> TokenLocation(config) in keychain && SecretLocation(config) in keychain
    ensures r.Some? ==>
      r.value.accessToken == keychain[TokenLocation(config)] && r.value.accessTokenSecret == keychain[SecretLocation(config)]
  {
    match Read(keychain, TokenLocation(config))
    case None => None
    case Some(token) =>
      match Read(keychain, SecretLocation(config))
      case None => None
      case Some(secret) => Some(TokenCredentials(token, secret))
  }

  /** Saving a token at the token location and its secret at the secret
      location stores exactly those credentials. */
  lemma SavedCredentialsAreStored(config: Configuration, keychain: map<string, string>, token: TokenCredentials)
    ensures StoredCredentials(config, keychain[TokenLocation(config) := token.accessToken]
                                              [SecretLocation(config) := token.accessTokenSecret]) == Some(token)
  {
  }

  /** Removing both locations leaves no credentials, and keeps every other key. */
  lemma RemovedCredentialsAreGone(config: Configuration, keychain: map<string, string>, key: string)
    ensures StoredCredentials(config, keychain - {TokenLocation(config), SecretLocation(config)}) == None
    ensures key != TokenLocation(config) && key != SecretLocation(config) && key in keychain ==>
      Read(keychain - {TokenLocation(config), SecretLocation(config)}, key) == Some(keychain[key])
  {
  }

  class OAuthManager {
    var config: Configuration
    var temporaryCredentials: Option<TemporaryCredentials>
    var keychain: map<string, string>

    /** `init(config:)`: no exchange in flight; `keychain` is what the shared
        keychain already holds. */
    constructor (config: Configuration, keychain: map<string, string>)
      ensures this.config == config && this.keychain == keychain
      ensures temporaryCredentials == None
    {
      this.config := config;
      this.temporaryCredentials := None;
      this.keychain := keychain;
    }

    /** `tokenCredentials`. */
    function CurrentTokenCredentials(): (r: Option<TokenCredentials>)
      reads this
      ensures r == StoredCredentials(config, keychain)
    {
      StoredCredentials(config, keychain)
    }

    /** `isAuthenticated`: both halves of the token credentials are stored. */
    predicate IsAuthenticated()
      reads this
      ensures IsAuthenticated() <==> TokenLocation(config) in keychain && SecretLocation(config) in keychain
    {
      CurrentTokenCredentials().Some?
    }

    /** `clearCredentials`: removes the two locations and nothing else. */
    method ClearCredentials()
      modifies this
      ensures keychain == old(keychain) - {TokenLocation(config), SecretLocation(config)}
      ensures config == old(config) && temporaryCredentials == old(temporaryCredentials)
      ensures !IsAuthenticated()
    {
      RemovedCredentialsAreGone(config, keychain, "");
      keychain := keychain - {TokenLocation(config)};
      keychain := keychain - {SecretLocation(config)};
    }

    /** `getTemporaryCredentials`. */
    method GetTemporaryCredentials(
      platform: Platform, uuidString: string, seconds: int, transport: Request -> Exchange)
      returns (r: Result<TemporaryCredentials, Failure>)
      ensures r == FetchTemporaryCredentials(platform, config, uuidString, seconds, transport)
    {
      var urlRequest := BuildOAuthRequest(platform, config, Temporary(config.requestTokenUrl), uuidString, seconds);
      if urlRequest.Err? {
        return Err(urlRequest.error);
      }
      var parameters := ResponseParameters(platform, transport(urlRequest.value));
      if parameters.Err? {
        return Err(parameters.error);
      }
      r := ParseTemporaryCredentials(parameters.value);
    }

    /** `getAuthorizeUrl`: the temporary credentials are kept only when they
        were obtained, and are kept even when the authorize URL then fails to
        parse. */
    method GetAuthorizeUrl(platform: Platform, uuidString: string, seconds: int, transport: Request -> Exchange)
      returns (r: Result<Url, Failure>)
      modifies this
      ensures config == old(config)
      ensures keychain == old(keychain)
      ensures var fetched := FetchTemporaryCredentials(platform, old(config), uuidString, seconds, transport);
        && (fetched.Err? ==> r == Err(fetched.error) && temporaryCredentials == old(temporaryCredentials))
        && (fetched.Ok? ==>
              && temporaryCredentials == Some(fetched.value)
              && r == UrlFromString(platform, config.authorizeUrl + "?oauth_token=" + fetched.value.requestToken))
    {
      var fetched := GetTemporaryCredentials(platform, uuidString, seconds, transport);
      if fetched.Err? {
        return Err(fetched.error);
      }
      SetTemporaryCredentials(fetched.value);
      var authUrlString := config.authorizeUrl + "?oauth_token=" + fetched.value.requestToken;
      r := UrlFromString(platform, authUrlString);
    }

    /** `KeychainManager.save(key:value:)`: stores one location, leaving the
        others as they were. */
    method Save(key: string, value: string)
      modifies this
      ensures keychain == old(keychain)[key := value]
      ensures config == old(config) && temporaryCredentials == old(temporaryCredentials)
    {
      keychain := keychain[key := value];
    }

    /** The setter of `temporaryCredentials`. */
    method SetTemporaryCredentials(c: TemporaryCredentials)
      modifies this
      ensures temporaryCredentials == Some(c)
      ensures config == old(config) && keychain == old(keychain)
    {
      temporaryCredentials := Some(c);
    }

    /** `getTokenCredentials`. */
    method GetTokenCredentials(
      platform: Platform, tempCredentials: TemporaryCredentials, verifier: string,
      uuidString: string, seconds: int, transport: Request -> Exchange)
      returns (r: Result<TokenCredentials, Failure>)
      ensures r == FetchTokenCredentials(platform, config, tempCredentials, verifier, uuidString, seconds, transport)
    {
      var authorizationType := Access(config.accessTokenUrl, tempCredentials, verifier);
      var urlRequest := BuildOAuthRequest(platform, config, authorizationType, uuidString, seconds);
      if urlRequest.Err? {
        return Err(urlRequest.error);
      }
      var parameters := ResponseParameters(platform, transport(urlRequest.value));
      if parameters.Err? {
        return Err(parameters.error);
      }
      r := ParseTokenCredentials(parameters.value);
    }

    /** `getCredentialsFromRedirect`, its guards in the source's order. */
    method GetCredentialsFromRedirect(
      platform: Platform, url: Url, uuidString: string, seconds: int, transport: Request -> Exchange)
      returns (r: Result<TokenCredentials, Failure>)
      ensures r == CredentialsFromRedirect(platform, config, temporaryCredentials, url, uuidString, seconds, transport)
    {
      if temporaryCredentials.None? {
        return Err(OAuth(NoCredentialsOnRedirect));
      }
      var tempCredentials := temporaryCredentials.value;
      var parameters := QueryItemsOf(platform, url);
      if parameters.None? {
        return Err(OAuth(CannotParseResponse));
      }
      var oAuthToken := Value(parameters.value, "oauth_token");
      var oAuthVerifier := Value(parameters.value, "oauth_verifier");
      if oAuthToken.None? || oAuthVerifier.None? {
        return Err(OAuth(NoVerifiedTokens));
      }
      if oAuthToken.value != tempCredentials.requestToken {
        return Err(OAuth(CredentialsDidNotMatch));
      }
      r := GetTokenCredentials(platform, tempCredentials, oAuthVerifier.value, uuidString, seconds, transport);
    }

    /** `handleOAuthRedirect`: on any failure nothing is stored; on success
        exactly the two locations are written, after which the manager is
        authenticated with the credentials just obtained. */
    method HandleOAuthRedirect(
      platform: Platform, url: Url, uuidString: string, seconds: int, transport: Request -> Exchange)
      returns (failure: Option<Failure>)
      modifies this
      ensures config == old(config) && temporaryCredentials == old(temporaryCredentials)
      ensures var outcome := CredentialsFromRedirect(
          platform, old(config), old(temporaryCredentials), url, uuidString, seconds, transport);
        && (outcome.Err? ==> failure == Some(outcome.error) && keychain == old(keychain))
        && (outcome.Ok? ==>
              && failure == None
              && keychain == old(keychain)[TokenLocation(config) := outcome.value.accessToken]
                                          [SecretLocation(config) := outcome.value.accessTokenSecret]
              && CurrentTokenCredentials() == Some(outcome.value))
    {
      var token := GetCredentialsFromRedirect(platform, url, uuidString, seconds, transport);
      if token.Err? {
        return Some(token.error);
      }
      Save(TokenLocation(config), token.value.accessToken);
      Save(SecretLocation(config), token.value.accessTokenSecret);
      SavedCredentialsAreStored(config, old(keychain), token.value);
      failure := None;
    }

    /** `get(from:)` up to the JSON decoding of the data. */
    method Get(platform: Platform, urlString: string, uuidString: string, seconds: int, transport: Request -> Exchange)
      returns (r: Result<seq<byte>, Failure>)
      ensures r == GetData(platform, config, CurrentTokenCredentials(), urlString, uuidString, seconds, transport)
    {
      var token := CurrentTokenCredentials();
      if token.None? {
        return Err(OAuth(MissingAccessToken));
      }
      var request := AuthorizedGet(urlString, token.value);
      var urlRequest := BuildOAuthRequest(platform, config, request, uuidString, seconds);
      if urlRequest.Err? {
        return Err(urlRequest.error);
      }
      match transport(urlRequest.value) {
        case TransportFailed => return Err(NetworkError);
        case Received(OtherResponse, _) => return Err(OAuth(Unknown));
        case Received(HttpResponse(statusCode), data) =>
          if statusCode != 200 {
            return Err(OAuth(HttpURLResponse(statusCode)));
          }
          return Ok(data);
      }
    }
  }
}
