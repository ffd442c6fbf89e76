/** The URLs one Etsy environment (sandbox or production) supplies. */
module Environments {

  datatype EtsyEnv = EtsyEnv(
    apiUrl: string,
    requestTokenUrl: string,
    accessTokenUrl: string,
    signinUrl: string)
}

/**
 * The three-legged OAuth1 handshake of `EtsyOAuthClient` (etsy/_oauth.py):
 * no token, then a pending request token after `get_signin_url`, then an
 * access token after `get_access_token`. Network replies are inputs, already
 * parsed; the OAuth1 signer is a value recording what it was built from.
 */
module OAuth {
  import opened Results
  import PyStr
  import Tokens
  import Environments

  datatype SignatureMethod = HmacSha1 | Plaintext

  /**
   * An `OAuth1` signer. Every signer here places its signature in the
   * Authorization header, which is also the library's default.
   */
  datatype OAuth1 = OAuth1(
    clientKey: string,
    clientSecret: string,
    resourceOwnerKey: Option<string>,
    resourceOwnerSecret: Option<string>,
    verifier: Option<string>,
    signatureMethod: SignatureMethod)

  /** The signer for authenticated API calls: PLAINTEXT, in the header. */
  function AccessSigner(consumerKey: string, consumerSecret: string, key: Option<string>, secret: Option<string>): OAuth1 {
    OAuth1(consumerKey, consumerSecret, key, secret, None, Plaintext)
  }

  /** The `scope` argument: a list or tuple of scope names, or anything else. */
  datatype Scope = ListOrTuple(items: seq<string>) | NotListOrTuple

  /**
   * A reply of the token endpoint: `unquote(r.text)` and `parse_qs(r.text)`,
   * which maps each field to the list of its values.
   */
  datatype TokenReply = TokenReply(unquotedText: string, credentials: map<string, seq<string>>)

  /** The POST sent to a token endpoint; `scope` is its only query parameter, if any. */
  datatype TokenRequest = TokenRequest(url: string, scope: Option<string>, auth: OAuth1)

  datatype OAuthError =
    | ScopeNotListOrTuple
    | MissingCredential(field: string)

  const TokenField := "oauth_token"
  const TokenSecretField := "oauth_token_secret"

  /** `credentials.get(field)[0]`: `None` where Python raises (field absent or empty). */
  function FirstValue(credentials: map<string, seq<string>>, field: string): (r: Option<string>)
    ensures r.Some? <==> field in credentials && credentials[field] != []
    ensures r.Some? ==> r.value == credentials[field][0]
  {
    if field in credentials && credentials[field] != [] then Some(credentials[field][0]) else None
  }

  /** The characters `lstrip('login_url=')` removes: a set, not a prefix. */
  const LoginUrlChars: set<char> := {'l', 'o', 'g', 'i', 'n', '_', 'u', 'r', '='}

  /** The sign-in URL `get_signin_url` returns for an unquoted reply text. */
  function SigninUrl(unquotedText: string): (u: string)
    ensures |u| <= |unquotedText| && u == unquotedText[|unquotedText| - |u|..]
    ensures u == [] || u[0] !in LoginUrlChars
  {
    PyStr.LStrip(unquotedText, LoginUrlChars)
  }

  /**
   * A reply `login_url=<h><u>` yields only `u` when every character of `h`
   * is one of the stripped ones and `u` does not start with one: the strip
   * removes `login_url=` and also any URL text made of those letters
   * (`login_url=rug.example` gives `.example`).
   */
  lemma SigninUrlOfLoginUrl(h: string, u: string)
    requires forall k :: 0 <= k < |h| ==> h[k] in LoginUrlChars
    requires u == [] || u[0] !in LoginUrlChars
    ensures SigninUrl("login_url=" + h + u) == u
  {
    var p := "login_url=" + h;
    assert forall k :: 0 <= k < 10 ==> p[k] in LoginUrlChars;
    assert forall k :: 10 <= k < |p| ==> p[k] == h[k - 10];
    PyStr.LStripPrefix(p, u, LoginUrlChars);
  }

  class EtsyOAuthClient {
    const consumerKey: string
    const consumerSecret: string
    var oauth: OAuth1
    const requestTokenUrl: string
    const accessTokenUrl: string
    const signinUrl: string
    var resourceOwnerKey: Option<string>
    var resourceOwnerSecret: Option<string>
    var accessToken: Option<OAuth1>

    /** `authorized`: an access token is held. */
    predicate Authorized()
      reads this
    {
      accessToken.Some?
    }

    /**
     * Starts unauthenticated, or authorized at once when a stored token is
     * given: the owner key and secret are the token's and the access signer
     * is built from them.
     */
    constructor (consumerKey: string, consumerSecret: string, token: Option<Tokens.OAuthToken>, env: Environments.EtsyEnv)
      ensures this.consumerKey == consumerKey && this.consumerSecret == consumerSecret
      ensures oauth == OAuth1(consumerKey, consumerSecret, None, None, None, HmacSha1)
      ensures requestTokenUrl == env.requestTokenUrl && accessTokenUrl == env.accessTokenUrl
      ensures signinUrl == env.signinUrl
      ensures token.None? ==> resourceOwnerKey.None? && resourceOwnerSecret.None? && !Authorized()
      ensures token.Some? ==>
        resourceOwnerKey == token.value.resourceOwnerKey &&
        resourceOwnerSecret == token.value.resourceOwnerSecret &&
        accessToken == Some(AccessSigner(consumerKey, consumerSecret, resourceOwnerKey, resourceOwnerSecret))
    {
      this.consumerKey := consumerKey;
      this.consumerSecret := consumerSecret;
      oauth := OAuth1(consumerKey, consumerSecret, None, None, None, HmacSha1);
      requestTokenUrl := env.requestTokenUrl;
      accessTokenUrl := env.accessTokenUrl;
      signinUrl := env.signinUrl;
      resourceOwnerKey := None;
      resourceOwnerSecret := None;
      if token.Some? {
        resourceOwnerKey := token.value.resourceOwnerKey;
        resourceOwnerSecret := token.value.resourceOwnerSecret;
        accessToken := Some(AccessSigner(consumerKey, consumerSecret, token.value.resourceOwnerKey, token.value.resourceOwnerSecret));
      } else {
        resourceOwnerKey := None;
        resourceOwnerSecret := None;
        accessToken := None;
      }
    }

    /**
     * `get_signin_url`: rejects a scope that is not a list or tuple before
     * sending anything; otherwise posts the space-joined scope signed with the
     * current signer, stores the request token of `reply` and returns the
     * sign-in URL. The owner key is stored before the secret is looked up, so
     * a reply without a secret leaves the new key and the old secret.
     */
    method GetSigninUrl(scope: Scope, reply: TokenReply) returns (sent: Option<TokenRequest>, r: Result<string, OAuthError>)
      modifies this`resourceOwnerKey, this`resourceOwnerSecret
      ensures scope.NotListOrTuple? ==>
        sent.None? && r == Err(ScopeNotListOrTuple) &&
        resourceOwnerKey == old(resourceOwnerKey) && resourceOwnerSecret == old(resourceOwnerSecret)
      ensures scope.ListOrTuple? ==>
        sent == Some(TokenRequest(requestTokenUrl, Some(PyStr.Join(scope.items, " ")), oauth))
      ensures scope.ListOrTuple? ==>
        var key := FirstValue(reply.credentials, TokenField);
        var secret := FirstValue(reply.credentials, TokenSecretField);
        resourceOwnerKey == (if key.Some? then key else old(resourceOwnerKey)) &&
        resourceOwnerSecret == (if key.Some? && secret.Some? then secret else old(resourceOwnerSecret)) &&
        r == (if key.None? then Err(MissingCredential(TokenField))
              else if secret.None? then Err(MissingCredential(TokenSecretField))
              else Ok(SigninUrl(reply.unquotedText)))
    {
      if !scope.ListOrTuple? {
        return None, Err(ScopeNotListOrTuple);
      }
      var joined := PyStr.Join(scope.items, " ");
      sent := Some(TokenRequest(requestTokenUrl, Some(joined), oauth));
      var key := FirstValue(reply.credentials, TokenField);
      if key.None? {
        return sent, Err(MissingCredential(TokenField));
      }
      resourceOwnerKey := key;
      var secret := FirstValue(reply.credentials, TokenSecretField);
      if secret.None? {
        return sent, Err(MissingCredential(TokenSecretField));
      }
      resourceOwnerSecret := secret;
      r := Ok(SigninUrl(reply.unquotedText));
    }

    /**
     * `get_access_token`: re-signs with the pending owner key and secret plus
     * the verifier, posts to the access-token URL, stores the owner key and
     * secret of `reply` and the PLAINTEXT access signer built from them, and
     * returns that signer.
     */
    method GetAccessToken(code: string, reply: TokenReply) returns (sent: TokenRequest, r: Result<OAuth1, OAuthError>)
      modifies this`oauth, this`resourceOwnerKey, this`resourceOwnerSecret, this`accessToken
      ensures oauth == OAuth1(consumerKey, consumerSecret, old(resourceOwnerKey), old(resourceOwnerSecret), Some(code), HmacSha1)
      ensures sent == TokenRequest(accessTokenUrl, None, oauth)
      ensures
        var key := FirstValue(reply.credentials, TokenField);
        var secret := FirstValue(reply.credentials, TokenSecretField);
        resourceOwnerKey == (if key.Some? then key else old(resourceOwnerKey)) &&
        resourceOwnerSecret == (if key.Some? && secret.Some? then secret else old(resourceOwnerSecret)) &&
        r == (if key.None? then Err(MissingCredential(TokenField))
              else if secret.None? then Err(MissingCredential(TokenSecretField))
              else Ok(AccessSigner(consumerKey, consumerSecret, key, secret)))
      ensures r.Ok? ==> accessToken == Some(r.value) && Authorized()
      ensures r.Err? ==> accessToken == old(accessToken)
    {
      oauth := OAuth1(consumerKey, consumerSecret, resourceOwnerKey, resourceOwnerSecret, Some(code), HmacSha1);
      sent := TokenRequest(accessTokenUrl, None, oauth);
      var key := FirstValue(reply.credentials, TokenField);
      if key.None? {
        return sent, Err(MissingCredential(TokenField));
      }
      resourceOwnerKey := key;
      var secret := FirstValue(reply.credentials, TokenSecretField);
      if secret.None? {
        return sent, Err(MissingCredential(TokenSecretField));
      }
      resourceOwnerSecret := secret;
      accessToken := Some(AccessSigner(consumerKey, consumerSecret, resourceOwnerKey, resourceOwnerSecret));
      r := Ok(accessToken.value);
    }

    /**
     * `save`: writes the current owner key and secret to `path` and reports
     * true exactly when an access token is held; otherwise nothing is written.
     */
    method Save(path: string, files: Tokens.TokenFiles) returns (saved: bool, files': Tokens.TokenFiles)
      ensures saved <==> Authorized()
      ensures saved ==> files' == Tokens.Save(Tokens.OAuthToken(resourceOwnerKey, resourceOwnerSecret), path, files)
      ensures !saved ==> files' == files
    {
      if accessToken.Some? {
        files' := Tokens.Save(Tokens.OAuthToken(resourceOwnerKey, resourceOwnerSecret), path, files);
        saved := true;
      } else {
        files' := files;
        saved := false;
      }
    }
  }

  /**
   * `EtsyOAuthClient.load`: a client built from the token file at `path`,
   * authorized exactly when that file exists.
   */
  method Load(path: string, consumerKey: string, consumerSecret: string, env: Environments.EtsyEnv, files: Tokens.TokenFiles)
    returns (client: EtsyOAuthClient)
    ensures fresh(client)
    ensures client.consumerKey == consumerKey && client.consumerSecret == consumerSecret
    ensures client.Authorized() <==> path in files
    ensures path in files ==>
      Tokens.OAuthToken(client.resourceOwnerKey, client.resourceOwnerSecret) == Tokens.FromDict(files[path])
    ensures path !in files ==> client.resourceOwnerKey.None? && client.resourceOwnerSecret.None?
  {
    var token: Option<Tokens.OAuthToken> := None;
    if path in files {
      var loaded := Tokens.Load(path, files);
      token := Some(loaded.value);
    }
    client := new EtsyOAuthClient(consumerKey, consumerSecret, token, env);
  }

  /**
   * `save` followed by `load` of the same file. An authorized client comes
   * back authorized, with its consumer key and secret and its owner key and
   * secret. An unauthorized client writes nothing: the files are unchanged,
   * and the client loaded is authorized only if the file already held a token.
   */
  method SaveThenLoad(c: EtsyOAuthClient, path: string, env: Environments.EtsyEnv, files: Tokens.TokenFiles)
    returns (loaded: EtsyOAuthClient, files': Tokens.TokenFiles)
    ensures fresh(loaded)
    ensures loaded.consumerKey == c.consumerKey && loaded.consumerSecret == c.consumerSecret
    ensures c.Authorized() ==>
      loaded.Authorized() &&
      loaded.resourceOwnerKey == c.resourceOwnerKey && loaded.resourceOwnerSecret == c.resourceOwnerSecret
    ensures !c.Authorized() ==> files' == files && (loaded.Authorized() <==> path in files)
  {
    var saved;
    saved, files' := c.Save(path, files);
    if saved {
      Tokens.DictRoundTrip(Tokens.OAuthToken(c.resourceOwnerKey, c.resourceOwnerSecret));
    }
    loaded := Load(path, c.consumerKey, c.consumerSecret, env, files');
  }
}
