// The authentication middleware: the access token from the header or the
// query, the user its claims name, and the user's Telegram credentials
// decrypted with the configured strategy.
module AuthMiddleware {
  import opened Wrappers
  import opened Text
  import opened ApiErrors
  import opened Crypto
  import opened Encryption
  import opened Telegram
  import opened Tokens
  import opened Accounts
  import AuthService
  import AuthFacade

  const BearerPrefix := "Bearer "
  const MissingCredentialsMessage := "Telegram credentials are missing or corrupted"
  const FailedDecryptMessage := "Failed to decrypt Telegram credentials"

  /** The token: the second space-separated field of a `Bearer ` header;
    * otherwise the `token` query parameter; otherwise empty. */
  function ExtractToken(authorization: Option<string>, queryToken: Option<string>): string
  {
    if authorization.Some? && StartsWith(authorization.value, BearerPrefix) then
      BearerFields(authorization.value);
      Split(authorization.value, ' ')[1]
    else if queryToken.Some? && queryToken.value != "" then queryToken.value
    else ""
  }

  /** A header that starts with the prefix has at least two fields. */
  lemma BearerFields(h: string)
    requires StartsWith(h, BearerPrefix)
    ensures |Split(h, ' ')| >= 2
    ensures Split(h, ' ') == ["Bearer"] + Split(h[|BearerPrefix|..], ' ')
  {
    assert h == "Bearer" + [' '] + h[|BearerPrefix|..] by {
      assert h[..|BearerPrefix|] == BearerPrefix;
    }
    SplitAfterPiece("Bearer", h[|BearerPrefix|..], ' ');
  }

  /** A `Bearer ` header carrying a space-free token yields that token,
    * whatever the query says. */
  lemma BearerTokenWins(token: string, queryToken: Option<string>)
    requires ' ' !in token
    ensures ExtractToken(Some(BearerPrefix + token), queryToken) == token
  {
    var h := BearerPrefix + token;
    assert StartsWith(h, BearerPrefix) by { assert h[..|BearerPrefix|] == BearerPrefix; }
    BearerFields(h);
    assert h[|BearerPrefix|..] == token;
    SplitNoSeparator(token, ' ');
  }

  /** Without a `Bearer ` header the query parameter is the token. */
  lemma QueryTokenFallback(authorization: Option<string>, token: string)
    requires authorization.None? || !StartsWith(authorization.value, BearerPrefix)
    ensures ExtractToken(authorization, Some(token)) == token
    ensures ExtractToken(authorization, None) == ""
  {
  }

  /** What the middleware decides for a request, given the stored users,
    * the token libraries, the ciphers, the configured strategy and key:
    * the user's projection and credentials to attach, or the error next()
    * receives. A failed lookup of the token's user, whether none is found
    * or the id does not parse, ends in Unauthorized. */
  function Verdict(authorization: Option<string>, queryToken: Option<string>, users: seq<User>, lib: AuthLib,
                   crypto: CryptoLib, s: Strategy, key: string): (r: Result<(UserDto, Credentials), ApiError>)
    ensures ExtractToken(authorization, queryToken) == "" ==> r == Err(Unauthorized())
    ensures r.Ok? ==>
      var payload := ValidateAccessToken(lib.jwt, lib.secrets, ExtractToken(authorization, queryToken));
      && payload.Some? && UserWithId(users, payload.value.id).Some?
      && var u := UserWithId(users, payload.value.id).value;
      && r.value.0 == DtoOf(u)
      && Decrypt(crypto, s, u.encryptedBotToken, key) == Ok(r.value.1.botToken) && r.value.1.botToken != ""
      && Decrypt(crypto, s, u.encryptedChatId, key) == Ok(r.value.1.chatId) && r.value.1.chatId != ""
    ensures r.Err? ==>
      r.error in {Unauthorized(), BadRequest(FailedDecryptMessage), BadRequest(MissingCredentialsMessage)}
  {
    var token := ExtractToken(authorization, queryToken);
    if token == "" then Err(Unauthorized())
    else
      var payload := ValidateAccessToken(lib.jwt, lib.secrets, token);
      var user := if payload.Some? then UserWithId(users, payload.value.id) else None;
      if user.None? then Err(Unauthorized())
      else
        var botToken := Decrypt(crypto, s, user.value.encryptedBotToken, key);
        if botToken.Err? then Err(BadRequest(FailedDecryptMessage))
        else
          var chatId := Decrypt(crypto, s, user.value.encryptedChatId, key);
          if chatId.Err? then Err(BadRequest(FailedDecryptMessage))
          else if botToken.value == "" || chatId.value == "" then Err(BadRequest(MissingCredentialsMessage))
          else Ok((DtoOf(user.value), Credentials(botToken.value, chatId.value)))
  }

  /** The request as the middleware sees it: the two token sources, and the
    * two fields it writes. */
  class AuthRequest {
    const authorization: Option<string>
    const queryToken: Option<string>
    var user: Option<UserDto>
    var tgCredentials: Option<Credentials>

    constructor (authorization: Option<string>, queryToken: Option<string>)
      ensures this.authorization == authorization && this.queryToken == queryToken
      ensures user.None? && tgCredentials.None?
    {
      this.authorization := authorization;
      this.queryToken := queryToken;
      user := None;
      tgCredentials := None;
    }
  }

  /** `authenticate`: on success the request carries the user and the
    * credentials and next() gets no error (None); on failure the request is
    * untouched and next() gets the error. */
  method Authenticate(req: AuthRequest, users: UserStore, lib: AuthLib, ctx: EncryptionContext, crypto: CryptoLib,
                      key: string) returns (failure: Option<ApiError>)
    modifies req
    ensures match Verdict(req.authorization, req.queryToken, users.users, lib, crypto, ctx.strategy, key)
      case Err(e) => failure == Some(e) && req.user == old(req.user) && req.tgCredentials == old(req.tgCredentials)
      case Ok(v) => failure == None && req.user == Some(v.0) && req.tgCredentials == Some(v.1)
  {
    var token := "";
    var authHeader := req.authorization;
    if authHeader.Some? && StartsWith(authHeader.value, BearerPrefix) {
      BearerFields(authHeader.value);
      token := Split(authHeader.value, ' ')[1];
    } else if req.queryToken.Some? && req.queryToken.value != "" {
      token := req.queryToken.value;
    }
    if token == "" {
      return Some(Unauthorized());
    }
    var payload := ValidateAccessToken(lib.jwt, lib.secrets, token);
    var user := users.FindById(if payload.Some? then Some(payload.value.id) else None);
    if user.None? {
      return Some(Unauthorized());
    }
    var botToken := ctx.Decrypt(crypto, user.value.encryptedBotToken, key);
    if botToken.Err? {
      return Some(BadRequest(FailedDecryptMessage));
    }
    var chatId := ctx.Decrypt(crypto, user.value.encryptedChatId, key);
    if chatId.Err? {
      return Some(BadRequest(FailedDecryptMessage));
    }
    if botToken.value == "" || chatId.value == "" {
      return Some(BadRequest(MissingCredentialsMessage));
    }
    req.user := Some(DtoOf(user.value));
    req.tgCredentials := Some(Credentials(botToken.value, chatId.value));
    failure := None;
  }

  /** A user stored by the live registration is always refused once the
    * token is accepted: its credentials have no ':' and decrypt with no
    * strategy. */
  lemma ServiceUserLockedOut(lib: AuthLib, legacy: AuthService.LegacyCipher, crypto: CryptoLib, s: Strategy,
                             key: string, email: string, password: string, botToken: string, chatId: string,
                             newId: string, d: AuthService.Draws, users: seq<User>,
                             authorization: Option<string>, queryToken: Option<string>)
    requires AuthService.Base64Output(legacy)
    requires var u := AuthService.ServiceUser(lib, legacy, key, email, password, botToken, chatId, newId, d);
      && ExtractToken(authorization, queryToken) != ""
      && ValidateAccessToken(lib.jwt, lib.secrets, ExtractToken(authorization, queryToken)) == Some(DtoOf(u))
      && UserWithId(users, newId) == Some(u)
    ensures Verdict(authorization, queryToken, users, lib, crypto, s, key) == Err(BadRequest(FailedDecryptMessage))
  {
    assert ':' !in legacy(botToken, key, d.botSalt);
  }

  /** A user stored by the facade's registration, with non-empty
    * credentials, is let through with exactly those credentials. */
  lemma FacadeUserAdmitted(lib: AuthLib, crypto: CryptoLib, s: Strategy, key: string, email: string,
                           password: string, botToken: string, chatId: string, newId: string, d: AuthFacade.Draws,
                           u: User, users: seq<User>, authorization: Option<string>, queryToken: Option<string>)
    requires LibSound(crypto) && botToken != "" && chatId != ""
    requires |d.botIv| == IvLength(s) && |d.chatIv| == IvLength(s)
    requires AuthFacade.FacadeUser(lib, crypto, s, key, email, password, botToken, chatId, newId, d) == Ok(u)
    requires ExtractToken(authorization, queryToken) != ""
    requires ValidateAccessToken(lib.jwt, lib.secrets, ExtractToken(authorization, queryToken)) == Some(DtoOf(u))
    requires UserWithId(users, newId) == Some(u)
    ensures Verdict(authorization, queryToken, users, lib, crypto, s, key) == Ok((DtoOf(u), Credentials(botToken, chatId)))
  {
    RoundTrip(crypto, s, botToken, key, d.botIv);
    RoundTrip(crypto, s, chatId, key, d.chatIv);
  }
}
