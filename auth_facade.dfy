// The facade's registration: the same flow as the service's, with the
// credentials encrypted through the configured strategy context, whose
// failure propagates.
module AuthFacade {
  import opened Wrappers
  import opened Models
  import opened Store
  import opened ApiErrors
  import opened Outcomes
  import opened Crypto
  import opened Encryption
  import opened Tokens
  import opened Accounts

  /** The random draws of one registration: the password's salt and the
    * IVs of the two encryptions. */
  datatype Draws = Draws(passwordSalt: nat, botIv: Bytes, chatIv: Bytes)

  /** The record this registration stores, or the error the cipher threw;
    * the bot token is encrypted first. */
  function FacadeUser(lib: AuthLib, crypto: CryptoLib, s: Strategy, key: string, email: string, password: string,
                      botToken: string, chatId: string, newId: Id, d: Draws): (r: Result<User, string>)
    requires |d.botIv| == IvLength(s) && |d.chatIv| == IvLength(s)
    ensures r.Ok? ==> && r.value.id == newId && r.value.email == email
                      && r.value.passwordHash == lib.hasher.hash(password, d.passwordSalt)
                      && Encrypt(crypto, s, botToken, key, d.botIv) == Ok(r.value.encryptedBotToken)
                      && Encrypt(crypto, s, chatId, key, d.chatIv) == Ok(r.value.encryptedChatId)
  {
    match Encrypt(crypto, s, botToken, key, d.botIv)
    case Err(e) => Err(e)
    case Ok(encryptedBotToken) =>
      match Encrypt(crypto, s, chatId, key, d.chatIv)
      case Err(e) => Err(e)
      case Ok(encryptedChatId) =>
        Ok(User(newId, email, lib.hasher.hash(password, d.passwordSalt), encryptedBotToken, encryptedChatId))
  }

  method Registration(users: UserStore, tokens: TokenStore, lib: AuthLib, ctx: EncryptionContext, crypto: CryptoLib,
                      key: string, email: string, password: string, botToken: string, chatId: string, newId: Id, d: Draws)
    returns (r: Outcome<AuthData>)
    requires users.Valid() && tokens.Valid() && newId != ""
    requires |d.botIv| == IvLength(ctx.strategy) && |d.chatIv| == IvLength(ctx.strategy)
    modifies users, tokens
    ensures users.Valid() && tokens.Valid()
    ensures UserWithEmail(old(users.users), email).Some? ==>
      r == Err(Api(BadRequest(UserExistsMessage))) && users.users == old(users.users) && tokens.tokens == old(tokens.tokens)
    ensures UserWithEmail(old(users.users), email).None? ==>
      match FacadeUser(lib, crypto, ctx.strategy, key, email, password, botToken, chatId, newId, d)
      case Err(e) => r == Err(Thrown(e)) && users.users == old(users.users) && tokens.tokens == old(tokens.tokens)
      case Ok(u) =>
        if !UserValidates(u) then
          r == Err(Db(ValidationFailed)) && users.users == old(users.users) && tokens.tokens == old(tokens.tokens)
        else if newId in UserIds(old(users.users)) then
          r == Err(Db(DuplicateKey)) && users.users == old(users.users) && tokens.tokens == old(tokens.tokens)
        else
          users.users == old(users.users) + [u] && Issued(old(tokens.tokens), tokens.tokens, r, u, lib)
  {
    var candidate := users.FindByEmail(email);
    if candidate.Some? {
      return Err(Api(BadRequest(UserExistsMessage)));
    }
    var hashedPassword := lib.hasher.hash(password, d.passwordSalt);
    var encryptedBotToken := ctx.Encrypt(crypto, botToken, key, d.botIv);
    if encryptedBotToken.Err? {
      return Err(Thrown(encryptedBotToken.error));
    }
    var encryptedChatId := ctx.Encrypt(crypto, chatId, key, d.chatIv);
    if encryptedChatId.Err? {
      return Err(Thrown(encryptedChatId.error));
    }
    var created := users.Create(User(newId, email, hashedPassword, encryptedBotToken.value, encryptedChatId.value));
    if created.Err? {
      return Err(Db(created.error));
    }
    r := IssueTokens(tokens, lib, created.value);
  }
}
