// The live authentication flows: registration, login, logout and refresh
// over the users and tokens collections. Credentials are encrypted with the
// older passphrase cipher, not with the configured strategy.
module AuthService {
  import opened Wrappers
  import opened Models
  import opened Store
  import opened ApiErrors
  import opened Outcomes
  import opened Tokens
  import opened Accounts

  /** CryptoJS `AES.encrypt(message, passphrase).toString()`, with the salt
    * it draws at random. */
  type LegacyCipher = (string, string, nat) -> string

  /** CryptoJS writes OpenSSL's Base64 form: never empty, and no ':' among
    * its characters. */
  ghost predicate Base64Output(legacy: LegacyCipher)
  {
    forall m, k, salt :: legacy(m, k, salt) != "" && ':' !in legacy(m, k, salt)
  }

  /** The random draws of one registration: the password's salt and the
    * two cipher salts. */
  datatype Draws = Draws(passwordSalt: nat, botSalt: nat, chatSalt: nat)

  /** The record this registration stores. */
  function ServiceUser(lib: AuthLib, legacy: LegacyCipher, key: string, email: string, password: string,
                       botToken: string, chatId: string, newId: Id, d: Draws): User
  {
    User(newId, email, lib.hasher.hash(password, d.passwordSalt),
         legacy(botToken, key, d.botSalt), legacy(chatId, key, d.chatSalt))
  }

  /** An existing email is refused before anything is written; otherwise
    * the user is created and a token pair issued. */
  method Registration(users: UserStore, tokens: TokenStore, lib: AuthLib, legacy: LegacyCipher, key: string,
                      email: string, password: string, botToken: string, chatId: string, newId: Id, d: Draws)
    returns (r: Outcome<AuthData>)
    requires users.Valid() && tokens.Valid() && newId != ""
    modifies users, tokens
    ensures users.Valid() && tokens.Valid()
    ensures UserWithEmail(old(users.users), email).Some? ==>
      r == Err(Api(BadRequest(UserExistsMessage))) && users.users == old(users.users) && tokens.tokens == old(tokens.tokens)
    ensures UserWithEmail(old(users.users), email).None? ==>
      var u := ServiceUser(lib, legacy, key, email, password, botToken, chatId, newId, d);
      if !UserValidates(u) then
        r == Err(Db(ValidationFailed)) && users.users == old(users.users) && tokens.tokens == old(tokens.tokens)
      else if newId in UserIds(old(users.users)) then
        r == Err(Db(DuplicateKey)) && users.users == old(users.users) && tokens.tokens == old(tokens.tokens)
      else
        users.users == old(users.users) + [u] && Issued(old(tokens.tokens), tokens.tokens, r, u, lib)
  {
    var candidate := users.FindByEmail(email);
    if candidate.Some? {
      return Err(Api(BadRequest(UserExistsMessage)));
    }
    var hashedPassword := lib.hasher.hash(password, d.passwordSalt);
    var encryptedBotToken := legacy(botToken, key, d.botSalt);
    var encryptedChatId := legacy(chatId, key, d.chatSalt);
    var created := users.Create(User(newId, email, hashedPassword, encryptedBotToken, encryptedChatId));
    if created.Err? {
      return Err(Db(created.error));
    }
    r := IssueTokens(tokens, lib, created.value);
  }

  /** The user by email, the password check, then a new token pair. */
  method Login(users: UserStore, tokens: TokenStore, lib: AuthLib, email: string, password: string)
    returns (r: Outcome<AuthData>)
    requires tokens.Valid()
    modifies tokens
    ensures tokens.Valid()
    ensures match LoginAnswer(users.users, lib, email, password)
      case Err(e) => r == Err(Api(e)) && tokens.tokens == old(tokens.tokens)
      case Ok(u) => Issued(old(tokens.tokens), tokens.tokens, r, u, lib)
  {
    var user := users.FindByEmail(email);
    if user.None? {
      return Err(Api(NotFoundWith(UserNotFoundMessage)));
    }
    var isPasswordValid := lib.hasher.compare(password, user.value.passwordHash);
    if !isPasswordValid {
      return Err(Api(BadRequest(InvalidPasswordMessage)));
    }
    r := IssueTokens(tokens, lib, user.value);
  }

  /** The record with this refresh token goes; the answer is the count. */
  method Logout(tokens: TokenStore, refreshToken: string) returns (deleted: nat)
    requires tokens.Valid()
    modifies tokens
    ensures tokens.Valid() && tokens.tokens == WithoutToken(old(tokens.tokens), refreshToken)
    ensures deleted == if FirstWithToken(old(tokens.tokens), refreshToken).Some? then 1 else 0
  {
    deleted := tokens.RemoveToken(refreshToken);
  }

  /** The token's checks, the user its claims name, then a new token pair
    * that replaces the user's stored one. */
  method Refresh(users: UserStore, tokens: TokenStore, lib: AuthLib, refreshToken: string) returns (r: Outcome<AuthData>)
    requires tokens.Valid()
    modifies tokens
    ensures tokens.Valid()
    ensures match RefreshAnswer(users.users, old(tokens.tokens), lib, refreshToken)
      case Err(e) => r == Err(Api(e)) && tokens.tokens == old(tokens.tokens)
      case Ok(u) => Issued(old(tokens.tokens), tokens.tokens, r, u, lib)
  {
    if refreshToken == "" {
      return Err(Api(Unauthorized()));
    }
    var userData := ValidateRefreshToken(lib.jwt, lib.secrets, refreshToken);
    var foundToken := tokens.FindToken(refreshToken);
    if userData.None? || foundToken.None? {
      return Err(Api(Unauthorized()));
    }
    var user := users.FindById(Some(userData.value.id));
    if user.None? {
      return Err(Api(NotFoundWith(UserNotFoundMessage)));
    }
    r := IssueTokens(tokens, lib, user.value);
  }
}
