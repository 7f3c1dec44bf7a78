// The user accounts: the users collection, the password hash as a
// parameter, and what login and refresh answer, shared by the auth service
// and the auth facade.
module Accounts {
  import opened Wrappers
  import opened Models
  import opened Store
  import opened ApiErrors
  import opened Outcomes
  import opened Tokens

  /** A stored user; the two Telegram credentials are kept encrypted. */
  datatype User = User(id: Id, email: string, passwordHash: string, encryptedBotToken: string, encryptedChatId: string)

  /** `new UserDto(user)`: email and id only. */
  function DtoOf(u: User): UserDto
  {
    UserDto(u.email, u.id)
  }

  /** The schema's `required` string fields. */
  predicate UserValidates(u: User)
  {
    u.email != "" && u.passwordHash != "" && u.encryptedBotToken != "" && u.encryptedChatId != ""
  }

  function UserIds(s: seq<User>): set<Id>
  {
    set u | u in s :: u.id
  }

  /** Unique ids, unique emails (the schema's unique index), and every
    * stored record valid. */
  ghost predicate UsersOk(s: seq<User>)
  {
    && (forall i, j :: 0 <= i < |s| && 0 <= j < |s| && s[i].id == s[j].id ==> i == j)
    && (forall i, j :: 0 <= i < |s| && 0 <= j < |s| && s[i].email == s[j].email ==> i == j)
    && (forall i :: 0 <= i < |s| ==> UserValidates(s[i]) && s[i].id != "")
  }

  /** `findOne({ email })`. */
  function UserWithEmail(s: seq<User>, email: string): (r: Option<User>)
    ensures r.Some? ==> r.value in s && r.value.email == email
    ensures r.None? <==> forall u :: u in s ==> u.email != email
  {
    if |s| == 0 then None
    else if s[0].email == email then Some(s[0])
    else UserWithEmail(s[1..], email)
  }

  /** `findById(id)`. */
  function UserWithId(s: seq<User>, id: Id): (r: Option<User>)
    ensures r.Some? ==> r.value in s && r.value.id == id
    ensures r.None? <==> id !in UserIds(s)
  {
    if |s| == 0 then None
    else if s[0].id == id then Some(s[0])
    else UserWithId(s[1..], id)
  }

  /** With unique emails, the lookup by email finds the one user with it. */
  lemma {:induction false} EmailFindsUser(s: seq<User>, u: User)
    requires UsersOk(s) && u in s
    ensures UserWithEmail(s, u.email) == Some(u)
  {
    var k :| 0 <= k < |s| && s[k] == u;
    var found := UserWithEmail(s, u.email).value;
    var j :| 0 <= j < |s| && s[j] == found;
  }

  /** With unique ids, the lookup by id finds the one user with it. */
  lemma {:induction false} IdFindsUser(s: seq<User>, u: User)
    requires UsersOk(s) && u in s
    ensures UserWithId(s, u.id) == Some(u)
  {
    assert u.id in UserIds(s);
    var found := UserWithId(s, u.id).value;
    var k :| 0 <= k < |s| && s[k] == u;
    var j :| 0 <= j < |s| && s[j] == found;
  }

  /** The users collection. */
  class UserStore {
    var users: seq<User>

    ghost predicate Valid()
      reads this
    {
      UsersOk(users)
    }

    constructor ()
      ensures users == [] && Valid()
    {
      users := [];
    }

    method FindByEmail(email: string) returns (r: Option<User>)
      ensures r == UserWithEmail(users, email)
    {
      r := UserWithEmail(users, email);
    }

    /** `findById` of an id that may be absent (`payload?.id`). */
    method FindById(id: Option<Id>) returns (r: Option<User>)
      ensures r == if id.Some? then UserWithId(users, id.value) else None
    {
      r := if id.Some? then UserWithId(users, id.value) else None;
    }

    /** `User.create`: validation, then the unique indexes on id and email. */
    method Create(u: User) returns (r: Result<User, StoreError>)
      requires Valid() && u.id != ""
      modifies this
      ensures Valid()
      ensures !UserValidates(u) ==> r == Err(ValidationFailed) && users == old(users)
      ensures UserValidates(u) && (u.id in UserIds(old(users)) || UserWithEmail(old(users), u.email).Some?) ==>
        r == Err(DuplicateKey) && users == old(users)
      ensures UserValidates(u) && u.id !in UserIds(old(users)) && UserWithEmail(old(users), u.email).None? ==>
        r == Ok(u) && users == old(users) + [u]
    {
      if !UserValidates(u) {
        return Err(ValidationFailed);
      }
      if u.id in UserIds(users) || UserWithEmail(users, u.email).Some? {
        return Err(DuplicateKey);
      }
      var s := users + [u];
      forall i, j | 0 <= i < |s| && 0 <= j < |s| && (s[i].id == s[j].id || s[i].email == s[j].email) ensures i == j {
        if i < |users| { assert s[i] in users; }
        if j < |users| { assert s[j] in users; }
      }
      users := s;
      r := Ok(u);
    }
  }

  // ---------------------------------------------------------------------
  // Passwords and what the flows answer.

  /** bcrypt: a salted hash and the comparison against a stored hash. */
  datatype Hasher = Hasher(hash: (string, nat) -> string, compare: (string, string) -> bool)

  /** A password matches every hash made from it, and hashes are not empty. */
  ghost predicate HashSound(h: Hasher)
  {
    forall p, salt :: h.compare(p, h.hash(p, salt)) && h.hash(p, salt) != ""
  }

  /** The libraries and configuration the flows depend on. */
  datatype AuthLib = AuthLib(jwt: Jwt, secrets: Secrets, hasher: Hasher)

  /** What a successful registration, login or refresh returns. */
  datatype AuthData = AuthData(accessToken: string, refreshToken: string, user: UserDto)

  const UserExistsMessage := "User already exists"
  const UserNotFoundMessage := "User not found"
  const InvalidPasswordMessage := "Invalid password"

  /** Login up to the issue of tokens: the user by email, then the password. */
  function LoginAnswer(users: seq<User>, lib: AuthLib, email: string, password: string): (r: Result<User, ApiError>)
    ensures UserWithEmail(users, email).None? ==> r == Err(NotFoundWith(UserNotFoundMessage))
    ensures r.Ok? ==> r.value in users && r.value.email == email && lib.hasher.compare(password, r.value.passwordHash)
    ensures r.Err? ==> r.error.status == 404 || r.error == BadRequest(InvalidPasswordMessage)
  {
    match UserWithEmail(users, email)
    case None => Err(NotFoundWith(UserNotFoundMessage))
    case Some(u) =>
      if !lib.hasher.compare(password, u.passwordHash) then Err(BadRequest(InvalidPasswordMessage)) else Ok(u)
  }

  /** Refresh up to the issue of tokens: a non-empty token that verifies as
    * a refresh token and is stored, then the user its claims name. */
  function RefreshAnswer(users: seq<User>, tokens: seq<TokenRecord>, lib: AuthLib, refreshToken: string)
    : (r: Result<User, ApiError>)
    ensures refreshToken == "" ==> r == Err(Unauthorized())
    ensures FirstWithToken(tokens, refreshToken).None? ==> r == Err(Unauthorized())
    ensures r.Ok? ==>
      && ValidateRefreshToken(lib.jwt, lib.secrets, refreshToken).Some?
      && r.value in users && r.value.id == ValidateRefreshToken(lib.jwt, lib.secrets, refreshToken).value.id
    ensures r.Err? ==> r.error == Unauthorized() || r.error == NotFoundWith(UserNotFoundMessage)
  {
    if refreshToken == "" then Err(Unauthorized())
    else
      var userData := ValidateRefreshToken(lib.jwt, lib.secrets, refreshToken);
      if userData.None? || FirstWithToken(tokens, refreshToken).None? then Err(Unauthorized())
      else match UserWithId(users, userData.value.id)
        case None => Err(NotFoundWith(UserNotFoundMessage))
        case Some(u) => Ok(u)
  }

  /** The common end of registration, login and refresh for user `u`: a
    * token pair over its projection, then `saveToken` of the refresh token,
    * which only the `required` validator can refuse. */
  ghost predicate Issued(before: seq<TokenRecord>, after: seq<TokenRecord>, r: Outcome<AuthData>, u: User, lib: AuthLib)
  {
    var pair := GenerateTokens(lib.jwt, lib.secrets, DtoOf(u));
    if pair.refreshToken == "" then r == Err(Db(ValidationFailed)) && after == before
    else r == Ok(AuthData(pair.accessToken, pair.refreshToken, DtoOf(u))) && after == Saved(before, u.id, pair.refreshToken)
  }

  /** The shared tail of registration, login and refresh: a token pair
    * for the user, the refresh token saved as theirs. */
  method IssueTokens(tokens: TokenStore, lib: AuthLib, u: User) returns (r: Outcome<AuthData>)
    requires tokens.Valid()
    modifies tokens
    ensures tokens.Valid() && Issued(old(tokens.tokens), tokens.tokens, r, u, lib)
  {
    var dto := DtoOf(u);
    var pair := GenerateTokens(lib.jwt, lib.secrets, dto);
    var saved := tokens.SaveToken(dto.id, pair.refreshToken);
    if saved.Err? {
      return Err(Db(saved.error));
    }
    r := Ok(AuthData(pair.accessToken, pair.refreshToken, dto));
  }

  /** A registered user logs in with the password they registered with. */
  lemma RegisteredUserLogsIn(users: seq<User>, lib: AuthLib, u: User, password: string, salt: nat)
    requires HashSound(lib.hasher) && UsersOk(users) && u in users
    requires u.passwordHash == lib.hasher.hash(password, salt)
    ensures LoginAnswer(users, lib, u.email, password) == Ok(u)
  {
    EmailFindsUser(users, u);
    assert lib.hasher.compare(password, lib.hasher.hash(password, salt));
  }

  /** The refresh token just issued to a user is accepted by refresh, for
    * that user. */
  lemma IssuedTokenRefreshes(users: seq<User>, before: seq<TokenRecord>, after: seq<TokenRecord>,
                             r: Outcome<AuthData>, u: User, lib: AuthLib)
    requires Verifies(lib.jwt) && TokensOk(before) && UsersOk(users) && u in users
    requires Issued(before, after, r, u, lib) && r.Ok?
    ensures RefreshAnswer(users, after, lib, r.value.refreshToken) == Ok(u)
  {
    var rt := r.value.refreshToken;
    SavedIsOnlyToken(before, u.id, rt);
    var k :| 0 <= k < |after| && after[k] == TokenRecord(u.id, rt);
    assert FirstWithToken(after, rt).Some?;
    assert lib.jwt.verify(lib.jwt.sign(DtoOf(u), lib.secrets.refresh), lib.secrets.refresh) == Some(DtoOf(u));
    IdFindsUser(users, u);
  }

  /** After logout, the token removed is refused by refresh, when no other
    * record held it. */
  lemma LoggedOutTokenRefused(users: seq<User>, tokens: seq<TokenRecord>, lib: AuthLib, refreshToken: string)
    requires TokensOk(tokens)
    requires forall i, j ::
      (0 <= i < |tokens| && 0 <= j < |tokens| && tokens[i].refreshToken == refreshToken
       && tokens[j].refreshToken == refreshToken) ==> i == j
    ensures RefreshAnswer(users, WithoutToken(tokens, refreshToken), lib, refreshToken) == Err(Unauthorized())
  {
    WithoutTokenForgets(tokens, refreshToken);
  }

  /** Issuing a new token rotates the old one out: a token only this user
    * held, other than the new one, is refused by refresh afterwards. */
  lemma IssuedTokenRotates(users: seq<User>, before: seq<TokenRecord>, after: seq<TokenRecord>,
                           r: Outcome<AuthData>, u: User, lib: AuthLib, oldToken: string)
    requires TokensOk(before) && Issued(before, after, r, u, lib) && r.Ok?
    requires oldToken != r.value.refreshToken
    requires forall t :: t in before && t.refreshToken == oldToken ==> t.user == u.id
    ensures RefreshAnswer(users, after, lib, oldToken) == Err(Unauthorized())
  {
    var rt := r.value.refreshToken;
    SavedIsOnlyToken(before, u.id, rt);
    forall i | 0 <= i < |after| ensures after[i].refreshToken != oldToken {
      var t := after[i];
      assert t in after;
      if t.user == u.id {
      } else {
        assert t in before;
      }
    }
  }
}
