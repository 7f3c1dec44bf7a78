// The token service: signed access and refresh tokens, and the stored
// refresh tokens, one record per user.
module Tokens {
  import opened Wrappers
  import opened Models
  import opened Store

  /** The claims a token carries: the user's public projection. */
  datatype UserDto = UserDto(email: string, id: Id)

  /** Signing and verification, as the JWT library does them; verification
    * answers None where the library throws. Expiry is not modelled. */
  datatype Jwt = Jwt(sign: (UserDto, string) -> string, verify: (string, string) -> Option<UserDto>)

  datatype Secrets = Secrets(access: string, refresh: string)

  datatype TokenPair = TokenPair(accessToken: string, refreshToken: string)

  /** A token verifies, with the claims it was signed with, under its own secret. */
  ghost predicate Verifies(j: Jwt)
  {
    forall p, secret :: j.verify(j.sign(p, secret), secret) == Some(p)
  }

  /** A token signed with one secret is refused under the other. */
  ghost predicate Separates(j: Jwt, a: string, b: string)
  {
    forall p :: j.verify(j.sign(p, a), b).None? && j.verify(j.sign(p, b), a).None?
  }

  /** Both tokens over the same claims, each with its own secret. */
  function GenerateTokens(j: Jwt, secrets: Secrets, payload: UserDto): TokenPair
  {
    TokenPair(j.sign(payload, secrets.access), j.sign(payload, secrets.refresh))
  }

  function ValidateAccessToken(j: Jwt, secrets: Secrets, token: string): Option<UserDto>
  {
    j.verify(token, secrets.access)
  }

  function ValidateRefreshToken(j: Jwt, secrets: Secrets, token: string): Option<UserDto>
  {
    j.verify(token, secrets.refresh)
  }

  /** Each generated token validates as its own kind with the claims it was
    * made from, and not as the other kind. */
  lemma GeneratedTokensValidate(j: Jwt, secrets: Secrets, payload: UserDto)
    requires Verifies(j) && Separates(j, secrets.access, secrets.refresh)
    ensures var t := GenerateTokens(j, secrets, payload);
      && ValidateAccessToken(j, secrets, t.accessToken) == Some(payload)
      && ValidateRefreshToken(j, secrets, t.refreshToken) == Some(payload)
      && ValidateRefreshToken(j, secrets, t.accessToken).None?
      && ValidateAccessToken(j, secrets, t.refreshToken).None?
  {
    var t := GenerateTokens(j, secrets, payload);
    assert j.verify(j.sign(payload, secrets.access), secrets.access) == Some(payload);
    assert j.verify(j.sign(payload, secrets.refresh), secrets.refresh) == Some(payload);
  }

  // ---------------------------------------------------------------------
  // The token collection.

  datatype TokenRecord = TokenRecord(user: Id, refreshToken: string)

  /** The position of the first record holding this refresh token. */
  function FirstWithToken(s: seq<TokenRecord>, refreshToken: string): (r: Option<nat>)
    ensures r.Some? ==>
      && r.value < |s| && s[r.value].refreshToken == refreshToken
      && forall i :: 0 <= i < r.value ==> s[i].refreshToken != refreshToken
    ensures r.None? <==> forall i :: 0 <= i < |s| ==> s[i].refreshToken != refreshToken
  {
    if |s| == 0 then None
    else if s[0].refreshToken == refreshToken then Some(0)
    else match FirstWithToken(s[1..], refreshToken)
      case None => None
      case Some(i) => Some(i + 1)
  }

  /** The position of the first record of this user. */
  function FirstOfUser(s: seq<TokenRecord>, user: Id): (r: Option<nat>)
    ensures r.Some? ==> r.value < |s| && s[r.value].user == user
    ensures r.None? <==> forall i :: 0 <= i < |s| ==> s[i].user != user
  {
    if |s| == 0 then None
    else if s[0].user == user then Some(0)
    else match FirstOfUser(s[1..], user)
      case None => None
      case Some(i) => Some(i + 1)
  }

  /** At most one record per user, none with an empty token (the field is
    * required). */
  ghost predicate TokensOk(s: seq<TokenRecord>)
  {
    && (forall i, j :: 0 <= i < |s| && 0 <= j < |s| && s[i].user == s[j].user ==> i == j)
    && (forall i :: 0 <= i < |s| ==> s[i].refreshToken != "")
  }

  /** The collection after `saveToken` with a non-empty token: the user's
    * record updated in place when there is one, a new record otherwise. */
  function Saved(s: seq<TokenRecord>, user: Id, refreshToken: string): seq<TokenRecord>
  {
    match FirstOfUser(s, user)
    case Some(i) => s[i := TokenRecord(user, refreshToken)]
    case None => s + [TokenRecord(user, refreshToken)]
  }

  /** Saving leaves the user with exactly this token as their only record,
    * and every other user's records as they were. */
  lemma SavedIsOnlyToken(s: seq<TokenRecord>, user: Id, refreshToken: string)
    requires TokensOk(s) && refreshToken != ""
    ensures var t := Saved(s, user, refreshToken);
      && TokensOk(t)
      && TokenRecord(user, refreshToken) in t
      && (forall r :: r in t && r.user == user ==> r.refreshToken == refreshToken)
      && (forall r :: r in s && r.user != user <==> r in t && r.user != user)
  {
    var t := Saved(s, user, refreshToken);
    match FirstOfUser(s, user)
    case Some(i) =>
      assert t[i] == TokenRecord(user, refreshToken);
      forall r | r in t && r.user == user ensures r.refreshToken == refreshToken {
        var k :| 0 <= k < |t| && t[k] == r;
      }
      forall r | r in t && r.user != user ensures r in s {
        var k :| 0 <= k < |t| && t[k] == r;
      }
      forall r | r in s && r.user != user ensures r in t {
        var k :| 0 <= k < |s| && s[k] == r;
        assert t[k] == r;
      }
    case None =>
      assert t[|s|] == TokenRecord(user, refreshToken);
  }

  /** The collection after `deleteOne({ refreshToken })`: the first record
    * with that token goes, if there is one. */
  function WithoutToken(s: seq<TokenRecord>, refreshToken: string): seq<TokenRecord>
  {
    match FirstWithToken(s, refreshToken)
    case Some(i) => s[..i] + s[i + 1..]
    case None => s
  }

  /** Removing a token that one record at most held leaves no record with
    * it, keeps every other record, and keeps the collection well formed. */
  lemma WithoutTokenForgets(s: seq<TokenRecord>, refreshToken: string)
    requires TokensOk(s)
    requires forall i, j ::
      0 <= i < |s| && 0 <= j < |s| && s[i].refreshToken == refreshToken && s[j].refreshToken == refreshToken ==> i == j
    ensures var t := WithoutToken(s, refreshToken);
      && TokensOk(t)
      && FirstWithToken(t, refreshToken).None?
      && (forall r :: r in s && r.refreshToken != refreshToken <==> r in t)
  {
    match FirstWithToken(s, refreshToken)
    case None =>
    case Some(i) =>
      assert WithoutToken(s, refreshToken) == s[..i] + s[i + 1..];
      forall k | 0 <= k < |s| && k != i ensures s[k].refreshToken != refreshToken {
      }
      WithoutTokenKeepsOk(s, i);
      DroppedOnlyHolder(s, i, refreshToken);
  }

  /** Dropping the one record that held a token leaves exactly the records
    * without it. */
  lemma DroppedOnlyHolder(s: seq<TokenRecord>, i: nat, refreshToken: string)
    requires i < |s| && s[i].refreshToken == refreshToken
    requires forall k :: 0 <= k < |s| && k != i ==> s[k].refreshToken != refreshToken
    ensures FirstWithToken(s[..i] + s[i + 1..], refreshToken).None?
    ensures forall r :: r in s && r.refreshToken != refreshToken <==> r in s[..i] + s[i + 1..]
  {
    var t := s[..i] + s[i + 1..];
    DropAt(s, i);
    forall k | 0 <= k < |t| ensures t[k].refreshToken != refreshToken {
      var k' := if k < i then k else k + 1;
      assert s[k'] == t[k] && k' != i;
    }
    forall r | r in t ensures r in s && r.refreshToken != refreshToken {
      var k :| 0 <= k < |t| && t[k] == r;
      var k' := if k < i then k else k + 1;
      assert s[k'] == r;
    }
    forall r | r in s && r.refreshToken != refreshToken ensures r in t {
      var k :| 0 <= k < |s| && s[k] == r;
      if k < i { assert t[k] == r; } else { assert k != i; assert t[k - 1] == r; }
    }
  }

  /** Position by position, a sequence with one element dropped. */
  lemma DropAt(s: seq<TokenRecord>, i: nat)
    requires i < |s|
    ensures |s[..i] + s[i + 1..]| == |s| - 1
    ensures forall k :: 0 <= k < i ==> (s[..i] + s[i + 1..])[k] == s[k]
    ensures forall k :: i < k < |s| ==> (s[..i] + s[i + 1..])[k - 1] == s[k]
  {
  }

  /** Dropping any record keeps the collection well formed. */
  lemma WithoutTokenKeepsOk(s: seq<TokenRecord>, i: nat)
    requires TokensOk(s) && i < |s|
    ensures TokensOk(s[..i] + s[i + 1..])
  {
    var t := s[..i] + s[i + 1..];
    DropAt(s, i);
    forall a, b | 0 <= a < |t| && 0 <= b < |t| && t[a].user == t[b].user ensures a == b {
      var a', b' := if a < i then a else a + 1, if b < i then b else b + 1;
      assert s[a'] == t[a] && s[b'] == t[b];
    }
    forall k | 0 <= k < |t| ensures t[k].refreshToken != "" {
      var k' := if k < i then k else k + 1;
      assert s[k'] == t[k];
    }
  }

  /** The tokens collection as the token service sees it. */
  class TokenStore {
    var tokens: seq<TokenRecord>

    ghost predicate Valid()
      reads this
    {
      TokensOk(tokens)
    }

    constructor ()
      ensures tokens == [] && Valid()
    {
      tokens := [];
    }

    /** `findOne({ refreshToken })`. */
    method FindToken(refreshToken: string) returns (r: Option<TokenRecord>)
      ensures r.Some? ==> r.value in tokens && r.value.refreshToken == refreshToken
      ensures r.None? <==> forall t :: t in tokens ==> t.refreshToken != refreshToken
      ensures r == match FirstWithToken(tokens, refreshToken) case None => None case Some(i) => Some(tokens[i])
    {
      var i := 0;
      while i < |tokens|
        invariant 0 <= i <= |tokens|
        invariant forall k :: 0 <= k < i ==> tokens[k].refreshToken != refreshToken
      {
        if tokens[i].refreshToken == refreshToken {
          return Some(tokens[i]);
        }
        i := i + 1;
      }
      r := None;
    }

    /** `saveToken`: the user's record gets the new token and is saved, or a
      * record is created; either write runs the `required` validator. */
    method SaveToken(user: Id, refreshToken: string) returns (r: Result<TokenRecord, StoreError>)
      requires Valid()
      modifies this
      ensures Valid()
      ensures refreshToken == "" ==> r == Err(ValidationFailed) && tokens == old(tokens)
      ensures refreshToken != "" ==> r == Ok(TokenRecord(user, refreshToken)) && tokens == Saved(old(tokens), user, refreshToken)
    {
      var found := FirstOfUser(tokens, user);
      if refreshToken == "" {
        return Err(ValidationFailed);
      }
      SavedIsOnlyToken(tokens, user, refreshToken);
      if found.Some? {
        tokens := tokens[found.value := TokenRecord(user, refreshToken)];
      } else {
        tokens := tokens + [TokenRecord(user, refreshToken)];
      }
      r := Ok(TokenRecord(user, refreshToken));
    }

    /** `deleteOne({ refreshToken })`, answering the number of records
      * deleted. */
    method RemoveToken(refreshToken: string) returns (deleted: nat)
      requires Valid()
      modifies this
      ensures Valid()
      ensures tokens == WithoutToken(old(tokens), refreshToken)
      ensures deleted == if FirstWithToken(old(tokens), refreshToken).Some? then 1 else 0
    {
      var found := FirstWithToken(tokens, refreshToken);
      if found.None? {
        return 0;
      }
      var i := found.value;
      DropAt(tokens, i);
      WithoutTokenKeepsOk(tokens, i);
      tokens := tokens[..i] + tokens[i + 1..];
      deleted := 1;
    }
  }
}
