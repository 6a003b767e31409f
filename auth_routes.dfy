/**
 * The authentication routes and the refresh-token list each user keeps: signup and login
 * append the refresh token they issue, refresh rotates the presented token for a new one,
 * and logout prunes one token or all of them. Signing and verifying tokens and comparing
 * passwords are done by code outside this model: their results arrive as parameters.
 */
module AuthRoutes {
  import opened Common
  import opened JsText
  import opened Http

  /** A stored user; `password` is whatever the user model keeps for the password. */
  datatype UserRecord = UserRecord(
    id: ObjectId,
    username: JsString,
    email: JsString,
    password: JsString,
    refreshTokens: seq<JsString>)

  /** The pair `generateTokens(userId)` signs. */
  datatype TokenPair = TokenPair(accessToken: JsString, refreshToken: JsString)

  /** What a successful signup or login answers: the user and the freshly issued tokens. */
  datatype Session = Session(user: ObjectId, tokens: TokenPair)

  /** The minimum password length signup accepts. */
  const MinPasswordLength: nat := 6

  function AllFieldsText(): JsString { Str("All fields are required") }
  function PasswordShortText(): JsString { Str("Password must be at least 6 characters") }
  function EmailExistsText(): JsString { Str("Email already exists") }
  function UsernameExistsText(): JsString { Str("Username already exists") }
  function CredentialsRequiredText(): JsString { Str("Email and password are required") }
  function InvalidCredentialsText(): JsString { Str("Invalid credentials") }
  function TokenRequiredText(): JsString { Str("Refresh token required") }
  function UserNotFoundText(): JsString { Str("User not found") }
  function InvalidTokenText(): JsString { Str("Invalid refresh token") }

  /** The index of the first user the filter accepts: `findOne` and `findById` on the users. */
  function FindFirst(users: seq<UserRecord>, matches: UserRecord -> bool): (k: Option<nat>)
    ensures k.Some? ==> k.value < |users| && matches(users[k.value])
    ensures k.Some? ==> forall i :: 0 <= i < k.value ==> !matches(users[i])
    ensures k.None? <==> forall i :: 0 <= i < |users| ==> !matches(users[i])
  {
    if users == [] then None
    else if matches(users[0]) then Some(0)
    else match FindFirst(users[1..], matches)
      case None => None
      case Some(k) => Some(k + 1)
  }

  /** The index of the first user satisfying the `findOne` filter on email or username. */
  function FindExisting(users: seq<UserRecord>, email: JsString, username: JsString): (k: Option<nat>)
    ensures k.Some? ==> k.value < |users| && (users[k.value].email == email || users[k.value].username == username)
    ensures k.Some? ==> forall i :: 0 <= i < k.value ==> users[i].email != email && users[i].username != username
    ensures k.None? <==> forall i :: 0 <= i < |users| ==> users[i].email != email && users[i].username != username
  {
    FindFirst(users, (u: UserRecord) => u.email == email || u.username == username)
  }

  /** The index of the first user with the email (`User.findOne({ email })`). */
  function FindByEmail(users: seq<UserRecord>, email: JsString): (k: Option<nat>)
    ensures k.Some? ==> k.value < |users| && users[k.value].email == email
    ensures k.None? <==> forall i :: 0 <= i < |users| ==> users[i].email != email
  {
    FindFirst(users, (u: UserRecord) => u.email == email)
  }

  /** The index of the first user with the id (`User.findById`). */
  function FindUser(users: seq<UserRecord>, id: ObjectId): (k: Option<nat>)
    ensures k.Some? ==> k.value < |users| && users[k.value].id == id
    ensures k.None? <==> forall i :: 0 <= i < |users| ==> users[i].id != id
  {
    FindFirst(users, (u: UserRecord) => u.id == id)
  }

  /** `refreshTokens.filter(t => t.token !== token)`, which is also what `$pull` leaves. */
  function Without(tokens: seq<JsString>, token: JsString): (r: seq<JsString>)
    ensures |r| <= |tokens|
    ensures forall t :: t in r <==> t in tokens && t != token
  {
    if tokens == [] then []
    else (if tokens[0] == token then [] else [tokens[0]]) + Without(tokens[1..], token)
  }

  /** The number of times `token` occurs in the list. */
  function Occurrences(tokens: seq<JsString>, token: JsString): nat {
    if tokens == [] then 0
    else (if tokens[0] == token then 1 else 0) + Occurrences(tokens[1..], token)
  }

  /** Pruning removes exactly the occurrences of the token and nothing else. */
  lemma {:induction false} WithoutCount(tokens: seq<JsString>, token: JsString)
    ensures |Without(tokens, token)| == |tokens| - Occurrences(tokens, token)
    ensures Occurrences(Without(tokens, token), token) == 0
  {
    if tokens != [] {
      WithoutCount(tokens[1..], token);
      var rest := Without(tokens[1..], token);
      if tokens[0] == token {
        assert Without(tokens, token) == rest;
      } else {
        assert Without(tokens, token) == [tokens[0]] + rest;
        assert ([tokens[0]] + rest)[1..] == rest;
      }
    }
  }

  /** A token occurs in a list exactly when it is an element of it. */
  lemma {:induction false} OccursIff(tokens: seq<JsString>, token: JsString)
    ensures Occurrences(tokens, token) > 0 <==> token in tokens
  {
    if tokens != [] {
      OccursIff(tokens[1..], token);
      assert tokens == [tokens[0]] + tokens[1..];
    }
  }

  /** Pruning a token that is not in the list changes nothing. */
  lemma {:induction false} WithoutAbsent(tokens: seq<JsString>, token: JsString)
    requires token !in tokens
    ensures Without(tokens, token) == tokens
  {
    if tokens != [] {
      assert tokens[1..] == tokens[1..];
      assert forall t :: t in tokens[1..] ==> t in tokens;
      WithoutAbsent(tokens[1..], token);
      assert tokens == [tokens[0]] + tokens[1..];
    }
  }

  /** The rotated list after a refresh: the presented token gone, the new one last. */
  function Rotated(tokens: seq<JsString>, presented: JsString, issued: JsString): seq<JsString> {
    Without(tokens, presented) + [issued]
  }

  /**
   * A rotation removes every copy of the presented token, keeps the other tokens in order,
   * and adds exactly one entry, the issued token, at the end.
   */
  lemma RotatedEffect(tokens: seq<JsString>, presented: JsString, issued: JsString)
    requires presented in tokens
    ensures var r := Rotated(tokens, presented, issued);
      && |r| == |tokens| - Occurrences(tokens, presented) + 1
      && |r| <= |tokens|
      && r[|r| - 1] == issued
      && (presented != issued ==> presented !in r)
      && (forall t :: t != presented && t != issued ==> (t in r <==> t in tokens))
      && forall k :: 0 <= k < |tokens| && tokens[k] != presented ==>
           r == Without(tokens[..k], presented) + [tokens[k]] + Without(tokens[k + 1..], presented) + [issued]
  {
    WithoutCount(tokens, presented);
    OccursIff(tokens, presented);
    forall k | 0 <= k < |tokens| && tokens[k] != presented
      ensures Without(tokens, presented) ==
        Without(tokens[..k], presented) + [tokens[k]] + Without(tokens[k + 1..], presented)
    {
      WithoutAround(tokens, k, presented);
    }
  }

  /** Pruning around a kept token: it stays between what precedes and what follows it. */
  lemma WithoutAround(tokens: seq<JsString>, k: nat, token: JsString)
    requires k < |tokens| && tokens[k] != token
    ensures Without(tokens, token) == Without(tokens[..k], token) + [tokens[k]] + Without(tokens[k + 1..], token)
  {
    assert tokens == tokens[..k] + [tokens[k]] + tokens[k + 1..];
    WithoutAppend(tokens[..k] + [tokens[k]], tokens[k + 1..], token);
    WithoutAppend(tokens[..k], [tokens[k]], token);
    assert [tokens[k]][1..] == [];
  }

  /** A user id nobody has yet. */
  function FreshUserId(users: seq<UserRecord>): (id: ObjectId)
    ensures forall i :: 0 <= i < |users| ==> users[i].id != id
  {
    var ids := seq(|users|, i requires 0 <= i < |users| => users[i].id);
    assert forall i :: 0 <= i < |users| ==> users[i].id == ids[i] <= MaxId(ids);
    MaxId(ids) + 1
  }

  /** No two users share an id, an email or a username. */
  predicate UniqueUsers(users: seq<UserRecord>) {
    forall i, j :: 0 <= i < j < |users| ==>
      users[i].id != users[j].id && users[i].email != users[j].email && users[i].username != users[j].username
  }

  /** A user whose id, email and username nobody has can be added. */
  lemma AddUserKeepsUnique(users: seq<UserRecord>, user: UserRecord)
    requires UniqueUsers(users)
    requires forall i :: 0 <= i < |users| ==>
      users[i].id != user.id && users[i].email != user.email && users[i].username != user.username
    ensures UniqueUsers(users + [user])
  {
    var r := users + [user];
    forall i, j | 0 <= i < j < |r|
      ensures r[i].id != r[j].id && r[i].email != r[j].email && r[i].username != r[j].username
    {
      if j == |users| {
        assert r[i] == users[i] && r[j] == user;
      }
    }
  }

  /** The user collection the routes work on. */
  class AuthRouter {
    var users: seq<UserRecord>

    predicate Valid()
      reads this
    {
      UniqueUsers(users)
    }

    constructor ()
      ensures users == [] && Valid()
    {
      users := [];
    }

    /**
     * `POST /signup`: every field must be given and the password at least six units long;
     * the first stored user matching either field decides the message; otherwise
     * the user is stored with the issued refresh token as its only one.
     */
    method Signup(username: Option<JsString>, email: Option<JsString>, password: Option<JsString>, tokens: TokenPair)
      returns (result: Result<Session, HttpError>)
      requires Valid()
      modifies this
      ensures Valid()
      ensures !(Truthy(username) && Truthy(email) && Truthy(password)) ==>
        result == Err(BadRequest(AllFieldsText())) && users == old(users)
      ensures Truthy(username) && Truthy(email) && Truthy(password) && |password.value| < MinPasswordLength ==>
        result == Err(BadRequest(PasswordShortText())) && users == old(users)
      ensures Truthy(username) && Truthy(email) && Truthy(password) && |password.value| >= MinPasswordLength ==>
        var existing := FindExisting(old(users), email.value, username.value);
        && (existing.Some? ==>
              && users == old(users)
              && result == Err(BadRequest(if old(users)[existing.value].email == email.value
                                          then EmailExistsText() else UsernameExistsText())))
        && (existing.None? ==>
              && result.Ok? && result.value.tokens == tokens
              && (forall i :: 0 <= i < |old(users)| ==> old(users)[i].id != result.value.user)
              && users == old(users) + [UserRecord(result.value.user, username.value, email.value,
                                                  password.value, [tokens.refreshToken])])
    {
      if !Truthy(username) || !Truthy(email) || !Truthy(password) {
        return Err(BadRequest(AllFieldsText()));
      }
      if |password.value| < MinPasswordLength {
        return Err(BadRequest(PasswordShortText()));
      }
      var existing := FindExisting(users, email.value, username.value);
      if existing.Some? {
        var message := if users[existing.value].email == email.value then EmailExistsText() else UsernameExistsText();
        return Err(BadRequest(message));
      }
      var user := UserRecord(FreshUserId(users), username.value, email.value, password.value, []);
      user := user.(refreshTokens := user.refreshTokens + [tokens.refreshToken]);
      assert user.refreshTokens == [tokens.refreshToken];
      AddUserKeepsUnique(users, user);
      users := users + [user];
      result := Ok(Session(user.id, tokens));
    }

    /**
     * `POST /login`: email and password must be given; an unknown email and a wrong password
     * get the same answer; otherwise the issued refresh token is appended to the user's list.
     */
    method Login(email: Option<JsString>, password: Option<JsString>,
                 comparePassword: (UserRecord, JsString) -> bool, tokens: TokenPair)
      returns (result: Result<Session, HttpError>)
      requires Valid()
      modifies this
      ensures Valid()
      ensures !(Truthy(email) && Truthy(password)) ==>
        result == Err(BadRequest(CredentialsRequiredText())) && users == old(users)
      ensures Truthy(email) && Truthy(password) ==>
        var k := FindByEmail(old(users), email.value);
        && (k.None? || !comparePassword(old(users)[k.value], password.value) ==>
              result == Err(Unauthorized(InvalidCredentialsText())) && users == old(users))
        && (k.Some? && comparePassword(old(users)[k.value], password.value) ==>
              && result == Ok(Session(old(users)[k.value].id, tokens))
              && users == old(users)[k.value := old(users)[k.value].(
                   refreshTokens := old(users)[k.value].refreshTokens + [tokens.refreshToken])])
    {
      if !Truthy(email) || !Truthy(password) {
        return Err(BadRequest(CredentialsRequiredText()));
      }
      var k := FindByEmail(users, email.value);
      if k.None? {
        return Err(Unauthorized(InvalidCredentialsText()));
      }
      var user := users[k.value];
      if !comparePassword(user, password.value) {
        return Err(Unauthorized(InvalidCredentialsText()));
      }
      user := user.(refreshTokens := user.refreshTokens + [tokens.refreshToken]);
      users := users[k.value := user];
      result := Ok(Session(user.id, tokens));
    }

    /**
     * `POST /refresh`: a token must be given; one that does not verify (`decoded` is `None`)
     * is invalid; its user must exist and still hold the token; then the token is replaced
     * by the newly issued one.
     */
    method Refresh(refreshToken: Option<JsString>, decoded: Option<ObjectId>, tokens: TokenPair)
      returns (result: Result<TokenPair, HttpError>)
      requires Valid()
      modifies this
      ensures Valid()
      ensures !Truthy(refreshToken) ==> result == Err(Unauthorized(TokenRequiredText())) && users == old(users)
      ensures Truthy(refreshToken) && decoded.None? ==>
        result == Err(Unauthorized(InvalidTokenText())) && users == old(users)
      ensures Truthy(refreshToken) && decoded.Some? ==>
        var k := FindUser(old(users), decoded.value);
        && (k.None? ==> result == Err(Unauthorized(UserNotFoundText())) && users == old(users))
        && (k.Some? && refreshToken.value !in old(users)[k.value].refreshTokens ==>
              result == Err(Unauthorized(InvalidTokenText())) && users == old(users))
        && (k.Some? && refreshToken.value in old(users)[k.value].refreshTokens ==>
              && result == Ok(tokens)
              && users == old(users)[k.value := old(users)[k.value].(refreshTokens :=
                   Rotated(old(users)[k.value].refreshTokens, refreshToken.value, tokens.refreshToken))])
    {
      if !Truthy(refreshToken) {
        return Err(Unauthorized(TokenRequiredText()));
      }
      if decoded.None? {
        return Err(Unauthorized(InvalidTokenText()));
      }
      var k := FindUser(users, decoded.value);
      if k.None? {
        return Err(Unauthorized(UserNotFoundText()));
      }
      var user := users[k.value];
      if refreshToken.value !in user.refreshTokens {
        return Err(Unauthorized(InvalidTokenText()));
      }
      user := user.(refreshTokens := Without(user.refreshTokens, refreshToken.value));
      user := user.(refreshTokens := user.refreshTokens + [tokens.refreshToken]);
      users := users[k.value := user];
      result := Ok(tokens);
    }

    /**
     * `POST /logout` for the authenticated user: with a token, every entry equal to it is
     * pulled; without one, the list is emptied. An unknown user id updates nothing.
     */
    method Logout(user: ObjectId, refreshToken: Option<JsString>)
      requires Valid()
      modifies this
      ensures Valid()
      ensures |users| == |old(users)|
      ensures forall i :: 0 <= i < |users| && old(users)[i].id != user ==> users[i] == old(users)[i]
      ensures forall i :: 0 <= i < |users| && old(users)[i].id == user ==>
        users[i] == old(users)[i].(refreshTokens :=
          if Truthy(refreshToken) then Without(old(users)[i].refreshTokens, refreshToken.value) else [])
    {
      var k := FindUser(users, user);
      if k.None? {
        return;
      }
      var u := users[k.value];
      if Truthy(refreshToken) {
        users := users[k.value := u.(refreshTokens := Without(u.refreshTokens, refreshToken.value))];
      } else {
        users := users[k.value := u.(refreshTokens := [])];
      }
    }
  }

  // ---------------------------------------------------------------------------
  // properties across the routes

  /** After a refresh the old token is refused: a second refresh with it fails. */
  lemma RefreshIsSingleUse(tokens: seq<JsString>, presented: JsString, issued: JsString)
    requires presented in tokens && presented != issued
    ensures presented !in Rotated(tokens, presented, issued)
  {
    RotatedEffect(tokens, presented, issued);
  }

  /**
   * `jwt.sign({ userId })` within the same second as the presented token signs the same string:
   * the refresh then removes the token and puts it straight back, once, so it stays usable.
   */
  lemma RefreshReissuedKeepsToken(tokens: seq<JsString>, presented: JsString)
    requires presented in tokens
    ensures presented in Rotated(tokens, presented, presented)
    ensures Occurrences(Rotated(tokens, presented, presented), presented) == 1
  {
    WithoutCount(tokens, presented);
    OccurrencesAppend(Without(tokens, presented), [presented], presented);
    assert Occurrences([presented], presented) == 1 + Occurrences([presented][1..], presented);
  }

  /** Occurrences add up over a concatenation. */
  lemma {:induction false} OccurrencesAppend(a: seq<JsString>, b: seq<JsString>, token: JsString)
    ensures Occurrences(a + b, token) == Occurrences(a, token) + Occurrences(b, token)
  {
    if a == [] {
      assert a + b == b;
    } else {
      assert (a + b)[1..] == a[1..] + b;
      OccurrencesAppend(a[1..], b, token);
    }
  }

  /** Logging out with the only copy of a token leaves the other tokens, in their order. */
  lemma LogoutKeepsOthers(before: seq<JsString>, token: JsString, after: seq<JsString>)
    requires token !in before && token !in after
    ensures Without(before + [token] + after, token) == before + after
  {
    WithoutAppend(before + [token], after, token);
    WithoutAppend(before, [token], token);
    WithoutAbsent(before, token);
    WithoutAbsent(after, token);
    assert [token][1..] == [];
    assert Without([token], token) == [];
    assert Without(before + [token], token) == before;
  }

  /** Pruning works piece by piece. */
  lemma {:induction false} WithoutAppend(a: seq<JsString>, b: seq<JsString>, token: JsString)
    ensures Without(a + b, token) == Without(a, token) + Without(b, token)
  {
    if a == [] {
      assert a + b == b;
    } else {
      assert (a + b)[1..] == a[1..] + b;
      WithoutAppend(a[1..], b, token);
    }
  }
}
