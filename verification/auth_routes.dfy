/**
 * The auth endpoints (src/auth/routes.py): signup, login, refresh, "who am I" and logout.
 * Signup changes the user table and logout changes the blocklist, so those two are
 * methods over the objects; login, refresh and "who am I" only decide, so they are
 * functions. A response is the `Ok` value; an `Err` is the exception the endpoint raises.
 */
module AuthRoutes {
  import opened Wrappers
  import opened Errors
  import opened AuthUtils
  import opened Redis
  import opened Schemas
  import opened AuthService
  import opened Dependencies

  /** Lifetime of a refresh token, in days. */
  const REFRESH_TOKEN_EXPIRY := 2
  const SECONDS_PER_DAY := 86400
  /** The roles admitted to `/me`. */
  const ME_ROLES := ["admin"]

  const LOGIN_SUCCESSFUL := "Login Successful"
  const INCORRECT_PASSWORD := "Incorrect password"
  const INVALID_OR_EXPIRED := "Invalid or expired token"
  const LOGGED_OUT := "Logged out successfully"

  function UserAlreadyExists(email: string): string {
    "User with email " + email + " already exist"
  }

  function UserDoesNotExist(email: string): string {
    "User with email " + email + " does not exist"
  }

  /** The body of a successful login. */
  datatype LoginResponse = LoginResponse(
    message: string, accessToken: string, refreshToken: string, userUid: string, userEmail: string)

  /** The `user` claim login puts in both tokens. */
  function TokenClaims(u: User): (claims: map<string, string>) {
    map["email" := u.email, "user_uid" := u.uid, "role" := u.role]
  }

  // ---------------------------------------------------------------------------
  // POST /signup
  // ---------------------------------------------------------------------------

  /**
   * `create_user_account`: a duplicate email is refused with 403 and nothing is added;
   * otherwise the user service creates the row, and the response is its public view.
   * A table with unique emails keeps them unique.
   */
  method CreateUserAccount(table: UserTable, h: Hasher, userData: UserCreateModel, uid: string)
    returns (r: Result<PublicUser, AppError>)
    modifies table
    ensures var present := UserExists(old(table.users), userData.email);
            var hashed := GeneratePasswordHash(h, userData.password);
            && (present.Err? ==> r == Err(present.error) && table.users == old(table.users))
            && (present == Ok(true) ==>
                  r == Err(HttpError(HTTP_403_FORBIDDEN, UserAlreadyExists(userData.email))) &&
                  table.users == old(table.users))
            && (present == Ok(false) && hashed.Err? ==> r == Err(hashed.error) && table.users == old(table.users))
            && (present == Ok(false) && hashed.Ok? ==>
                  table.users == old(table.users) + [NewUser(userData, uid, hashed.value)] &&
                  r == Ok(ToPublic(NewUser(userData, uid, hashed.value))))
    ensures UniqueEmails(old(table.users)) ==> UniqueEmails(table.users)
  {
    var present := UserExists(table.users, userData.email);
    if present.Err? {
      return Err(present.error);
    }
    if present.value {
      return Err(HttpError(HTTP_403_FORBIDDEN, UserAlreadyExists(userData.email)));
    }
    ghost var before := table.users;
    var created := table.CreateUser(h, userData, uid);
    if created.Err? {
      return Err(created.error);
    }
    if UniqueEmails(before) {
      assert created.value.email == userData.email;
      AddFreshEmailKeepsUnique(before, created.value);
    }
    r := Ok(ToPublic(created.value));
  }

  // ---------------------------------------------------------------------------
  // POST /login
  // ---------------------------------------------------------------------------

  /**
   * `login_user`: an unknown email is 404 before the password is looked at; a known email
   * with a wrong password is 401; otherwise an access token (default lifetime, not a
   * refresh token) and a refresh token (two days) with the same `user` claim, and the
   * stored user's uid and email.
   */
  function LoginUser(users: seq<User>, h: Hasher, c: Codec, loginData: UserLoginModel, now: int,
                     accessJti: string, refreshJti: string): (r: Result<LoginResponse, AppError>)
    ensures GetUserByEmail(users, loginData.email) == Ok(None) ==>
      r == Err(HttpError(HTTP_404_NOT_FOUND, UserDoesNotExist(loginData.email)))
    ensures var found := GetUserByEmail(users, loginData.email);
            found.Ok? && found.value.Some? ==>
              (r == Err(HttpError(HTTP_401_UNAUTHORIZED, INCORRECT_PASSWORD)) <==>
               !VerifyPassword(h, loginData.password, found.value.value.passwordHash)) &&
              !(r.Err? && r.error.HttpError? && r.error.status == HTTP_404_NOT_FOUND)
    ensures r.Ok? ==>
      var found := GetUserByEmail(users, loginData.email);
      && found.Ok? && found.value.Some?
      && var u := found.value.value;
      && VerifyPassword(h, loginData.password, u.passwordHash)
      && r.value.message == LOGIN_SUCCESSFUL
      && r.value.userUid == u.uid && r.value.userEmail == u.email
      && c.encode(TokenPayload(TokenClaims(u), None, false, now, accessJti)) == Some(r.value.accessToken)
      && c.encode(TokenPayload(TokenClaims(u), Some(REFRESH_TOKEN_EXPIRY * SECONDS_PER_DAY), true, now, refreshJti))
           == Some(r.value.refreshToken)
  {
    match GetUserByEmail(users, loginData.email)
    case Err(e) => Err(e)
    case Ok(None) => Err(HttpError(HTTP_404_NOT_FOUND, UserDoesNotExist(loginData.email)))
    case Ok(Some(user)) =>
      if !VerifyPassword(h, loginData.password, user.passwordHash) then
        Err(HttpError(HTTP_401_UNAUTHORIZED, INCORRECT_PASSWORD))
      else
        var tokenData := TokenClaims(user);
        assert "email" in tokenData;
        match CreateAccessToken(c, tokenData, None, false, now, accessJti)
        case Err(e) => Err(e)
        case Ok(accessToken) =>
          match CreateAccessToken(c, tokenData, Some(REFRESH_TOKEN_EXPIRY * SECONDS_PER_DAY), true, now, refreshJti)
          case Err(e) => Err(e)
          case Ok(refreshToken) =>
            Ok(LoginResponse(LOGIN_SUCCESSFUL, accessToken, refreshToken, user.uid, user.email))
  }

  /**
   * The two tokens of a login decode, at the login instant, to the same `user` claim
   * {email, user_uid, role} of the stored user; the access token lives one hour and is
   * not a refresh token, the refresh token lives two days and is one.
   */
  lemma LoginIssuesTokenPair(users: seq<User>, h: Hasher, c: Codec, loginData: UserLoginModel, now: int,
                             accessJti: string, refreshJti: string)
    requires CodecRoundTrips(c)
    requires LoginUser(users, h, c, loginData, now, accessJti, refreshJti).Ok?
    ensures var resp := LoginUser(users, h, c, loginData, now, accessJti, refreshJti).value;
            var u := GetUserByEmail(users, loginData.email).value.value;
            var claims := map["email" := u.email, "user_uid" := u.uid, "role" := u.role];
            && DecodeToken(c, resp.accessToken, now) == Ok(Payload(claims, now + 3600, now, accessJti, false))
            && DecodeToken(c, resp.refreshToken, now) == Ok(Payload(claims, now + 172800, now, refreshJti, true))
  {
    var resp := LoginUser(users, h, c, loginData, now, accessJti, refreshJti).value;
    var u := GetUserByEmail(users, loginData.email).value.value;
    assert c.encode(TokenPayload(TokenClaims(u), None, false, now, accessJti)).Some?;
    assert c.encode(TokenPayload(TokenClaims(u), Some(REFRESH_TOKEN_EXPIRY * SECONDS_PER_DAY), true, now, refreshJti)).Some?;
  }

  /**
   * Signup followed by login with the same email and password succeeds and reports the
   * new row's uid, given a hasher whose digests verify and a signer that does not raise.
   */
  lemma LoginAfterSignup(users: seq<User>, h: Hasher, c: Codec, userData: UserCreateModel, uid: string,
                         now: int, accessJti: string, refreshJti: string)
    requires HasherAgrees(h) && CodecAlwaysSigns(c)
    requires UniqueEmails(users)
    requires UserExists(users, userData.email) == Ok(false)
    requires GeneratePasswordHash(h, userData.password).Ok?
    ensures var after := users + [NewUser(userData, uid, GeneratePasswordHash(h, userData.password).value)];
            var r := LoginUser(after, h, c, UserLoginModel(userData.email, userData.password), now, accessJti, refreshJti);
            r.Ok? && r.value.userUid == uid && r.value.userEmail == userData.email
  {
    var digest := GeneratePasswordHash(h, userData.password).value;
    var u := NewUser(userData, uid, digest);
    var after := users + [u];
    AddFreshEmailKeepsUnique(users, u);
    var found := GetUserByEmail(after, userData.email);
    assert found.Ok?;
    assert u in after;
    assert found.value.Some?;
    var v := found.value.value;
    assert v == u by {
      assert v in after && v.email == userData.email;
      if v in users {
        assert false;
      }
    }
    HashThenVerify(h, userData.password);
    assert VerifyPassword(h, userData.password, u.passwordHash);
    assert c.encode(TokenPayload(TokenClaims(u), None, false, now, accessJti)).Some?;
    assert c.encode(TokenPayload(TokenClaims(u), Some(REFRESH_TOKEN_EXPIRY * SECONDS_PER_DAY), true, now, refreshJti)).Some?;
    assert "email" in TokenClaims(u);
    assert CreateAccessToken(c, TokenClaims(u), None, false, now, accessJti).Ok?;
    assert CreateAccessToken(c, TokenClaims(u), Some(REFRESH_TOKEN_EXPIRY * SECONDS_PER_DAY), true, now, refreshJti).Ok?;
  }

  /**
   * The login schema admits passwords of 6 and 7 characters, but signup only ever stores
   * digests of passwords of at least 8, so such a login is always refused with 401 for a
   * row signup created, given a hasher whose digests reject other passwords.
   */
  lemma ShortLoginPasswordRefused(users: seq<User>, h: Hasher, c: Codec, loginData: UserLoginModel,
                                  signupPassword: string, now: int, accessJti: string, refreshJti: string)
    requires HasherSeparates(h)
    requires UserLoginValid(loginData) && |loginData.password| < MIN_PASSWORD_LENGTH
    requires GetUserByEmail(users, loginData.email).Ok? && GetUserByEmail(users, loginData.email).value.Some?
    requires GeneratePasswordHash(h, signupPassword) ==
             Ok(GetUserByEmail(users, loginData.email).value.value.passwordHash)
    ensures LoginUser(users, h, c, loginData, now, accessJti, refreshJti) ==
            Err(HttpError(HTTP_401_UNAUTHORIZED, INCORRECT_PASSWORD))
  {
    HashRejectsOtherPassword(h, signupPassword, loginData.password);
  }

  // ---------------------------------------------------------------------------
  // GET /refresh_token
  // ---------------------------------------------------------------------------

  /**
   * `get_new_access_token`: behind the refresh bearer; a new access token with the same
   * `user` claim when the refresh token's `exp` is still ahead of `now`, otherwise 400.
   */
  function GetNewAccessToken(c: Codec, blocklist: map<string, Entry>, credentials: Option<string>, now: int,
                             jti: string): (r: Result<string, AppError>)
    ensures var guard := CallBearer(RefreshTokenBearer, c, blocklist, credentials, now);
            && (guard.Err? ==> r == Err(guard.error))
            && (guard.Ok? && guard.value.exp <= now ==> r == Err(HttpError(HTTP_400_BAD_REQUEST, INVALID_OR_EXPIRED)))
            && (r.Ok? ==> guard.Ok? && guard.value.exp > now &&
                          c.encode(TokenPayload(guard.value.user, None, false, now, jti)) == Some(r.value))
  {
    match CallBearer(RefreshTokenBearer, c, blocklist, credentials, now)
    case Err(e) => Err(e)
    case Ok(tokenDetails) =>
      if tokenDetails.exp > now then
        CreateAccessToken(c, tokenDetails.user, None, false, now, jti)
      else
        Err(HttpError(HTTP_400_BAD_REQUEST, INVALID_OR_EXPIRED))
  }

  /**
   * Refresh succeeds exactly when the refresh token's `exp` is after `now`, and the new
   * token is an access token for one hour carrying the same `user` claim.
   */
  lemma RefreshReissuesSameClaims(c: Codec, blocklist: map<string, Entry>, token: string, now: int, jti: string)
    requires CodecRoundTrips(c) && CodecAlwaysSigns(c)
    requires CallBearer(RefreshTokenBearer, c, blocklist, Some(token), now).Ok?
    requires CallBearer(RefreshTokenBearer, c, blocklist, Some(token), now).value.user != map[]
    ensures var p := CallBearer(RefreshTokenBearer, c, blocklist, Some(token), now).value;
            var r := GetNewAccessToken(c, blocklist, Some(token), now, jti);
            && (r.Ok? <==> p.exp > now)
            && (r.Ok? ==> DecodeToken(c, r.value, now) == Ok(Payload(p.user, now + 3600, now, jti, false)))
  {
    var p := CallBearer(RefreshTokenBearer, c, blocklist, Some(token), now).value;
    assert c.encode(TokenPayload(p.user, None, false, now, jti)).Some?;
  }

  /**
   * Because decoding allows one second of leeway, a refresh token whose `exp` is exactly
   * `now` gets through the guard and is then refused with 400; it is the only one.
   */
  lemma RefreshRefusedOnlyInLeewaySecond(c: Codec, blocklist: map<string, Entry>, token: string, now: int, jti: string)
    requires CallBearer(RefreshTokenBearer, c, blocklist, Some(token), now).Ok?
    ensures var p := CallBearer(RefreshTokenBearer, c, blocklist, Some(token), now).value;
            GetNewAccessToken(c, blocklist, Some(token), now, jti) == Err(HttpError(HTTP_400_BAD_REQUEST, INVALID_OR_EXPIRED))
            <==> p.exp == now
  {
  }

  /** An access token presented to the refresh endpoint is refused with `RefreshTokenRequired`. */
  lemma RefreshRejectsAccessToken(c: Codec, blocklist: map<string, Entry>, token: string, now: int, jti: string)
    requires DecodeToken(c, token, now).Ok? && !DecodeToken(c, token, now).value.refresh
    requires !InBlocklist(blocklist, DecodeToken(c, token, now).value.jti, now)
    ensures GetNewAccessToken(c, blocklist, Some(token), now, jti) == Err(RefreshTokenRequired)
  {
  }

  // ---------------------------------------------------------------------------
  // GET /me
  // ---------------------------------------------------------------------------

  /**
   * `/me`: behind the access bearer, the current user, then the role gate for "admin".
   * It answers with the stored row of the token's email, and only for an admin.
   */
  function GetMe(c: Codec, blocklist: map<string, Entry>, users: seq<User>, credentials: Option<string>,
                 now: int): (r: Result<User, AppError>)
    ensures var guard := CallBearer(AccessTokenBearer, c, blocklist, credentials, now);
            && (guard.Err? ==> r == Err(guard.error))
            && (r.Ok? ==> guard.Ok? && "email" in guard.value.user && r.value in users &&
                          r.value.email == guard.value.user["email"] && r.value.role == "admin")
            && (guard.Ok? && GetCurrentUser(guard.value, users).Ok? && GetCurrentUser(guard.value, users).value.Some? ==>
                  var u := GetCurrentUser(guard.value, users).value.value;
                  (r.Ok? <==> u.role == "admin") && (r.Err? ==> r.error == InsufficientPermission))
  {
    match CallBearer(AccessTokenBearer, c, blocklist, credentials, now)
    case Err(e) => Err(e)
    case Ok(tokenDetails) =>
      match GetCurrentUser(tokenDetails, users)
      case Err(e) => Err(e)
      case Ok(user) =>
        match RoleChecker(ME_ROLES, user)
        case Err(e) => Err(e)
        case Ok(_) => Ok(user.value)
  }

  /** A user created by signup has the default role and is refused at `/me`. */
  lemma NewUserRefusedAtMe(c: Codec, blocklist: map<string, Entry>, users: seq<User>, token: string, now: int,
                           userData: UserCreateModel, uid: string, digest: string)
    requires CallBearer(AccessTokenBearer, c, blocklist, Some(token), now).Ok?
    requires GetCurrentUser(CallBearer(AccessTokenBearer, c, blocklist, Some(token), now).value, users)
             == Ok(Some(NewUser(userData, uid, digest)))
    ensures GetMe(c, blocklist, users, Some(token), now) == Err(InsufficientPermission)
  {
  }

  // ---------------------------------------------------------------------------
  // GET /logout
  // ---------------------------------------------------------------------------

  /**
   * `revoke_token`: behind the access bearer; the presented token's `jti` is added to the
   * blocklist and nothing else changes. A refused request leaves the blocklist as it was.
   */
  method RevokeToken(blocklist: TokenBlocklist, c: Codec, credentials: Option<string>, now: int)
    returns (r: Result<string, AppError>)
    requires blocklist.Valid()
    modifies blocklist
    ensures blocklist.Valid()
    ensures var guard := CallBearer(AccessTokenBearer, c, old(blocklist.entries), credentials, now);
            && (guard.Err? ==> r == Err(guard.error) && blocklist.entries == old(blocklist.entries))
            && (guard.Ok? ==> r == Ok(LOGGED_OUT) &&
                              blocklist.entries == Blocked(old(blocklist.entries), guard.value.jti, now))
  {
    var tokenDetails := CallBearer(AccessTokenBearer, c, blocklist.entries, credentials, now);
    if tokenDetails.Err? {
      return Err(tokenDetails.error);
    }
    blocklist.AddJtiToBlocklist(tokenDetails.value.jti, now);
    r := Ok(LOGGED_OUT);
  }

  /**
   * After logout at `t`, every bearer refuses the same token at any instant before
   * `t + JTI_EXPIRY`: with the decode error if it has expired by then, otherwise with
   * `InvalidToken`.
   */
  lemma LogoutRevokesToken(bearer: Bearer, c: Codec, entries: map<string, Entry>, token: string, t: int, later: int)
    requires CallBearer(AccessTokenBearer, c, entries, Some(token), t).Ok?
    requires later < t + JTI_EXPIRY
    ensures var after := Blocked(entries, CallBearer(AccessTokenBearer, c, entries, Some(token), t).value.jti, t);
            CallBearer(bearer, c, after, Some(token), later) ==
              if DecodeToken(c, token, later).Err? then Err(DecodeToken(c, token, later).error) else Err(InvalidToken)
  {
  }

  /**
   * When the token expires, leeway included, no later than the blocklist entry, logout
   * refuses it for good.
   */
  lemma LogoutOutlivesToken(bearer: Bearer, c: Codec, entries: map<string, Entry>, token: string, t: int, later: int)
    requires CallBearer(AccessTokenBearer, c, entries, Some(token), t).Ok?
    requires CallBearer(AccessTokenBearer, c, entries, Some(token), t).value.exp + LEEWAY <= t + JTI_EXPIRY
    ensures var after := Blocked(entries, CallBearer(AccessTokenBearer, c, entries, Some(token), t).value.jti, t);
            CallBearer(bearer, c, after, Some(token), later).Err?
  {
    if later < t + JTI_EXPIRY {
      LogoutRevokesToken(bearer, c, entries, token, t, later);
    }
  }

  /**
   * The blocklist entry lives exactly as long as a fresh access token, but decoding adds
   * one second of leeway: an access token revoked in the second it was issued is accepted
   * again at `t + JTI_EXPIRY`.
   */
  lemma LogoutInIssuingSecondReopens(c: Codec, entries: map<string, Entry>, userData: map<string, string>,
                                     jti: string, t: int)
    requires CodecRoundTrips(c)
    requires CreateAccessToken(c, userData, None, false, t, jti).Ok?
    ensures var token := CreateAccessToken(c, userData, None, false, t, jti).value;
            CallBearer(AccessTokenBearer, c, Blocked(entries, jti, t), Some(token), t + JTI_EXPIRY)
              == Ok(Payload(userData, t + 3600, t, jti, false))
  {
    assert c.encode(TokenPayload(userData, None, false, t, jti)).Some?;
  }

  /**
   * The end-to-end session: the access token of a login passes the access bearer at the
   * login instant with the user's uid in its claims, and after logout at that instant the
   * same token is refused with `InvalidToken`.
   */
  lemma LoginThenLogout(users: seq<User>, h: Hasher, c: Codec, loginData: UserLoginModel, now: int,
                        accessJti: string, refreshJti: string, entries: map<string, Entry>)
    requires CodecRoundTrips(c)
    requires LoginUser(users, h, c, loginData, now, accessJti, refreshJti).Ok?
    requires !InBlocklist(entries, accessJti, now)
    ensures var resp := LoginUser(users, h, c, loginData, now, accessJti, refreshJti).value;
            var guard := CallBearer(AccessTokenBearer, c, entries, Some(resp.accessToken), now);
            && guard.Ok? && guard.value.user["user_uid"] == resp.userUid
            && CallBearer(AccessTokenBearer, c, Blocked(entries, guard.value.jti, now), Some(resp.accessToken), now)
                 == Err(InvalidToken)
  {
    LoginIssuesTokenPair(users, h, c, loginData, now, accessJti, refreshJti);
    var resp := LoginUser(users, h, c, loginData, now, accessJti, refreshJti).value;
    LogoutRevokesToken(AccessTokenBearer, c, entries, resp.accessToken, now, now);
  }
}
