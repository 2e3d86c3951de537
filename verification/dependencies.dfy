/**
 * The session guard (src/auth/dependencies.py). The three bearer classes differ only in
 * `verify_token_data`, so a bearer is a tag. The credential is what the framework's
 * `HTTPBearer` extracts from the `Authorization` header (section 2.1 of RFC 6750): the
 * token, or None when the header is missing or not a bearer credential.
 */
module Dependencies {
  import opened Wrappers
  import opened Errors
  import opened AuthUtils
  import opened Redis
  import opened Schemas
  import opened AuthService

  /** `TokenBearer`, `AccessTokenBearer` and `RefreshTokenBearer`. */
  datatype Bearer = TokenBearer | AccessTokenBearer | RefreshTokenBearer

  const INVALID_CREDENTIALS := "Invalid authorization credentials"
  const NOT_IMPLEMENTED := "Please implement this method in child classes"

  /**
   * `verify_token_data`: the base class always raises; the access bearer refuses a
   * refresh token and the refresh bearer refuses anything that is not one.
   */
  function VerifyTokenData(bearer: Bearer, tokenData: Payload): (r: Outcome<AppError>)
    ensures bearer == TokenBearer ==> r == Fail(NotImplementedError(NOT_IMPLEMENTED))
    ensures bearer == AccessTokenBearer ==> (r == Pass <==> !tokenData.refresh)
    ensures bearer == RefreshTokenBearer ==> (r == Pass <==> tokenData.refresh)
    ensures r.Fail? && bearer == AccessTokenBearer ==> r.error == AccessTokenRequired
    ensures r.Fail? && bearer == RefreshTokenBearer ==> r.error == RefreshTokenRequired
  {
    match bearer
    case TokenBearer => Fail(NotImplementedError(NOT_IMPLEMENTED))
    case AccessTokenBearer => if tokenData.refresh then Fail(AccessTokenRequired) else Pass
    case RefreshTokenBearer => if !tokenData.refresh then Fail(RefreshTokenRequired) else Pass
  }

  /**
   * `TokenBearer.__call__`, checks in order: a credential is present, the token decodes,
   * its `jti` is not in the blocklist at `now`, and the bearer's own check passes. The
   * first failure is the one raised; decode errors pass through unchanged; a revoked
   * token raises `InvalidToken`. On success the decoded claims are returned as they are.
   */
  function CallBearer(bearer: Bearer, c: Codec, blocklist: map<string, Entry>, credentials: Option<string>,
                      now: int): (r: Result<Payload, AppError>)
    ensures credentials.None? ==> r == Err(HttpError(HTTP_403_FORBIDDEN, INVALID_CREDENTIALS))
    ensures credentials.Some? && DecodeToken(c, credentials.value, now).Err? ==>
      r == Err(DecodeToken(c, credentials.value, now).error)
    ensures credentials.Some? && DecodeToken(c, credentials.value, now).Ok? &&
            InBlocklist(blocklist, DecodeToken(c, credentials.value, now).value.jti, now) ==>
      r == Err(InvalidToken)
    ensures credentials.Some? && DecodeToken(c, credentials.value, now).Ok? &&
            !InBlocklist(blocklist, DecodeToken(c, credentials.value, now).value.jti, now) &&
            VerifyTokenData(bearer, DecodeToken(c, credentials.value, now).value).Fail? ==>
      r == Err(VerifyTokenData(bearer, DecodeToken(c, credentials.value, now).value).error)
    ensures r.Ok? ==>
      credentials.Some? && DecodeToken(c, credentials.value, now) == Ok(r.value) &&
      !InBlocklist(blocklist, r.value.jti, now) && VerifyTokenData(bearer, r.value) == Pass
  {
    match credentials
    case None => Err(HttpError(HTTP_403_FORBIDDEN, INVALID_CREDENTIALS))
    case Some(token) =>
      match DecodeToken(c, token, now)
      case Err(e) => Err(e)
      case Ok(tokenData) =>
        if InBlocklist(blocklist, tokenData.jti, now) then
          Err(InvalidToken)
        else
          match VerifyTokenData(bearer, tokenData)
          case Fail(e) => Err(e)
          case Pass => Ok(tokenData)
  }

  /** The base bearer never lets a request through. */
  lemma BaseBearerAlwaysRaises(c: Codec, blocklist: map<string, Entry>, credentials: Option<string>, now: int)
    ensures CallBearer(TokenBearer, c, blocklist, credentials, now).Err?
  {
  }

  /** An access token is refused where a refresh token is required, and the other way round,
      once it has got past decoding and the blocklist. */
  lemma KindMismatchRejected(c: Codec, blocklist: map<string, Entry>, token: string, now: int)
    requires DecodeToken(c, token, now).Ok?
    requires !InBlocklist(blocklist, DecodeToken(c, token, now).value.jti, now)
    ensures DecodeToken(c, token, now).value.refresh ==>
      CallBearer(AccessTokenBearer, c, blocklist, Some(token), now) == Err(AccessTokenRequired)
    ensures !DecodeToken(c, token, now).value.refresh ==>
      CallBearer(RefreshTokenBearer, c, blocklist, Some(token), now) == Err(RefreshTokenRequired)
  {
  }

  /**
   * `get_current_user`: the row whose email is the token's `user.email` claim, or None.
   * A token without that claim raises `KeyError`.
   */
  function GetCurrentUser(tokenDetails: Payload, users: seq<User>): (r: Result<Option<User>, AppError>)
    ensures "email" !in tokenDetails.user ==> r.Err?
    ensures r.Ok? && r.value.Some? ==>
      "email" in tokenDetails.user && r.value.value in users && r.value.value.email == tokenDetails.user["email"]
    ensures "email" in tokenDetails.user ==>
      (r == Ok(None) <==> forall u :: u in users ==> u.email != tokenDetails.user["email"])
  {
    if "email" !in tokenDetails.user then
      Err(InternalError("KeyError: email"))
    else
      GetUserByEmail(users, tokenDetails.user["email"])
  }

  /**
   * `Rolechecker.__call__`: true exactly when the user's role is one of the allowed roles,
   * otherwise `InsufficientPermission`. A missing user (None) raises on reading its role.
   */
  function RoleChecker(allowedRoles: seq<string>, currentUser: Option<User>): (r: Result<bool, AppError>)
    ensures r.Ok? <==> currentUser.Some? && currentUser.value.role in allowedRoles
    ensures r.Ok? ==> r.value
    ensures currentUser.Some? && currentUser.value.role !in allowedRoles ==> r == Err(InsufficientPermission)
  {
    match currentUser
    case None => Err(InternalError("AttributeError: role"))
    case Some(user) => if user.role in allowedRoles then Ok(true) else Err(InsufficientPermission)
  }
}
