/**
 * Password hashing and token issuance/validation (src/auth/utils.py).
 *
 * The two foreign libraries are abstract: the bcrypt context is a `Hasher` (two functions
 * that may raise) and PyJWT with the process-wide secret and algorithm is a `Codec` (sign,
 * and check signature and structure). What the code adds around them, the guards, the
 * payload, the default expiry and the mapping of every decode failure onto HTTP 403, is
 * modelled exactly. Instants are whole seconds since the epoch, passed in as `now`; the
 * fresh uuid4 `jti` is passed in as well.
 */
module AuthUtils {
  import opened Wrappers
  import opened Errors

  /** Default lifetime of a token, in seconds. */
  const ACCESS_TOKEN_EXPIRY := 3600
  /** Shortest password the hasher accepts. */
  const MIN_PASSWORD_LENGTH := 8
  /** Clock-skew allowance handed to the decoder for the `exp` claim, in seconds. */
  const LEEWAY := 1

  const PASSWORD_TOO_SHORT := "Password must be at least 8 characters long"
  const HASH_FAILED := "Failed to hash password"
  const EMPTY_USER_DATA := "User data cannot be empty"
  const TOKEN_CREATION_FAILED := "Failed to create access token"
  const TOKEN_REQUIRED := "Token is required"
  const TOKEN_EXPIRED := "Token has expired"
  const TOKEN_INVALID := "Invalid token"
  const TOKEN_DECODING_FAILED := "Token decoding failed"

  // ---------------------------------------------------------------------------
  // Password hashing
  // ---------------------------------------------------------------------------

  datatype HashOutcome = Digest(digest: string) | HashRaised
  datatype VerifyOutcome = Verdict(matches: bool) | VerifyRaised

  /** The bcrypt context: `hash` and `verify`, either of which may raise. */
  datatype Hasher = Hasher(hash: string -> HashOutcome, verify: (string, string) -> VerifyOutcome)

  /** What callers rely on: a digest is never empty and verifies against its own secret. */
  ghost predicate HasherAgrees(h: Hasher) {
    forall s: string {:trigger h.hash(s)} ::
      h.hash(s).Digest? ==> h.hash(s).digest != "" && h.verify(s, h.hash(s).digest) == Verdict(true)
  }

  /** A digest does not verify against any other secret. */
  ghost predicate HasherSeparates(h: Hasher) {
    forall s: string, s': string {:trigger h.verify(s', h.hash(s).digest)} ::
      s != s' && h.hash(s).Digest? ==> h.verify(s', h.hash(s).digest) != Verdict(true)
  }

  /**
   * `generate_password_hash`: a password that is empty or shorter than the minimum is
   * refused before the hasher is asked; any failure of the hasher is reported as the one
   * `ValueError` "Failed to hash password".
   */
  function GeneratePasswordHash(h: Hasher, password: string): (r: Result<string, AppError>)
    ensures |password| < MIN_PASSWORD_LENGTH ==> r == Err(ValueError(PASSWORD_TOO_SHORT))
    ensures r.Ok? ==> |password| >= MIN_PASSWORD_LENGTH && h.hash(password) == Digest(r.value)
    ensures |password| >= MIN_PASSWORD_LENGTH && h.hash(password).HashRaised? ==>
      r == Err(ValueError(HASH_FAILED))
    ensures r.Err? ==> r.error.ValueError?
  {
    if password == "" || |password| < MIN_PASSWORD_LENGTH then
      Err(ValueError(PASSWORD_TOO_SHORT))
    else
      match h.hash(password)
      case Digest(d) => Ok(d)
      case HashRaised => Err(ValueError(HASH_FAILED))
  }

  /**
   * `verify_password`: never raises. Empty inputs give false without consulting the
   * hasher, and a hasher that raises counts as a mismatch.
   */
  function VerifyPassword(h: Hasher, password: string, hash: string): (r: bool)
    ensures password == "" || hash == "" ==> !r
    ensures r <==> password != "" && hash != "" && h.verify(password, hash) == Verdict(true)
  {
    if password == "" || hash == "" then
      false
    else
      match h.verify(password, hash)
      case Verdict(b) => b
      case VerifyRaised => false
  }

  /** A stored digest accepts the password it was made from. */
  lemma HashThenVerify(h: Hasher, password: string)
    requires HasherAgrees(h)
    requires GeneratePasswordHash(h, password).Ok?
    ensures VerifyPassword(h, password, GeneratePasswordHash(h, password).value)
  {
  }

  /** A stored digest rejects every other password. */
  lemma HashRejectsOtherPassword(h: Hasher, password: string, other: string)
    requires HasherSeparates(h)
    requires GeneratePasswordHash(h, password).Ok?
    requires other != password
    ensures !VerifyPassword(h, other, GeneratePasswordHash(h, password).value)
  {
  }

  // ---------------------------------------------------------------------------
  // Tokens
  // ---------------------------------------------------------------------------

  /**
   * The claims of a token: the registered claims `exp` (section 4.1.4 of RFC 7519),
   * `iat` (section 4.1.6) and `jti` (section 4.1.7), and the private claims `user`
   * and `refresh`.
   */
  datatype Payload = Payload(user: map<string, string>, exp: int, iat: int, jti: string, refresh: bool)

  /** What the decoder's signature and structure check gives: `Rejected` is PyJWT's
      `InvalidTokenError`, `Crashed` any other exception. */
  datatype DecodeOutcome = Decoded(payload: Payload) | Rejected | Crashed

  /** PyJWT under the configured secret and algorithm. `encode` gives None when it raises. */
  datatype Codec = Codec(encode: Payload -> Option<string>, verify: string -> DecodeOutcome)

  /** What callers rely on: an encoded token is non-empty and decodes to its payload. */
  ghost predicate CodecRoundTrips(c: Codec) {
    forall p: Payload {:trigger c.encode(p)} ::
      c.encode(p).Some? ==> c.encode(p).value != "" && c.verify(c.encode(p).value) == Decoded(p)
  }

  /** A signer that never raises, as PyJWT does on these payloads of strings, ints and a bool. */
  ghost predicate CodecAlwaysSigns(c: Codec) {
    forall p: Payload {:trigger c.encode(p)} :: c.encode(p).Some?
  }

  /** The lifetime `create_access_token` uses: the one given, else the default. */
  function Lifetime(expiry: Option<int>): (r: int) {
    if expiry.Some? then expiry.value else ACCESS_TOKEN_EXPIRY
  }

  /** The payload `create_access_token` builds, from one reading of the clock. */
  function TokenPayload(userData: map<string, string>, expiry: Option<int>, refresh: bool, now: int, jti: string): (p: Payload) {
    Payload(user := userData, exp := now + Lifetime(expiry), iat := now, jti := jti, refresh := refresh)
  }

  /**
   * `create_access_token`: empty user data is refused; otherwise the token is the
   * signed payload, and a failure of the signer is reported as `ValueError`.
   */
  function CreateAccessToken(c: Codec, userData: map<string, string>, expiry: Option<int>, refresh: bool,
                             now: int, jti: string): (r: Result<string, AppError>)
    ensures userData == map[] ==> r == Err(ValueError(EMPTY_USER_DATA))
    ensures r.Ok? ==> userData != map[] && c.encode(TokenPayload(userData, expiry, refresh, now, jti)) == Some(r.value)
    ensures userData != map[] && c.encode(TokenPayload(userData, expiry, refresh, now, jti)).None? ==>
      r == Err(ValueError(TOKEN_CREATION_FAILED))
  {
    if userData == map[] then
      Err(ValueError(EMPTY_USER_DATA))
    else
      match c.encode(TokenPayload(userData, expiry, refresh, now, jti))
      case Some(token) => Ok(token)
      case None => Err(ValueError(TOKEN_CREATION_FAILED))
  }

  /**
   * `decode_token`: every failure is HTTP 403. A token counts as expired when
   * `exp <= now - LEEWAY`, the rule the decoder applies with its leeway.
   */
  function DecodeToken(c: Codec, token: string, now: int): (r: Result<Payload, AppError>)
    ensures r.Err? ==> r.error.HttpError? && r.error.status == HTTP_403_FORBIDDEN
    ensures token == "" ==> r == Err(HttpError(HTTP_403_FORBIDDEN, TOKEN_REQUIRED))
    ensures r.Ok? ==> token != "" && c.verify(token) == Decoded(r.value) && r.value.exp > now - LEEWAY
    ensures token != "" && c.verify(token).Decoded? && c.verify(token).payload.exp <= now - LEEWAY ==>
      r == Err(HttpError(HTTP_403_FORBIDDEN, TOKEN_EXPIRED))
    ensures token != "" && c.verify(token).Rejected? ==> r == Err(HttpError(HTTP_403_FORBIDDEN, TOKEN_INVALID))
    ensures token != "" && c.verify(token).Crashed? ==> r == Err(HttpError(HTTP_403_FORBIDDEN, TOKEN_DECODING_FAILED))
  {
    if token == "" then
      Err(HttpError(HTTP_403_FORBIDDEN, TOKEN_REQUIRED))
    else
      match c.verify(token)
      case Decoded(p) =>
        if p.exp <= now - LEEWAY then Err(HttpError(HTTP_403_FORBIDDEN, TOKEN_EXPIRED)) else Ok(p)
      case Rejected => Err(HttpError(HTTP_403_FORBIDDEN, TOKEN_INVALID))
      case Crashed => Err(HttpError(HTTP_403_FORBIDDEN, TOKEN_DECODING_FAILED))
  }

  /**
   * Round trip: an issued token decodes to exactly the claims it was issued with
   * (`user` a copy of the user data, `iat` the issuing instant, `exp` that instant plus
   * the lifetime, the given `jti` and `refresh` flag) until one second past `exp`, and is
   * reported as expired from then on.
   */
  lemma DecodeIssuedToken(c: Codec, userData: map<string, string>, expiry: Option<int>, refresh: bool,
                          issuedAt: int, jti: string, now: int)
    requires CodecRoundTrips(c)
    requires CreateAccessToken(c, userData, expiry, refresh, issuedAt, jti).Ok?
    ensures var token := CreateAccessToken(c, userData, expiry, refresh, issuedAt, jti).value;
            var exp := issuedAt + (if expiry.Some? then expiry.value else ACCESS_TOKEN_EXPIRY);
            DecodeToken(c, token, now) ==
              if now < exp + LEEWAY then Ok(Payload(userData, exp, issuedAt, jti, refresh))
              else Err(HttpError(HTTP_403_FORBIDDEN, TOKEN_EXPIRED))
  {
    var p := TokenPayload(userData, expiry, refresh, issuedAt, jti);
    assert c.encode(p).Some?;
  }
}
