# Bookly authentication, session guard and book list, modelled in Dafny

This project models the authentication and session core of the Bookly book-catalog
service, plus its in-memory book list. It covers:

- password hashing and verification, wrapped around an opaque bcrypt hasher;
- issuing and decoding JSON Web Tokens (RFC 7519), with an abstract signer and decoder;
- the Redis revocation blocklist of token ids (`jti`), with a fixed time to live;
- the bearer-token guard and the role gate;
- the signup, login, refresh, `/me` and logout endpoints over a user table;
- the module-level list of book records behind the `/books` handlers.

Each module corresponds to one source file:

| module | file | form |
|---|---|---|
| `AuthUtils` (auth_utils.dfy) | src/auth/utils.py | functions over an abstract `Hasher` and `Codec` |
| `Redis` (redis.dfy) | src/db/redis.py | class `TokenBlocklist` over a map; pure `Blocked`/`InBlocklist` beside it |
| `Dependencies` (dependencies.dfy) | src/auth/dependencies.py | functions returning `Result` |
| `AuthService` (service.dfy) | src/auth/service.py | lookups as functions; class `UserTable` whose `CreateUser` appends |
| `Schemas` (schemas.dfy) | src/auth/schemas.py | datatypes and predicates |
| `AuthRoutes` (auth_routes.dfy) | src/auth/routes.py | signup and logout are methods that change the table or the blocklist; login, refresh and `/me` are functions |
| `BookRoutes` (book_routes.dfy) | src/books/routes.py | class `BookList` with loop methods |

`Wrappers` holds `Option`, `Result` and `Outcome`. `Errors` holds the exceptions: FastAPI's
`HTTPException`, the custom exceptions from `src.errors`, and the Python built-ins.
src/errors.py is not part of this model, so the status codes of the custom exceptions
are not stated.

Time is an integer count of seconds, passed in as `now`. The fresh `uuid4` values (the
token `jti`, the user `uid`) are parameters too. The bcrypt context is a `Hasher` value
holding two functions that may raise. PyJWT, under the configured secret and algorithm,
is a `Codec` value holding `encode` and a signature-and-structure check `verify`. The
lemmas that need them assume what callers rely on:

- `HasherAgrees`: a digest is non-empty and verifies against its own password.
- `HasherSeparates`: a digest rejects every other password. bcrypt itself only reads the
  first 72 bytes of a secret, so this holds of the real hasher only for passwords of at
  most 72 bytes (see "Left out").
- `CodecRoundTrips`: an encoded token is non-empty and decodes to its payload.
- `CodecAlwaysSigns`: encoding never raises.

The `exp` check is modelled explicitly, as PyJWT applies it with `leeway=1`: a token is
expired when `exp <= now - 1`.

Behaviours of the code worth knowing:

- A revoked token raises `InvalidToken`; there is no separate "revoked" error.
- A blocklist entry lives a fixed 3600 s, not the token's remaining lifetime.
- Every decode failure is a 403 `HTTPException`. The failures differ only in their detail text.
- A refresh token with `exp <= now - 1` is refused by the refresh bearer's decode with 403
  "Token has expired", before the handler runs. The handler's own 400 "Invalid or expired
  token" fires only when `exp == now`, the leeway second (`RefreshRefusedOnlyInLeewaySecond`).
- `/me` admits only the role "admin", and signup stores the table's default role "user".
  So a freshly signed-up user is refused at `/me` with `InsufficientPermission`
  (`NewUserRefusedAtMe`). That a login's access token carries the user's uid is proved
  through the access guard (`LoginThenLogout`).

Three behaviours of the code are proved as stated:

- The signup schema admits passwords of 6 or 7 characters, which hashing then refuses
  with `ValueError` (`SchemaAdmitsPasswordsHashingRefuses`, `SixCharacterPasswordIsAdmitted`).
- The login schema admits the same short passwords, but no row signup created can
  match one, so such a login always ends with 401 (`ShortLoginPasswordRefused`).
- A blocklist entry lives exactly as long as a fresh access token, but decoding allows one
  more second. So an access token revoked in the second it was issued is accepted again at
  `t + 3600` (`LogoutInIssuingSecondReopens`). Logout refuses a token for good once its
  `exp` plus the leeway falls within the entry's lifetime (`LogoutOutlivesToken`).

`delete_book` removes records while a `for` loop walks the same list. Python's list
iterator keeps an index, and `list.remove` drops the first equal element. The model
follows both rules (`RemoveWhileIterating`), so the record right after a removed one is
skipped, and the handler always ends with 404.

The schema constraints are the predicates `Schemas.UserCreateValid` (username, first and
last name at most 20, email at most 40, password at least 6) and
`Schemas.UserLoginValid` (email at most 40, password at least 6). They are definitions
used by the lemmas above, so they have no row of their own. The dict passed to `create_access_token` cannot be modified,
because Dafny maps are values.

## Model

| member | source | states |
|---|---|---|
| `AuthUtils.GeneratePasswordHash` | src/auth/utils.py:19-42 | a password shorter than 8 (or empty) raises the length `ValueError` without the hasher; otherwise the result is the hasher's digest, and a raising hasher becomes the one `ValueError` "Failed to hash password"; every failure is a `ValueError` |
| `AuthUtils.VerifyPassword` | src/auth/utils.py:45-63 | never raises; true exactly when both inputs are non-empty and the hasher verifies; empty inputs give false; a raising hasher gives false |
| `AuthUtils.HashThenVerify` | src/auth/utils.py:37-60 | a digest produced by hashing verifies against its own password |
| `AuthUtils.HashRejectsOtherPassword` | src/auth/utils.py:56-63 | a digest does not verify against a different password |
| `AuthUtils.CreateAccessToken` | src/auth/utils.py:66-107 | empty user data raises `ValueError`; a token is the encoding of the payload {user copy, exp = now + lifetime (default 3600), iat = now, jti, refresh}; a signer failure raises `ValueError` |
| `AuthUtils.DecodeToken` | src/auth/utils.py:110-154 | every failure is HTTP 403: empty token, invalid signature or structure, unexpected error, and `exp <= now - 1`; a success is the verified payload with `exp > now - 1` |
| `AuthUtils.DecodeIssuedToken` | src/auth/utils.py:86-136 | round trip: an issued token decodes to exactly its claims while `now < exp + 1`, and to "Token has expired" from then on |
| `Redis.InBlocklist` | src/db/redis.py:20-23 | a `jti` is reported exactly when GET finds a live value; an absent key is never reported |
| `Redis.Blocked` | src/db/redis.py:4-17 | after adding at `t`, the `jti` is reported exactly at instants before `t + 3600`, holding "blocked"; every other key reads as before |
| `Redis.BlockAgainResetsExpiry` | src/db/redis.py:15-17 | re-adding a `jti` equals adding it once at the later instant; membership is kept |
| `Redis.BlockedKeepsSentinels` | src/db/redis.py:17 | the only value ever stored is the sentinel "blocked" |
| `Redis.TokenBlocklist.AddJtiToBlocklist` | src/db/redis.py:15-17 | the store becomes `Blocked(old store, jti, now)` and keeps only sentinels |
| `Redis.TokenBlocklist.TokenInBlocklist` | src/db/redis.py:20-23 | the answer is `InBlocklist` of the current store; a true answer reads "blocked" |
| `Schemas.PublicViewIgnoresHash` | src/auth/schemas.py:21-28 | two users serialise alike exactly when they agree on uid, username, email, names and verification flag; replacing the password hash never changes the serialised view |
| `Schemas.SchemaAdmitsPasswordsHashingRefuses` | src/auth/schemas.py:13 | for a body the signup schema admits, hashing hits its length guard exactly when the password is shorter than 8 |
| `Schemas.SixCharacterPasswordIsAdmitted` | src/auth/schemas.py:10-15 | a six-character password passes the schema and is refused by hashing |
| `AuthService.UsersWithEmail` | src/auth/service.py:13-14 | the selected rows are exactly the table rows with that email |
| `AuthService.UniqueEmailsAtMostOne` | src/auth/service.py:13-15 | in a table with unique emails at most one row matches, so `one()` cannot raise `MultipleResultsFound` |
| `AuthService.GetUserByEmail` | src/auth/service.py:11-18 | None exactly when no row has the email; a returned user is a row with that email; a table with unique emails never raises |
| `AuthService.UserExists` | src/auth/service.py:20-23 | true exactly when some row has the email; lookup errors propagate |
| `AuthService.AddFreshEmailKeepsUnique` | src/auth/routes.py:47-54 | appending a user whose email is absent keeps emails unique |
| `AuthService.UserTable.CreateUser` | src/auth/service.py:25-33 | a refused password raises before anything is added; otherwise exactly one row is appended, holding the hash and not the plaintext |
| `Dependencies.VerifyTokenData` | src/auth/dependencies.py:73-124 | base bearer always raises `NotImplementedError`; access bearer passes exactly non-refresh tokens, else `AccessTokenRequired`; refresh bearer passes exactly refresh tokens, else `RefreshTokenRequired` |
| `Dependencies.CallBearer` | src/auth/dependencies.py:36-71 | checks in order: missing credential 403, then decode errors unchanged, then blocklisted `jti` `InvalidToken`, then the bearer's kind check; success returns exactly the decoded payload |
| `Dependencies.BaseBearerAlwaysRaises` | src/auth/dependencies.py:73-84 | the base bearer never lets a request through |
| `Dependencies.KindMismatchRejected` | src/auth/dependencies.py:103-124 | a decodable, unrevoked refresh token fails the access bearer with `AccessTokenRequired`, and an access token fails the refresh bearer with `RefreshTokenRequired` |
| `Dependencies.GetCurrentUser` | src/auth/dependencies.py:127-135 | the result is the row whose email is the token's `user.email` claim, None exactly when no row has it; a missing claim raises |
| `Dependencies.RoleChecker` | src/auth/dependencies.py:138-147 | true exactly when the user's role is allowed, otherwise `InsufficientPermission` |
| `AuthRoutes.CreateUserAccount` | src/auth/routes.py:28-55 | a duplicate email gives 403 and nothing is added; lookup and hashing errors add nothing; otherwise one row is appended and its public view returned; unique emails stay unique |
| `AuthRoutes.LoginUser` | src/auth/routes.py:58-118 | unknown email 404; known email with a wrong password 401 and never 404; success carries the stored uid and email and the encodings of the access and refresh payloads |
| `AuthRoutes.LoginIssuesTokenPair` | src/auth/routes.py:100-106 | both login tokens decode to the same `user` claim {email, user_uid, role}; access: 3600 s and not a refresh token; refresh: 172800 s and a refresh token |
| `AuthRoutes.LoginAfterSignup` | src/auth/routes.py:47-117 | after signup, login with the same email and password succeeds and reports the new uid and email |
| `AuthRoutes.ShortLoginPasswordRefused` | src/auth/routes.py:93-97 | a login body the schema admits with a password shorter than 8 gets 401 against any row whose digest signup made |
| `AuthRoutes.GetNewAccessToken` | src/auth/routes.py:121-145 | guard errors propagate; `exp <= now` gives 400; a new token encodes an access payload with the refresh token's `user` claim |
| `AuthRoutes.RefreshReissuesSameClaims` | src/auth/routes.py:136-141 | refresh succeeds exactly when `exp > now`; the new token decodes to the same `user` claim, 3600 s, not a refresh token |
| `AuthRoutes.RefreshRefusedOnlyInLeewaySecond` | src/auth/routes.py:136-145 | a refresh token that passes the guard is refused with 400 exactly when its `exp` equals `now` |
| `AuthRoutes.RefreshRejectsAccessToken` | src/auth/routes.py:121-122 | an unrevoked access token at the refresh endpoint gives `RefreshTokenRequired` |
| `AuthRoutes.GetMe` | src/auth/routes.py:148-153 | guard errors propagate; a success is the stored row of the token's email and has role "admin"; for a found user, success exactly when the role is "admin", else `InsufficientPermission` |
| `AuthRoutes.NewUserRefusedAtMe` | src/auth/routes.py:22 | a user created by signup has role "user" and gets `InsufficientPermission` at `/me` |
| `AuthRoutes.RevokeToken` | src/auth/routes.py:156-164 | a refused request changes nothing; otherwise the token's `jti` is added at `now` and nothing else changes |
| `AuthRoutes.LogoutRevokesToken` | src/auth/routes.py:159-160 | after logout at `t`, any bearer refuses the token at every instant before `t + 3600`: `InvalidToken`, or the decode error once expired |
| `AuthRoutes.LogoutOutlivesToken` | src/db/redis.py:4-17 | when `exp + 1 <= t + 3600`, the token logged out at `t` is refused at every instant |
| `AuthRoutes.LogoutInIssuingSecondReopens` | src/auth/utils.py:128-136 | an access token revoked in its issuing second passes the access bearer again at `t + 3600` |
| `AuthRoutes.LoginThenLogout` | src/auth/routes.py:100-160 | a login's access token passes the access bearer with the user's uid in its claims; after logout it is refused with `InvalidToken` |
| `BookRoutes.FirstMatch` | src/books/routes.py:26-28 | the position of the first record with the id, or None when no record has it |
| `BookRoutes.RemoveFirst` | src/books/routes.py:57 | `list.remove(x)` drops exactly one occurrence of `x` and keeps every other element |
| `BookRoutes.RemoveFirstAt` | src/books/routes.py:57 | when no equal record precedes position i, `remove` takes out position i and shifts the rest left |
| `BookRoutes.NoMatchLeavesList` | src/books/routes.py:55-57 | deleting an id no record has leaves the list unchanged |
| `BookRoutes.DeleteKeepsOtherRecords` | src/books/routes.py:55-57 | deleting leaves the records with other ids, in their order |
| `BookRoutes.DeleteRemovesUniqueId` | src/books/routes.py:55-57 | when at most one record has the id, no record with it remains |
| `BookRoutes.AdjacentDuplicateSurvives` | src/books/routes.py:55-57 | of two adjacent records with the id, the second survives deletion |
| `BookRoutes.BookList.GetAllBooks` | src/books/routes.py:12-13 | returns the list as it stands |
| `BookRoutes.BookList.CreateABook` | src/books/routes.py:17-21 | appends the record at the end and returns it, with no duplicate check |
| `BookRoutes.BookList.GetBook` | src/books/routes.py:25-32 | the first record with the id, or 404 when none has it |
| `BookRoutes.BookList.UpdateBook` | src/books/routes.py:36-50 | the first matching record gets the six update fields and keeps its id; no other record changes; an absent id gives 404 and changes nothing |
| `BookRoutes.BookList.DeleteBook` | src/books/routes.py:54-62 | the list becomes what removal-while-iterating leaves, and the result is always 404 |

## Left out

- AuthUtils.HashRejectsOtherPassword: holds of the real bcrypt only for passwords of at most 72 bytes in UTF-8. bcrypt ignores the bytes after the 72nd, and neither schema bounds the password's length. So two longer passwords that share their first 72 bytes verify against each other's digest; the `HasherSeparates` hypothesis excludes that.
- bcrypt and PyJWT are abstract functions, so no cryptography is modelled. The lemmas assume the properties listed above.
- PyJWT's `iat` "not yet valid" check and its other claim-format checks are not modelled. Only the signature/structure outcome and the `exp` rule are.
- `datetime.now` and `uuid4` are parameters. `exp` and `iat` come from one clock reading, not two.
- Sub-second precision is not modelled; instants are whole seconds. The naive local-time comparison in `get_new_access_token` (routes.py:139) is modelled as comparing epoch seconds.
- FastAPI's `HTTPBearer` header parsing is not modelled. The credential is `Option<string>`: the bearer token, or None. With `auto_error=True` the framework raises its own 403 for a missing header; the model uses the message of dependencies.py:54-58.
- Decoded payloads always carry the five claims that `create_access_token` writes, because only this service's secret signs tokens. So the `KeyError` on a missing `jti` or `exp`, and the "missing `refresh`" case of dependencies.py:123, are not modelled.
- The check `token_data is None` (dependencies.py:67-68) and the `not token_data` tests (lines 103 and 123) are not modelled. A decoded payload is never None and never empty.
- Redis and database connection failures, `session.commit` failures, and `async`/`await` are not modelled. An outage propagates as an exception in the source; the model has no such outcome.
- `created_at`, `updated_at` and the user's books and reviews are not modelled. The user row has uid, username, email, names, role, hash and verification flag.
- JSON response bodies are datatypes. The serialisation of the `/me` response is not modelled; `GetMe` returns the row.
- Python dict aliasing in the book list is not modelled: handlers return record values, not shared references.
- src/books/service.py, src/tags and src/reviews, the table models, migrations, src/db/main.py, src/middleware.py and src/__init__.py are not part of this model. They are ORM, framework or logging plumbing.
