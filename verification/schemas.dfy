/**
 * Request and response shapes of the auth endpoints (src/auth/schemas.py) and the user
 * record of the user table. A request body is admitted when the field-length
 * constraints hold; lengths count characters.
 */
module Schemas {
  import opened Wrappers
  import opened Errors
  import opened AuthUtils

  const USERNAME_MAX_LENGTH := 20
  const EMAIL_MAX_LENGTH := 40
  const NAME_MAX_LENGTH := 20
  const PASSWORD_MIN_LENGTH := 6

  datatype UserCreateModel = UserCreateModel(
    username: string, email: string, password: string, firstName: string, lastName: string)

  datatype UserLoginModel = UserLoginModel(email: string, password: string)

  /** The stored user; `uid` is the uuid in its string form. */
  datatype User = User(
    uid: string, username: string, email: string, firstName: string, lastName: string,
    role: string, passwordHash: string, isVerified: bool)

  /** `UserModel` as serialised: `password_hash` is declared with `exclude=True`. */
  datatype PublicUser = PublicUser(
    uid: string, username: string, email: string, firstName: string, lastName: string, isVerified: bool)

  /** The constraints `UserCreateModel` puts on a signup body. */
  predicate UserCreateValid(m: UserCreateModel) {
    && |m.username| <= USERNAME_MAX_LENGTH
    && |m.email| <= EMAIL_MAX_LENGTH
    && |m.password| >= PASSWORD_MIN_LENGTH
    && |m.firstName| <= NAME_MAX_LENGTH
    && |m.lastName| <= NAME_MAX_LENGTH
  }

  /** The constraints `UserLoginModel` puts on a login body. */
  predicate UserLoginValid(m: UserLoginModel) {
    |m.email| <= EMAIL_MAX_LENGTH && |m.password| >= PASSWORD_MIN_LENGTH
  }

  /** Serialising a user through `UserModel`: every public field kept, the hash dropped. */
  function ToPublic(u: User): (p: PublicUser)
    ensures p.uid == u.uid && p.email == u.email && p.username == u.username
    ensures p.firstName == u.firstName && p.lastName == u.lastName && p.isVerified == u.isVerified
  {
    PublicUser(u.uid, u.username, u.email, u.firstName, u.lastName, u.isVerified)
  }

  /**
   * The public view cannot depend on the hash: two users that differ only in their
   * digest (or their role, which `UserModel` does not declare) serialise alike, and
   * users that differ in a declared field serialise differently.
   */
  lemma PublicViewIgnoresHash(u: User, v: User)
    ensures u.uid == v.uid && u.username == v.username && u.email == v.email &&
            u.firstName == v.firstName && u.lastName == v.lastName && u.isVerified == v.isVerified
            <==> ToPublic(u) == ToPublic(v)
    ensures ToPublic(u.(passwordHash := v.passwordHash)) == ToPublic(u)
  {
  }

  /**
   * The schema admits passwords of 6 and 7 characters that the hasher's own guard then
   * refuses: for a valid signup body, the length guard of hashing fires exactly when the
   * password is shorter than 8.
   */
  lemma SchemaAdmitsPasswordsHashingRefuses(h: Hasher, m: UserCreateModel)
    requires UserCreateValid(m)
    ensures |m.password| < MIN_PASSWORD_LENGTH ==>
      GeneratePasswordHash(h, m.password) == Err(ValueError(PASSWORD_TOO_SHORT))
    ensures |m.password| >= MIN_PASSWORD_LENGTH ==>
      GeneratePasswordHash(h, m.password) != Err(ValueError(PASSWORD_TOO_SHORT))
  {
  }

  /** Such a body exists: a six-character password passes the schema. */
  lemma SixCharacterPasswordIsAdmitted(h: Hasher)
    ensures var m := UserCreateModel("ann", "a@x.com", "abc123", "Ann", "Lee");
            UserCreateValid(m) &&
            GeneratePasswordHash(h, m.password) == Err(ValueError(PASSWORD_TOO_SHORT))
  {
  }
}
