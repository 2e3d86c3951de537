/**
 * The user service (src/auth/service.py) over the user table. The table is the sequence
 * of stored users; `get_user_by_email` is SQLAlchemy's `result.one()`, which raises
 * `NoResultFound` (caught, giving None) when nothing matches and `MultipleResultsFound`
 * (not caught) when more than one row matches.
 */
module AuthService {
  import opened Wrappers
  import opened Errors
  import opened AuthUtils
  import opened Schemas

  /** The role the table's server default gives a new row. */
  const DEFAULT_ROLE := "user"

  /** The rows whose email is `email`, in table order. */
  function UsersWithEmail(users: seq<User>, email: string): (r: seq<User>)
    ensures forall u :: u in r <==> u in users && u.email == email
    ensures |r| <= |users|
  {
    if users == [] then []
    else (if users[0].email == email then [users[0]] else []) + UsersWithEmail(users[1..], email)
  }

  /** No two rows share an email; signup keeps the table this way. */
  ghost predicate UniqueEmails(users: seq<User>) {
    forall i, j :: 0 <= i < j < |users| ==> users[i].email != users[j].email
  }

  lemma {:induction false} NoneWithEmail(users: seq<User>, email: string)
    requires forall u :: u in users ==> u.email != email
    ensures UsersWithEmail(users, email) == []
  {
    if users != [] {
      assert users[0] in users;
      NoneWithEmail(users[1..], email);
    }
  }

  lemma {:induction false} UniqueEmailsAtMostOne(users: seq<User>, email: string)
    requires UniqueEmails(users)
    ensures |UsersWithEmail(users, email)| <= 1
  {
    if users != [] {
      var rest := users[1..];
      assert UniqueEmails(rest) by {
        forall i, j | 0 <= i < j < |rest| ensures rest[i].email != rest[j].email {
          assert rest[i] == users[i + 1] && rest[j] == users[j + 1];
        }
      }
      UniqueEmailsAtMostOne(rest, email);
      if users[0].email == email {
        forall u | u in rest ensures u.email != email {
          var k :| 0 <= k < |rest| && rest[k] == u;
          assert users[k + 1] == u;
        }
        NoneWithEmail(rest, email);
      }
    }
  }

  /**
   * `get_user_by_email`: None exactly when no row has the email; otherwise the one
   * matching row; an error when several rows match, which cannot happen in a table with
   * unique emails.
   */
  function GetUserByEmail(users: seq<User>, email: string): (r: Result<Option<User>, AppError>)
    ensures r == Ok(None) <==> forall u :: u in users ==> u.email != email
    ensures r.Ok? && r.value.Some? ==> r.value.value in users && r.value.value.email == email
    ensures UniqueEmails(users) ==> r.Ok?
  {
    var matches := UsersWithEmail(users, email);
    assert UniqueEmails(users) ==> |matches| <= 1 by {
      if UniqueEmails(users) {
        UniqueEmailsAtMostOne(users, email);
      }
    }
    if |matches| == 0 then
      Ok(None)
    else if |matches| == 1 then
      assert matches[0] in matches;
      Ok(Some(matches[0]))
    else
      assert matches[0] in matches;
      Err(InternalError("MultipleResultsFound"))
  }

  /** `user_exists`: true exactly when some row has the email; lookup errors propagate. */
  function UserExists(users: seq<User>, email: string): (r: Result<bool, AppError>)
    ensures r.Ok? <==> GetUserByEmail(users, email).Ok?
    ensures r.Ok? ==> (r.value <==> exists u :: u in users && u.email == email)
  {
    match GetUserByEmail(users, email)
    case Ok(user) => Ok(user != None)
    case Err(e) => Err(e)
  }

  /** The row `create_user` builds: the body's fields, the hash in place of the password. */
  function NewUser(userData: UserCreateModel, uid: string, passwordHash: string): (u: User) {
    User(uid := uid, username := userData.username, email := userData.email,
         firstName := userData.firstName, lastName := userData.lastName,
         role := DEFAULT_ROLE, passwordHash := passwordHash, isVerified := false)
  }

  /** Appending a row whose email is not yet present keeps emails unique. */
  lemma AddFreshEmailKeepsUnique(users: seq<User>, u: User)
    requires UniqueEmails(users)
    requires UserExists(users, u.email) == Ok(false)
    ensures UniqueEmails(users + [u])
  {
    var all := users + [u];
    forall i, j | 0 <= i < j < |all| ensures all[i].email != all[j].email {
      if j == |users| {
        assert all[i] in users;
      }
    }
  }

  /** The session's view of the user table. */
  class UserTable {
    var users: seq<User>

    constructor (initial: seq<User>)
      ensures users == initial
    {
      users := initial;
    }

    /**
     * `create_user`: hashes the password first, so a refused password raises before
     * anything is added; otherwise exactly one row, holding the hash and never the
     * plaintext, is added and committed.
     */
    method CreateUser(h: Hasher, userData: UserCreateModel, uid: string) returns (r: Result<User, AppError>)
      modifies this
      ensures GeneratePasswordHash(h, userData.password).Err? ==>
        r == Err(GeneratePasswordHash(h, userData.password).error) && users == old(users)
      ensures GeneratePasswordHash(h, userData.password).Ok? ==>
        r == Ok(NewUser(userData, uid, GeneratePasswordHash(h, userData.password).value)) &&
        users == old(users) + [r.value]
    {
      var hashed := GeneratePasswordHash(h, userData.password);
      if hashed.Err? {
        return Err(hashed.error);
      }
      var newUser := NewUser(userData, uid, hashed.value);
      users := users + [newUser];
      r := Ok(newUser);
    }
  }
}
