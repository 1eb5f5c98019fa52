/**
  The registration and login endpoints. Registration checks the username
  before the email and stores nothing when either is taken; login reports a
  single error for every failure and issues a token whose subject is the
  username.
*/
module UsersRouter {
  import opened Results
  import opened Schemas
  import opened Security
  import opened CrudUsers

  /** POST /users/register. */
  method Register(users: UserTable, cred: Credentials, userIn: UserCreate) returns (r: Result<UserRead>)
    requires users.Valid()
    modifies users
    ensures users.Valid()
    ensures (exists u :: u in old(users.rows) && u.username == userIn.username) ==>
              r == Err(DuplicateUsername) && users.rows == old(users.rows)
    ensures (forall u :: u in old(users.rows) ==> u.username != userIn.username) &&
            (exists u :: u in old(users.rows) && u.email == userIn.email) ==>
              r == Err(DuplicateEmail) && users.rows == old(users.rows)
    ensures (forall u :: u in old(users.rows) ==> u.username != userIn.username && u.email != userIn.email) ==>
              exists user: User ::
                && users.rows == old(users.rows) + [user]
                && (forall u :: u in old(users.rows) ==> u.id != user.id)
                && user.username == userIn.username && user.email == userIn.email
                && user.passwordHash == cred.hashPassword(userIn.password)
                && r == Ok(user.Public())
    ensures r.Err? ==> users.rows == old(users.rows)
    ensures UniqueAccounts(old(users.rows)) ==> UniqueAccounts(users.rows)
  {
    if users.GetUserByUsername(userIn.username).Some? {
      return Err(DuplicateUsername);
    }
    if users.GetUserByEmail(userIn.email).Some? {
      return Err(DuplicateEmail);
    }
    ghost var before := users.rows;
    var user := users.CreateUser(cred, userIn);
    r := Ok(user.Public());
    if UniqueAccounts(before) {
      forall i, j | 0 <= i < |users.rows| && 0 <= j < |users.rows| && i != j
        ensures users.rows[i].username != users.rows[j].username
        ensures users.rows[i].email != users.rows[j].email
      {
        if i < |before| && j < |before| {
        } else if i < |before| {
          assert users.rows[i] in before;
        } else {
          assert users.rows[j] in before;
        }
      }
    }
  }

  /** POST /users/login. */
  function Login(users: UserTable, cred: Credentials, username: string, password: string): (r: Result<Token>)
    reads users
    ensures r.Ok? <==> users.AuthenticateUser(cred, username, password).Some?
    ensures r.Err? ==> r.error == InvalidCredentials
    ensures r.Ok? ==> r.value == BearerToken(cred.createAccessToken(SubjectClaims(username)))
  {
    match users.AuthenticateUser(cred, username, password)
    case None => Err(InvalidCredentials)
    case Some(user) => Ok(BearerToken(cred.createAccessToken(SubjectClaims(user.username))))
  }

  /**
    An unknown username and a wrong password for a known one are
    indistinguishable to the caller.
  */
  lemma LoginFailureIndistinguishable(users: UserTable, cred: Credentials,
                                      unknown: string, known: string, wrong: string)
    requires forall u :: u in users.rows ==> u.username != unknown
    requires users.GetUserByUsername(known).Some?
    requires !cred.verifyPassword(wrong, users.GetUserByUsername(known).value.passwordHash)
    ensures Login(users, cred, unknown, wrong) == Login(users, cred, known, wrong) == Err(InvalidCredentials)
  {
  }
}
