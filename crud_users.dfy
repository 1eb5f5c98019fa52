/**
  The user table: lookups by username and by email, creation that stores
  only the password's hash, and password authentication. The table is kept
  as its rows in insertion order, so a query's `.first()` is the earliest
  matching row.
*/
module CrudUsers {
  import opened Results
  import opened Schemas
  import opened Security

  /** A stored user. */
  datatype User = User(id: int, username: string, email: string, passwordHash: string) {
    /** The exposed shape of this user. */
    function Public(): UserRead {
      UserRead(id, username, email)
    }
  }

  /** Two users that differ at most in their password hash look the same to callers. */
  lemma PublicHidesHash(u: User, v: User)
    requires u.id == v.id && u.username == v.username && u.email == v.email
    ensures u.Public() == v.Public()
  {
  }

  /** A query's `.first()`: the earliest row satisfying `p`, if any. */
  function First<T>(rows: seq<T>, p: T -> bool): (r: Option<T>)
    ensures r.None? <==> forall k :: 0 <= k < |rows| ==> !p(rows[k])
    ensures r.Some? ==> exists k :: 0 <= k < |rows| && rows[k] == r.value && p(rows[k]) &&
                                    forall j :: 0 <= j < k ==> !p(rows[j])
  {
    if rows == [] then None
    else if p(rows[0]) then Some(rows[0])
    else
      var r := First(rows[1..], p);
      assert r.Some? ==> exists k :: 1 <= k < |rows| && rows[k] == r.value && p(rows[k]) &&
                                     forall j :: 0 <= j < k ==> !p(rows[j]) by {
        if r.Some? {
          var k :| 0 <= k < |rows[1..]| && rows[1..][k] == r.value && p(rows[1..][k]) &&
                   forall j :: 0 <= j < k ==> !p(rows[1..][j]);
          assert forall j :: 0 <= j < k + 1 ==> !p(rows[j]) by {
            forall j | 0 <= j < k + 1 ensures !p(rows[j]) {
              if j > 0 { assert rows[j] == rows[1..][j - 1]; }
            }
          }
        }
      }
      r
  }

  /** Appending a row changes `.first()` only when no earlier row matched. */
  lemma {:induction false} FirstAppend<T>(rows: seq<T>, x: T, p: T -> bool)
    ensures First(rows + [x], p) == if First(rows, p).Some? then First(rows, p)
                                     else if p(x) then Some(x) else None
  {
    if rows == [] {
      assert rows + [x] == [x];
    } else {
      assert (rows + [x])[1..] == rows[1..] + [x];
      FirstAppend(rows[1..], x, p);
    }
  }

  /** No two rows share a username, and no two share an email. */
  predicate UniqueAccounts(rows: seq<User>) {
    forall i, j :: 0 <= i < |rows| && 0 <= j < |rows| && i != j ==>
      rows[i].username != rows[j].username && rows[i].email != rows[j].email
  }

  class UserTable {
    var rows: seq<User>
    var nextId: int

    /** Every stored id lies below the counter, so the counter is always fresh. */
    ghost predicate Valid()
      reads this
    {
      forall k :: 0 <= k < |rows| ==> rows[k].id < nextId
    }

    constructor ()
      ensures Valid() && rows == []
    {
      rows := [];
      nextId := 1;
    }

    /** `get_user_by_username`. */
    function GetUserByUsername(username: string): (r: Option<User>)
      reads this
      ensures r.Some? ==> r.value in rows && r.value.username == username
      ensures r.None? <==> forall u :: u in rows ==> u.username != username
    {
      First(rows, (u: User) => u.username == username)
    }

    /** `get_user_by_email`. */
    function GetUserByEmail(email: string): (r: Option<User>)
      reads this
      ensures r.Some? ==> r.value in rows && r.value.email == email
      ensures r.None? <==> forall u :: u in rows ==> u.email != email
    {
      First(rows, (u: User) => u.email == email)
    }

    /**
      `authenticate_user`: the user found by username, provided the password
      verifies against that user's stored hash.
    */
    function AuthenticateUser(cred: Credentials, username: string, password: string): (r: Option<User>)
      reads this
      ensures r.Some? ==> r.value in rows && r.value.username == username &&
                          cred.verifyPassword(password, r.value.passwordHash)
      ensures r.Some? ==> r == GetUserByUsername(username)
      ensures (forall u :: u in rows ==> u.username != username) ==> r.None?
      ensures r.None? && GetUserByUsername(username).Some? ==>
                !cred.verifyPassword(password, GetUserByUsername(username).value.passwordHash)
    {
      match GetUserByUsername(username)
      case None => None
      case Some(user) =>
        if !cred.verifyPassword(password, user.passwordHash) then None else Some(user)
    }

    /**
      `create_user`: append one user with a fresh id, the given username and
      email, and the hash of the password in place of the password.
    */
    method CreateUser(cred: Credentials, userIn: UserCreate) returns (user: User)
      requires Valid()
      modifies this
      ensures Valid()
      ensures user.username == userIn.username && user.email == userIn.email
      ensures user.passwordHash == cred.hashPassword(userIn.password)
      ensures forall u :: u in old(rows) ==> u.id != user.id
      ensures rows == old(rows) + [user]
      ensures GetUserByUsername(user.username).Some?
      ensures old(GetUserByUsername(user.username)).None? ==> GetUserByUsername(user.username) == Some(user)
      ensures old(GetUserByEmail(user.email)).None? ==> GetUserByEmail(user.email) == Some(user)
    {
      user := User(nextId, userIn.username, userIn.email, cred.hashPassword(userIn.password));
      FirstAppend(rows, user, (u: User) => u.username == user.username);
      FirstAppend(rows, user, (u: User) => u.email == user.email);
      rows := rows + [user];
      nextId := nextId + 1;
    }
  }

  /**
    When usernames are unique, authentication succeeds exactly when some
    stored user has that username and a hash the password verifies against,
    and it returns that user.
  */
  lemma AuthenticateUnique(t: UserTable, cred: Credentials, username: string, password: string, u: User)
    requires UniqueAccounts(t.rows)
    requires u in t.rows && u.username == username
    ensures t.AuthenticateUser(cred, username, password) ==
              if cred.verifyPassword(password, u.passwordHash) then Some(u) else None
  {
  }
}
