/**
  The flows of the service's own test suite, run against fresh tables. The
  credential service stays arbitrary; each flow names only the behaviour it
  needs from it (a password verifies against its own hash, a token decodes
  to the claims it was issued with).
*/
module Scenarios {
  import opened Results
  import opened Schemas
  import opened Security
  import opened CrudCalculations
  import opened CrudUsers
  import opened CalculationsRouter
  import opened UsersRouter
  import opened Dependencies

  /** What the flows need from the credential service for one account. */
  predicate HonestFor(cred: Credentials, username: string, password: string) {
    && cred.verifyPassword(password, cred.hashPassword(password))
    && cred.decodeAccessToken(cred.createAccessToken(SubjectClaims(username))) == Some(SubjectClaims(username))
  }

  /**
    Register an account whose username and email are free, log in and
    resolve the token: the caller is the new user, under a fresh id.
  */
  method SignUpAndSignIn(users: UserTable, cred: Credentials, userIn: UserCreate) returns (caller: User)
    requires users.Valid()
    requires forall u :: u in users.rows ==> u.username != userIn.username && u.email != userIn.email
    requires HonestFor(cred, userIn.username, userIn.password)
    modifies users
    ensures users.Valid() && users.rows == old(users.rows) + [caller]
    ensures caller.username == userIn.username && caller.email == userIn.email
    ensures forall u :: u in old(users.rows) ==> u.id != caller.id
  {
    var registered := Register(users, cred, userIn);
    assert registered.Ok?;
    var login := Login(users, cred, userIn.username, userIn.password);
    assert login.Ok?;
    LoginThenResolve(users, cred, userIn.username, userIn.password);
    var resolved := GetCurrentUser(users, cred, login.value.accessToken);
    caller := resolved.value;
  }

  /** Register "student", then try the same username and the same email again. */
  method DuplicateRegistrations(cred: Credentials)
    returns (caller: User, duplicateName: Result<UserRead>, duplicateEmail: Result<UserRead>)
    requires HonestFor(cred, "student", "Pass123!")
    ensures caller.username == "student" && caller.email == "student@example.com"
    ensures duplicateName == Err(DuplicateUsername)
    ensures duplicateEmail == Err(DuplicateEmail)
  {
    var users := new UserTable();
    caller := SignUpAndSignIn(users, cred, UserCreate("student", "student@example.com", "Pass123!"));
    duplicateName := Register(users, cred, UserCreate("student", "student2@example.com", "Pass123!"));
    assert caller in users.rows;
    duplicateEmail := Register(users, cred, UserCreate("student2", "student@example.com", "Pass123!"));
  }

  /** Add 2 + 3, browse, read, edit to 4 * 5, delete, and read again. */
  method BreadCycle(caller: User)
    returns (created: Result<Calculation>, listed: bool, read: Result<Calculation>, edited: Result<Calculation>,
             deleted: Result<()>, readAgain: Result<Calculation>)
    ensures created.Ok? && created.value.result == 5.0
    ensures listed
    ensures read == created
    ensures edited.Ok? && edited.value.calcType == Mul && edited.value.result == 20.0
    ensures deleted.Ok? && readAgain == Err(NotFound)
  {
    var calcs := new CalculationTable();
    created := AddRequest(calcs, caller, "add", 2.0, 3.0);
    var calcId := created.value.id;
    listed := calcId in Browse(calcs, caller);
    read := Read(calcs, caller, calcId);
    edited := Edit(calcs, caller, calcId, CalculationUpdate(Some(Mul), Some(4.0), Some(5.0)));
    assert Owned(calcs, caller, calcId).Ok?;
    deleted := Delete(calcs, caller, calcId);
    readAgain := Read(calcs, caller, calcId);
  }

  /** Register and sign in `u1` and `u2`: `u2` reads `u1`'s record as missing. */
  method OwnershipProtection(cred: Credentials) returns (foreignRead: Result<Calculation>, ownRead: Result<Calculation>)
    requires HonestFor(cred, "u1", "Pass123!") && HonestFor(cred, "u2", "Pass123!")
    ensures foreignRead == Err(NotFound)
    ensures ownRead.Ok? && ownRead.value.result == 2.0
  {
    var users := new UserTable();
    var u1 := SignUpAndSignIn(users, cred, UserCreate("u1", "u1@example.com", "Pass123!"));
    var u2 := SignUpAndSignIn(users, cred, UserCreate("u2", "u2@example.com", "Pass123!"));
    var calcs := new CalculationTable();
    var created := AddRequest(calcs, u1, "add", 1.0, 1.0);
    foreignRead := Read(calcs, u2, created.value.id);
    ownRead := Read(calcs, u1, created.value.id);
  }

  /** A token the service cannot decode is refused before any table is read. */
  method RejectsBadToken(cred: Credentials) returns (r: Result<User>)
    requires cred.decodeAccessToken("badtoken").None?
    ensures r == Err(InvalidToken)
  {
    var users := new UserTable();
    r := GetCurrentUser(users, cred, "badtoken");
  }

  /** The four factory paths through the create endpoint. */
  method FactoryPaths(caller: User) returns (sum: Result<Calculation>, difference: Result<Calculation>,
                                             product: Result<Calculation>, quotient: Result<Calculation>)
    ensures sum.Ok? && sum.value.result == 5.0
    ensures difference.Ok? && difference.value.result == 6.0
    ensures product.Ok? && product.value.result == 21.0
    ensures quotient.Ok? && quotient.value.result == 4.0
  {
    var calcs := new CalculationTable();
    sum := AddRequest(calcs, caller, "add", 2.0, 3.0);
    difference := AddRequest(calcs, caller, "sub", 10.0, 4.0);
    product := AddRequest(calcs, caller, "mul", 3.0, 7.0);
    quotient := AddRequest(calcs, caller, "div", 8.0, 2.0);
  }

  /**
    Division by zero is refused on create, and on an edit that only sets the
    tag and the divisor; the refused edit leaves the record as it was.
  */
  method DivideByZeroValidation(caller: User)
    returns (rejectedCreate: Result<Calculation>, created: Result<Calculation>,
             rejectedEdit: Result<Calculation>, after: Result<Calculation>)
    ensures rejectedCreate == Err(InvalidOperand)
    ensures created.Ok? && rejectedEdit == Err(InvalidOperand)
    ensures after == created
    ensures after.Ok? && after.value.calcType == Add && after.value.b == 5.0 && after.value.result == 15.0
  {
    var calcs := new CalculationTable();
    rejectedCreate := AddRequest(calcs, caller, "div", 10.0, 0.0);
    created := AddRequest(calcs, caller, "add", 10.0, 5.0);
    rejectedEdit := Edit(calcs, caller, created.value.id, CalculationUpdate(Some(Div), None, Some(0.0)));
    after := Read(calcs, caller, created.value.id);
  }
}
