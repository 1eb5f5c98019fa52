/**
  Resolving a bearer token to the user it was issued for. The lookup only
  reads the user table.
*/
module Dependencies {
  import opened Results
  import opened Security
  import opened CrudUsers
  import UsersRouter

  /**
    `get_current_user`: decode the token, take its "sub" claim, and look the
    subject up by username. A payload that is missing, or that has no "sub"
    claim (an empty payload has none), is an invalid token.
  */
  function GetCurrentUser(users: UserTable, cred: Credentials, token: string): (r: Result<User>)
    reads users
    ensures cred.decodeAccessToken(token).None? ==> r == Err(InvalidToken)
    ensures cred.decodeAccessToken(token).Some? && "sub" !in cred.decodeAccessToken(token).value ==>
              r == Err(InvalidToken)
    ensures r == Err(UserNotFound) <==>
              && cred.decodeAccessToken(token).Some?
              && "sub" in cred.decodeAccessToken(token).value
              && forall u :: u in users.rows ==> u.username != cred.decodeAccessToken(token).value["sub"]
    ensures r.Ok? <==> && cred.decodeAccessToken(token).Some?
                       && "sub" in cred.decodeAccessToken(token).value
                       && exists u :: u in users.rows && u.username == cred.decodeAccessToken(token).value["sub"]
    ensures r.Ok? ==> && cred.decodeAccessToken(token).Some?
                      && "sub" in cred.decodeAccessToken(token).value
                      && r.value in users.rows
                      && r.value.username == cred.decodeAccessToken(token).value["sub"]
  {
    match cred.decodeAccessToken(token)
    case None => Err(InvalidToken)
    case Some(payload) =>
      if "sub" !in payload then Err(InvalidToken)
      else
        match users.GetUserByUsername(payload["sub"])
        case None => Err(UserNotFound)
        case Some(user) => Ok(user)
  }

  /**
    A token from a successful login resolves back to the user who logged in,
    whenever decoding returns the claims the token was issued with.
  */
  lemma LoginThenResolve(users: UserTable, cred: Credentials, username: string, password: string)
    requires UsersRouter.Login(users, cred, username, password).Ok?
    requires cred.decodeAccessToken(cred.createAccessToken(SubjectClaims(username))) ==
             Some(SubjectClaims(username))
    ensures GetCurrentUser(users, cred, UsersRouter.Login(users, cred, username, password).value.accessToken) ==
            Ok(users.AuthenticateUser(cred, username, password).value)
  {
  }
}
