/**
  The credential service the core calls into. Its implementation (password
  hashing, signed tokens) is outside this model, so it is a value of four
  arbitrary total functions; every property proved here holds for whichever
  four functions the service provides.
*/
module Security {
  import opened Results

  /** A decoded token payload: claim name to claim value. */
  type Claims = map<string, string>

  datatype Credentials = Credentials(
    hashPassword: string -> string,
    verifyPassword: (string, string) -> bool,
    createAccessToken: Claims -> string,
    decodeAccessToken: string -> Option<Claims>)

  /** The claims of a token issued for `username`. */
  function SubjectClaims(username: string): Claims {
    map["sub" := username]
  }
}
