/**
  Optional values and error-carrying results shared by the whole model.

  `Option` stands for Python's `Optional[...]` (a lookup that may give `None`,
  an update field that may be left unset). `Result` stands for a call that
  either returns a value or raises; `Error` names every failure the core
  raises, one constructor per distinct signal a caller can observe.
*/
module Results {

  datatype Option<T> = None | Some(value: T) {
    /** The wrapped value, or `default` when there is none. */
    function GetOr(default: T): T {
      if Some? then value else default
    }
  }

  /**
    The failures of the core. Each kind a handler raises is named after the
    detail it attaches; `InvalidType` is raised by the request schema itself.
  */
  datatype Error =
    | InvalidType         // the request schema refuses a tag outside the enum's values
    | InvalidOperand      // "b cannot be zero for division"
    | NotFound            // "Calculation not found": absent, or owned by someone else
    | DuplicateUsername   // "Username already registered"
    | DuplicateEmail      // "Email already registered"
    | InvalidCredentials  // "Incorrect username or password"
    | InvalidToken        // "Invalid token"
    | UserNotFound        // "User not found" (a valid token whose subject is unknown)

  datatype Result<T> = Ok(value: T) | Err(error: Error)
}
