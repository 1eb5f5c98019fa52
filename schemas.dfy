/**
  The request and response shapes of the service: the closed operation tag,
  the create payload with its zero-divisor validator, the partial update
  payload, and the exposed user shape.
*/
module Schemas {
  import opened Results

  /** The four operation tags; nothing else can be a `CalculationType`. */
  datatype CalculationType = Add | Sub | Mul | Div

  /** The string value of a tag, as sent by clients and kept in the `type` column. */
  function Value(t: CalculationType): string {
    match t
    case Add => "add"
    case Sub => "sub"
    case Mul => "mul"
    case Div => "div"
  }

  /** `CalculationType(s)`: the tag whose value is `s`, or `None` when there is none. */
  function Parse(s: string): (r: Option<CalculationType>)
    ensures r.Some? ==> Value(r.value) == s
    ensures r.None? ==> forall t :: Value(t) != s
  {
    if s == "add" then Some(Add)
    else if s == "sub" then Some(Sub)
    else if s == "mul" then Some(Mul)
    else if s == "div" then Some(Div)
    else None
  }

  /** Reading back a stored value gives the tag that was stored. */
  lemma ParseValue(t: CalculationType)
    ensures Parse(Value(t)) == Some(t)
  {
  }

  /** The validated body of a create request. */
  datatype CalculationCreate = CalculationCreate(calcType: CalculationType, a: real, b: real) {
    /** What the validator guarantees of every instance it lets through. */
    predicate Valid() {
      !(calcType == Div && b == 0.0)
    }
  }

  /**
    The field validator on `b`: `calcType` is the already-validated `type`
    field, absent when that field itself failed validation.
  */
  function NoZeroDivisor(calcType: Option<CalculationType>, v: real): (r: Result<real>)
    ensures r.Err? <==> calcType == Some(Div) && v == 0.0
    ensures r.Err? ==> r.error == InvalidOperand
    ensures r.Ok? ==> r.value == v
  {
    if calcType == Some(Div) && v == 0.0 then Err(InvalidOperand) else Ok(v)
  }

  /**
    Building a `CalculationCreate` from a request body: the tag must be one
    of the enum's values, then `b` goes through `NoZeroDivisor`.
  */
  function ValidateCreate(tag: string, a: real, b: real): (r: Result<CalculationCreate>)
    ensures r.Ok? <==> Parse(tag).Some? && !(tag == "div" && b == 0.0)
    ensures r.Ok? ==> Value(r.value.calcType) == tag && r.value.a == a && r.value.b == b
    ensures r.Ok? ==> r.value.Valid()
    ensures r.Err? ==> r.error == (if Parse(tag).None? then InvalidType else InvalidOperand)
  {
    var calcType := Parse(tag);
    match NoZeroDivisor(calcType, b)
    case Err(e) => Err(e)
    case Ok(v) =>
      if calcType.None? then Err(InvalidType) else Ok(CalculationCreate(calcType.value, a, v))
  }

  /** The body of an edit request: every field is optional. */
  datatype CalculationUpdate = CalculationUpdate(
    calcType: Option<CalculationType>,
    a: Option<real>,
    b: Option<real>)

  /** An edit request that sets nothing: each field's default is "unset". */
  const NoChanges: CalculationUpdate := CalculationUpdate(None, None, None)

  /** The body of a registration request. */
  datatype UserCreate = UserCreate(username: string, email: string, password: string)

  /** The user shape returned to callers: no password and no hash. */
  datatype UserRead = UserRead(id: int, username: string, email: string)

  /** The login response. */
  datatype Token = Token(accessToken: string, tokenType: string)

  /** A token response carrying `token`, with the default type "bearer". */
  function BearerToken(token: string): Token {
    Token(token, "bearer")
  }
}
