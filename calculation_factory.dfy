/**
  The operation resolver: one operation per tag, each holding only its two
  operands, and a dispatch from tag to operation.
*/
module CalculationFactory {
  import opened Schemas

  /** An operation object; a `compute` without side effects reads only `a` and `b`. */
  datatype Operation =
    | AddOperation(a: real, b: real)
    | SubOperation(a: real, b: real)
    | MulOperation(a: real, b: real)
    | DivOperation(a: real, b: real)
  {
    /** Division is the only operation with a demand on its operands. */
    predicate Computable() {
      DivOperation? ==> b != 0.0
    }

    function Compute(): real
      requires Computable()
    {
      match this
      case AddOperation(a, b) => a + b
      case SubOperation(a, b) => a - b
      case MulOperation(a, b) => a * b
      case DivOperation(a, b) => a / b
    }
  }

  /**
    `get_operation`: the operation for a tag. The enum is closed, so the
    "Unsupported type" branch of the source has no counterpart here.
  */
  function GetOperation(calcType: CalculationType, a: real, b: real): (op: Operation)
    ensures op.a == a && op.b == b
    ensures op.AddOperation? <==> calcType == Add
    ensures op.SubOperation? <==> calcType == Sub
    ensures op.MulOperation? <==> calcType == Mul
    ensures op.DivOperation? <==> calcType == Div
  {
    match calcType
    case Add => AddOperation(a, b)
    case Sub => SubOperation(a, b)
    case Mul => MulOperation(a, b)
    case Div => DivOperation(a, b)
  }

  /**
    `get_operation(calcType, a, b).compute()`. Callers guard division by
    zero before they get here, so that guard is this function's precondition.
  */
  function Resolve(calcType: CalculationType, a: real, b: real): (r: real)
    requires calcType == Div ==> b != 0.0
    ensures calcType == Add ==> r == a + b
    ensures calcType == Sub ==> r == a - b
    ensures calcType == Mul ==> r == a * b
    ensures calcType == Div ==> r == a / b
  {
    GetOperation(calcType, a, b).Compute()
  }

  /** The factory results the test suite checks. */
  lemma FactoryExamples()
    ensures Resolve(Add, 2.0, 3.0) == 5.0
    ensures Resolve(Sub, 10.0, 4.0) == 6.0
    ensures Resolve(Mul, 3.0, 7.0) == 21.0
    ensures Resolve(Div, 8.0, 2.0) == 4.0
  {
  }
}
