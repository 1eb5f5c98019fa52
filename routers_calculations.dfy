/**
  The calculation endpoints as an authenticated caller sees them. Every
  endpoint that names a record treats "absent" and "owned by someone else"
  alike, and an edit checks the merged operands for a zero divisor before
  anything is written.
*/
module CalculationsRouter {
  import opened Results
  import opened Schemas
  import opened CalculationFactory
  import opened CrudCalculations
  import opened CrudUsers

  /** The ownership guard: a record the caller may see, or `NotFound`. */
  function Owned(table: CalculationTable, caller: User, calcId: int): (r: Result<Calculation>)
    reads table
    ensures r.Ok? <==> calcId in table.calcs && table.calcs[calcId].userId == caller.id
    ensures r.Ok? ==> r.value == table.calcs[calcId]
    ensures r.Err? ==> r.error == NotFound
  {
    match table.GetCalculation(calcId)
    case None => Err(NotFound)
    case Some(record) => if record.userId != caller.id then Err(NotFound) else Ok(record)
  }

  /** GET /calculations/: the caller's records and no one else's. */
  function Browse(table: CalculationTable, caller: User): (r: map<int, Calculation>)
    reads table
    ensures forall id :: id in r ==> Owned(table, caller, id) == Ok(r[id])
    ensures forall id :: Owned(table, caller, id).Ok? ==> id in r
  {
    table.BrowseCalculations(caller.id)
  }

  /** GET /calculations/{id}. */
  function Read(table: CalculationTable, caller: User, calcId: int): (r: Result<Calculation>)
    reads table
    ensures r.Ok? <==> calcId in table.calcs && table.calcs[calcId].userId == caller.id
    ensures r.Ok? ==> r.value == table.calcs[calcId] && r.value in Browse(table, caller).Values
    ensures table.Valid() && r.Ok? ==> r.value.id == calcId && Consistent(r.value)
    ensures r.Err? ==> r.error == NotFound
  {
    Owned(table, caller, calcId)
  }

  /** A missing record and somebody else's record give the caller the same answer. */
  lemma NotFoundIndistinguishable(table: CalculationTable, caller: User, missing: int, foreign: int)
    requires missing !in table.calcs
    requires foreign in table.calcs && table.calcs[foreign].userId != caller.id
    ensures Read(table, caller, missing) == Read(table, caller, foreign) == Err(NotFound)
  {
  }

  /** POST /calculations/ with an already validated body: the record is the caller's. */
  method Add(table: CalculationTable, caller: User, calcIn: CalculationCreate) returns (record: Calculation)
    requires table.Valid() && calcIn.Valid()
    modifies table
    ensures table.Valid()
    ensures record.userId == caller.id
    ensures record.a == calcIn.a && record.b == calcIn.b && record.calcType == calcIn.calcType
    ensures record.result == Resolve(calcIn.calcType, calcIn.a, calcIn.b)
    ensures record.id !in old(table.calcs) && table.calcs == old(table.calcs)[record.id := record]
    ensures Read(table, caller, record.id) == Ok(record)
  {
    record := table.CreateCalculation(calcIn, caller.id);
  }

  /**
    POST /calculations/ from the raw body: the body is validated first, and
    an invalid body stores nothing.
  */
  method AddRequest(table: CalculationTable, caller: User, tag: string, a: real, b: real)
    returns (r: Result<Calculation>)
    requires table.Valid()
    modifies table
    ensures table.Valid()
    ensures r.Err? <==> ValidateCreate(tag, a, b).Err?
    ensures r.Err? ==> r.error == ValidateCreate(tag, a, b).error && table.calcs == old(table.calcs)
    ensures tag == "div" && b == 0.0 ==> r == Err(InvalidOperand)
    ensures r.Ok? ==> Value(r.value.calcType) == tag && r.value.a == a && r.value.b == b
    ensures r.Ok? ==> r.value.userId == caller.id && r.value.result == Resolve(r.value.calcType, a, b)
    ensures r.Ok? ==> r.value.id !in old(table.calcs) && table.calcs == old(table.calcs)[r.value.id := r.value]
  {
    match ValidateCreate(tag, a, b)
    case Err(e) =>
      r := Err(e);
    case Ok(calcIn) =>
      var record := Add(table, caller, calcIn);
      r := Ok(record);
  }

  /**
    PUT/PATCH /calculations/{id}: the ownership guard, then the zero-divisor
    guard on the merged tag and divisor, then the update.
  */
  method Edit(table: CalculationTable, caller: User, calcId: int, update: CalculationUpdate)
    returns (r: Result<Calculation>)
    requires table.Valid()
    modifies table
    ensures table.Valid()
    ensures old(Owned(table, caller, calcId)).Err? ==>
              r == Err(NotFound) && table.calcs == old(table.calcs)
    ensures old(Owned(table, caller, calcId)).Ok? && MergedDividesByZero(old(table.calcs[calcId]), update) ==>
              r == Err(InvalidOperand) && table.calcs == old(table.calcs)
    ensures old(Owned(table, caller, calcId)).Ok? && !MergedDividesByZero(old(table.calcs[calcId]), update) ==>
              && r == Ok(Updated(old(table.calcs[calcId]), update))
              && table.calcs == old(table.calcs)[calcId := r.value]
              && Read(table, caller, calcId) == r
    ensures r.Ok? ==> r.value.id == calcId && r.value.userId == caller.id && Consistent(r.value)
  {
    var record := table.GetCalculation(calcId);
    if record.None? || record.value.userId != caller.id {
      return Err(NotFound);
    }
    var newType := update.calcType.GetOr(record.value.calcType);
    var newB := update.b.GetOr(record.value.b);
    if newType == Div && newB == 0.0 {
      return Err(InvalidOperand);
    }
    var updated := table.UpdateCalculation(record.value, update);
    r := Ok(updated);
  }

  /** DELETE /calculations/{id}: the ownership guard, then removal. */
  method Delete(table: CalculationTable, caller: User, calcId: int) returns (r: Result<()>)
    requires table.Valid()
    modifies table
    ensures table.Valid()
    ensures r.Err? <==> old(Owned(table, caller, calcId)).Err?
    ensures r.Err? ==> r.error == NotFound && table.calcs == old(table.calcs)
    ensures r.Ok? ==> table.calcs == old(table.calcs) - {calcId}
    ensures Read(table, caller, calcId) == Err(NotFound)
  {
    var record := table.GetCalculation(calcId);
    if record.None? || record.value.userId != caller.id {
      return Err(NotFound);
    }
    table.DeleteCalculation(record.value);
    r := Ok(());
  }
}
