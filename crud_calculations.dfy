/**
  The calculation table and its create, read, update and delete operations.
  The table maps each record's id to the record; ids are handed out by a
  counter that stays above every id issued so far.
*/
module CrudCalculations {
  import opened Results
  import opened Schemas
  import opened CalculationFactory

  /** A stored calculation: all six columns, which is also the exposed shape. */
  datatype Calculation = Calculation(
    id: int,
    a: real,
    b: real,
    calcType: CalculationType,
    result: real,
    userId: int)

  /** What every stored record satisfies: no zero divisor, and a result that is not stale. */
  predicate Consistent(c: Calculation) {
    (c.calcType == Div ==> c.b != 0.0) && c.result == Resolve(c.calcType, c.a, c.b)
  }

  /** Whether applying `update` to `record` would divide by zero. */
  predicate MergedDividesByZero(record: Calculation, update: CalculationUpdate) {
    update.calcType.GetOr(record.calcType) == Div && update.b.GetOr(record.b) == 0.0
  }

  /**
    The record `update_calculation` leaves behind: every provided field
    overwrites the stored one, then the result is recomputed.
  */
  function Updated(record: Calculation, update: CalculationUpdate): (r: Calculation)
    requires !MergedDividesByZero(record, update)
    ensures r.id == record.id && r.userId == record.userId
    ensures r.a == (if update.a.Some? then update.a.value else record.a)
    ensures r.b == (if update.b.Some? then update.b.value else record.b)
    ensures r.calcType == (if update.calcType.Some? then update.calcType.value else record.calcType)
    ensures Consistent(r)
  {
    var merged := record.(a := update.a.GetOr(record.a), b := update.b.GetOr(record.b),
                        calcType := update.calcType.GetOr(record.calcType));
    merged.(result := Resolve(merged.calcType, merged.a, merged.b))
  }

  /** An update that sets nothing leaves a consistent record exactly as it was. */
  lemma UpdatedNoChanges(record: Calculation)
    requires Consistent(record)
    ensures Updated(record, NoChanges) == record
  {
  }

  /** Updating twice with the same fields is the same as updating once. */
  lemma UpdatedIdempotent(record: Calculation, update: CalculationUpdate)
    requires !MergedDividesByZero(record, update)
    ensures !MergedDividesByZero(Updated(record, update), update)
    ensures Updated(Updated(record, update), update) == Updated(record, update)
  {
  }

  class CalculationTable {
    var calcs: map<int, Calculation>
    var nextId: int

    /** Each record sits under its own id, below the counter, and is consistent. */
    ghost predicate Valid()
      reads this
    {
      forall id :: id in calcs ==> calcs[id].id == id && id < nextId && Consistent(calcs[id])
    }

    constructor ()
      ensures Valid() && calcs == map[]
    {
      calcs := map[];
      nextId := 1;
    }

    /** `browse_calculations`: the records of one user, keyed by id. */
    function BrowseCalculations(userId: int): (r: map<int, Calculation>)
      reads this
      ensures forall id :: id in r ==> id in calcs && r[id] == calcs[id] && r[id].userId == userId
      ensures forall id :: id in calcs && calcs[id].userId == userId ==> id in r
    {
      map id | id in calcs && calcs[id].userId == userId :: calcs[id]
    }

    /** `get_calculation`: the record with that id, if there is one. */
    function GetCalculation(calcId: int): (r: Option<Calculation>)
      reads this
      ensures r.None? <==> calcId !in calcs
      ensures r.Some? ==> r.value == calcs[calcId]
      ensures Valid() && r.Some? ==> r.value.id == calcId && Consistent(r.value)
    {
      if calcId in calcs then Some(calcs[calcId]) else None
    }

    /** `create_calculation`: store one fresh record computed from a validated request. */
    method CreateCalculation(calcIn: CalculationCreate, userId: int) returns (record: Calculation)
      requires Valid() && calcIn.Valid()
      modifies this
      ensures Valid()
      ensures record.a == calcIn.a && record.b == calcIn.b && record.calcType == calcIn.calcType
      ensures record.userId == userId
      ensures record.result == Resolve(calcIn.calcType, calcIn.a, calcIn.b)
      ensures record.id !in old(calcs) && calcs == old(calcs)[record.id := record]
      ensures GetCalculation(record.id) == Some(record)
      ensures BrowseCalculations(userId) == old(BrowseCalculations(userId))[record.id := record]
      ensures forall other :: other != userId ==> BrowseCalculations(other) == old(BrowseCalculations(other))
    {
      var op := GetOperation(calcIn.calcType, calcIn.a, calcIn.b);
      record := Calculation(nextId, calcIn.a, calcIn.b, calcIn.calcType, op.Compute(), userId);
      calcs := calcs[record.id := record];
      nextId := nextId + 1;
    }

    /**
      `update_calculation`: overwrite the provided fields of a stored record
      one by one, recompute its result and store it back.
    */
    method UpdateCalculation(record: Calculation, update: CalculationUpdate) returns (r: Calculation)
      requires Valid() && GetCalculation(record.id) == Some(record)
      requires !MergedDividesByZero(record, update)
      modifies this
      ensures Valid() && nextId == old(nextId)
      ensures r == Updated(record, update)
      ensures calcs == old(calcs)[record.id := r]
      ensures update == NoChanges ==> r == record && calcs == old(calcs)
    {
      var c := record;
      if update.a.Some? {
        c := c.(a := update.a.value);
      }
      if update.b.Some? {
        c := c.(b := update.b.value);
      }
      if update.calcType.Some? {
        c := c.(calcType := update.calcType.value);
      }
      var op := GetOperation(c.calcType, c.a, c.b);
      c := c.(result := op.Compute());
      calcs := calcs[c.id := c];
      r := c;
      if update == NoChanges {
        UpdatedNoChanges(record);
      }
    }

    /** `delete_calculation`: remove exactly that record. */
    method DeleteCalculation(record: Calculation)
      requires Valid() && GetCalculation(record.id) == Some(record)
      modifies this
      ensures Valid() && nextId == old(nextId)
      ensures calcs == old(calcs) - {record.id}
      ensures GetCalculation(record.id) == None
      ensures forall id :: id != record.id ==> GetCalculation(id) == old(GetCalculation(id))
    {
      calcs := calcs - {record.id};
    }
  }
}
