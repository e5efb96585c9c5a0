/**
 * The filter compiler shared by the list and summary endpoints: the optional
 * plate list and date bounds become a list of clauses that are ANDed.
 */
module FilterCompiler {
  import opened Wrappers
  import opened Domain

  /** One SQL condition on a row. */
  datatype Clause =
    | PlateIn(plates: seq<string>)
    | DateBetween(low: Date, high: Date)
    | DateFrom(low: Date)
    | DateUntil(high: Date)

  predicate Holds(k: Clause, r: Row)
  {
    match k
    case PlateIn(plates) => r.plateNumber in plates
    case DateBetween(low, high) => low <= r.date && r.date <= high
    case DateFrom(low) => low <= r.date
    case DateUntil(high) => r.date <= high
  }

  /** `query.filter(*filters)`: every clause holds (no clause, no restriction). */
  predicate AllHold(filters: seq<Clause>, r: Row)
  {
    forall i :: 0 <= i < |filters| ==> Holds(filters[i], r)
  }

  /** The plate restriction is active only for a present, non-empty plate list. */
  predicate PlateActive(c: Criteria) { c.plateNumber.Some? && c.plateNumber.value != [] }

  /**
   * What a criteria object asks for, condition by condition: a listed plate
   * when a plate list is given, a date no earlier than a given start and no
   * later than a given end.
   */
  predicate Matches(c: Criteria, r: Row)
    ensures c.startAt.Some? && c.endAt.Some? && c.endAt.value < c.startAt.value ==> !Matches(c, r)
  {
    && (PlateActive(c) ==> r.plateNumber in c.plateNumber.value)
    && (c.startAt.Some? ==> c.startAt.value <= r.date)
    && (c.endAt.Some? ==> r.date <= c.endAt.value)
  }

  /** Builds the clause list the way the routes do, one `append` per active condition. */
  method BuildFilters(c: Criteria) returns (filters: seq<Clause>)
    ensures forall r :: AllHold(filters, r) <==> Matches(c, r)
    ensures |filters| == (if PlateActive(c) then 1 else 0) + (if c.startAt.Some? || c.endAt.Some? then 1 else 0)
  {
    filters := [];
    if PlateActive(c) {
      filters := filters + [PlateIn(c.plateNumber.value)];
    }
    if c.startAt.Some? && c.endAt.Some? {
      filters := filters + [DateBetween(c.startAt.value, c.endAt.value)];
    } else if c.startAt.Some? {
      filters := filters + [DateFrom(c.startAt.value)];
    } else if c.endAt.Some? {
      filters := filters + [DateUntil(c.endAt.value)];
    }
    forall r ensures AllHold(filters, r) <==> Matches(c, r) {
      if PlateActive(c) {
        assert Holds(filters[0], r) <==> r.plateNumber in c.plateNumber.value;
      }
      if c.startAt.Some? || c.endAt.Some? {
        var last := filters[|filters| - 1];
        assert Holds(last, r) <==> Matches(c.(plateNumber := None), r);
      }
    }
  }

  /** Empty criteria (no plates, or an empty plate list, and no dates) match every row. */
  lemma EmptyCriteriaMatchAll(c: Criteria, r: Row)
    requires !PlateActive(c) && c.startAt.None? && c.endAt.None?
    ensures Matches(c, r)
  {
  }

  /** The rows of `table` that satisfy every clause, in table order (the SQL WHERE). */
  function SelectBy(table: seq<Row>, filters: seq<Clause>): (r: seq<Row>)
    ensures forall x :: multiset(r)[x] == if AllHold(filters, x) then multiset(table)[x] else 0
  {
    if table == [] then []
    else
      assert table == [table[0]] + table[1..];
      (if AllHold(filters, table[0]) then [table[0]] else []) + SelectBy(table[1..], filters)
  }

  /** The rows of `table` that match the criteria, in table order. */
  function Select(table: seq<Row>, c: Criteria): (r: seq<Row>)
    ensures forall x :: multiset(r)[x] == if Matches(c, x) then multiset(table)[x] else 0
    ensures forall i :: 0 <= i < |r| ==> Matches(c, r[i])
  {
    if table == [] then []
    else
      assert table == [table[0]] + table[1..];
      (if Matches(c, table[0]) then [table[0]] else []) + Select(table[1..], c)
  }

  /** Executing the compiled clause list selects exactly the rows the criteria describe. */
  lemma {:induction false} CompiledSelectsCriteria(table: seq<Row>, filters: seq<Clause>, c: Criteria)
    requires forall r :: AllHold(filters, r) <==> Matches(c, r)
    ensures SelectBy(table, filters) == Select(table, c)
  {
    if table != [] {
      CompiledSelectsCriteria(table[1..], filters, c);
    }
  }
}
