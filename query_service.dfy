/**
 * The read-side endpoints over a snapshot of the `drivingdistance` table:
 * the two list endpoints, the per-plate distance summary and the distinct
 * plate numbers.
 */
module QueryService {
  import opened Wrappers
  import opened BangkokTime
  import opened Domain
  import opened Ordering
  import opened FilterCompiler

  const NoMatchingRecords: string := "No matching records found"
  const NoSummaryRecords: string := "No records found for summary"
  /** The 404 raised inside the distinct-plates `try`, as the catch-all re-raises it. */
  const NoPlateNumbers: string := "Error retrieving plate numbers: 404: No plate numbers found"
  const NegativeLimit: string := "LIMIT must not be negative"
  /** `DrivingDistanceOut.distance` is a required float, so a null distance fails the response schema. */
  const NullDistance: string := "distance: Input should be a valid number"

  /** `LIMIT n`. */
  function Take<T>(s: seq<T>, n: nat): seq<T> { s[..Min(n, |s|)] }

  // ---------------------------------------------------------------- listing

  /** A non-null `created_at` re-stamped UTC and shifted to +7; a null one left alone. */
  function StampRow(r: Row): (s: Row)
    ensures s.(createdAt := r.createdAt) == r
    ensures r.createdAt.None? ==> s == r
    ensures r.createdAt.Some? ==>
      && s.createdAt.Some?
      && s.createdAt.value.offset == Some(BangkokOffset)
      && Instant(s.createdAt.value) == r.createdAt.value.wall
  {
    match r.createdAt
    case Some(t) => r.(createdAt := Some(RouteToBangkok(t)))
    case None => r
  }

  function StampAll(rs: seq<Row>): (r: seq<Row>)
    ensures |r| == |rs|
    ensures forall i :: 0 <= i < |rs| ==> r[i].(createdAt := rs[i].createdAt) == rs[i]
    ensures forall i :: 0 <= i < |rs| ==> rs[i].createdAt.None? ==> r[i].createdAt.None?
    ensures forall i :: 0 <= i < |rs| && rs[i].createdAt.Some? ==>
      && r[i].createdAt.Some?
      && r[i].createdAt.value.offset == Some(BangkokOffset)
      && Instant(r[i].createdAt.value) == rs[i].createdAt.value.wall
  {
    seq(|rs|, i requires 0 <= i < |rs| => StampRow(rs[i]))
  }

  /** The loop both list endpoints run over the fetched records before returning them. */
  method ConvertCreatedAt(records: seq<Row>) returns (out: seq<Row>)
    ensures out == StampAll(records)
  {
    out := records;
    var i := 0;
    while i < |out|
      invariant 0 <= i <= |out| == |records|
      invariant forall k :: 0 <= k < i ==> out[k] == StampRow(records[k])
      invariant forall k :: i <= k < |out| ==> out[k] == records[k]
    {
      if out[i].createdAt.Some? {
        out := out[i := out[i].(createdAt := Some(RouteToBangkok(out[i].createdAt.value)))];
      }
      i := i + 1;
    }
  }

  /**
   * What the list endpoints answer: the matching rows in ascending date
   * order, cut to `limit`, with `created_at` converted; no row is a 404 and a
   * negative limit is refused by the store.
   */
  function ListResult(table: seq<Row>, c: Criteria): Result<seq<Row>, Error>
  {
    if c.limit < 0 then Err(StoreFailure(NegativeLimit))
    else
      var rows := Take(SortByDate(Select(table, c)), c.limit);
      if rows == [] then Err(NotFound(NoMatchingRecords)) else Ok(StampAll(rows))
  }

  /**
   * What a list endpoint's client receives: the route's answer checked
   * against `List[DrivingDistanceOut]`.  An error passes through; a row
   * without a distance makes the whole answer a 500.
   */
  function ListResponse(table: seq<Row>, c: Criteria): (r: Result<seq<Row>, Error>)
    ensures ListResult(table, c).Err? ==> r == ListResult(table, c)
    ensures r.Ok? <==> ListResult(table, c).Ok? && forall x :: x in ListResult(table, c).value ==> x.distance.Some?
    ensures r.Ok? ==> r == ListResult(table, c)
    ensures r.Err? && ListResult(table, c).Ok? ==> r == Err(InvalidResponse(NullDistance))
  {
    match ListResult(table, c)
    case Err(e) => Err(e)
    case Ok(rs) => if forall x :: x in rs ==> x.distance.Some? then Ok(rs) else Err(InvalidResponse(NullDistance))
  }

  /** `POST /filter`. */
  method FilterDrivingDistance(table: seq<Row>, payload: Criteria) returns (r: Result<seq<Row>, Error>)
    ensures r == ListResult(table, payload)
  {
    var filters := BuildFilters(payload);
    if payload.limit < 0 {
      return Err(StoreFailure(NegativeLimit));
    }
    CompiledSelectsCriteria(table, filters, payload);
    var records := Take(SortByDate(SelectBy(table, filters)), payload.limit);
    if records == [] {
      return Err(NotFound(NoMatchingRecords));
    }
    records := ConvertCreatedAt(records);
    return Ok(records);
  }

  /** `GET /`: the same query with the criteria taken from query parameters. */
  method GetDrivingDistanceRecords(table: seq<Row>, plateNumber: Option<seq<string>>,
                                   startAt: Option<Date>, endAt: Option<Date>, limit: int)
    returns (r: Result<seq<Row>, Error>)
    ensures r == ListResult(table, Criteria(plateNumber, startAt, endAt, limit))
  {
    r := FilterDrivingDistance(table, Criteria(plateNumber, startAt, endAt, limit));
  }

  lemma StampRowKeepsMatch(c: Criteria, x: Row)
    ensures Matches(c, StampRow(x)) == Matches(c, x) && StampRow(x).date == x.date
  {
  }

  /** Sorting the selection keeps exactly the matching rows, now in date order. */
  lemma SortedSelection(table: seq<Row>, c: Criteria)
    ensures |SortByDate(Select(table, c))| == |Select(table, c)|
    ensures SortedByDate(SortByDate(Select(table, c)))
    ensures forall x :: x in SortByDate(Select(table, c)) <==> x in table && Matches(c, x)
  {
    var sel := Select(table, c);
    SortByDateCorrect(sel);
    assert |multiset(SortByDate(sel))| == |multiset(sel)|;
    forall x ensures x in SortByDate(sel) <==> x in table && Matches(c, x) {
      assert x in SortByDate(sel) <==> x in multiset(SortByDate(sel));
      assert x in sel <==> x in multiset(sel);
      assert x in table <==> x in multiset(table);
    }
  }

  /** A 404 exactly when the limit is zero or nothing matches; a negative limit is a store failure. */
  lemma ListResultErrors(table: seq<Row>, c: Criteria)
    ensures c.limit < 0 ==> ListResult(table, c) == Err(StoreFailure(NegativeLimit))
    ensures c.limit >= 0 ==>
      (ListResult(table, c) == Err(NotFound(NoMatchingRecords)) <==>
        c.limit == 0 || forall x :: x in table ==> !Matches(c, x))
    ensures c.limit >= 0 && ListResult(table, c).Err? ==> ListResult(table, c) == Err(NotFound(NoMatchingRecords))
  {
    SortedSelection(table, c);
    var sorted := SortByDate(Select(table, c));
    if c.limit > 0 && sorted != [] {
      assert Take(sorted, c.limit) != [];
      assert sorted[0] in sorted;
    }
  }

  /**
   * The list answer holds only matching rows (with `created_at` converted),
   * in ascending date order, as many as the limit allows, each taken at most
   * as often as it is stored; and no matching row dated earlier than a
   * returned one is left out.
   */
  lemma ListResultSound(table: seq<Row>, c: Criteria)
    requires ListResult(table, c).Ok?
    ensures var rs := ListResult(table, c).value;
      && |rs| == Min(c.limit, |Select(table, c)|)
      && SortedByDate(rs)
      && (forall i :: 0 <= i < |rs| ==> exists x :: x in table && Matches(c, x) && rs[i] == StampRow(x))
      && (exists pre :: rs == StampAll(pre) && multiset(pre) <= multiset(Select(table, c)))
      && forall i, x :: 0 <= i < |rs| && x in table && Matches(c, x) && x.date < rs[i].date ==> StampRow(x) in rs
  {
    ListResultOrdered(table, c);
    ListResultWithin(table, c);
    ListResultEarliest(table, c);
  }

  lemma ListResultOrdered(table: seq<Row>, c: Criteria)
    requires ListResult(table, c).Ok?
    ensures var rs := ListResult(table, c).value;
      && |rs| == Min(c.limit, |Select(table, c)|)
      && SortedByDate(rs)
      && forall i :: 0 <= i < |rs| ==> exists x :: x in table && Matches(c, x) && rs[i] == StampRow(x)
  {
    SortedSelection(table, c);
    var sorted := SortByDate(Select(table, c));
    var rows := Take(sorted, c.limit);
    var rs := StampAll(rows);
    forall i | 0 <= i < |rs| ensures exists x :: x in table && Matches(c, x) && rs[i] == StampRow(x) {
      assert rows[i] == sorted[i] && sorted[i] in sorted;
    }
    forall i, j | 0 <= i < j < |rs| ensures rs[i].date <= rs[j].date {
      assert rs[i].date == sorted[i].date && rs[j].date == sorted[j].date;
    }
  }

  /** The answer converts a part of the selection, no row more often than it is selected. */
  lemma ListResultWithin(table: seq<Row>, c: Criteria)
    requires ListResult(table, c).Ok?
    ensures exists pre :: ListResult(table, c).value == StampAll(pre) && multiset(pre) <= multiset(Select(table, c))
  {
    var sel := Select(table, c);
    var sorted := SortByDate(sel);
    var rows := Take(sorted, c.limit);
    SortByDateCorrect(sel);
    TakeWithin(sorted, c.limit);
    assert ListResult(table, c).value == StampAll(rows);
  }

  /** A `LIMIT` keeps at most what it cuts from. */
  lemma TakeWithin<T>(s: seq<T>, n: nat)
    ensures multiset(Take(s, n)) <= multiset(s)
  {
    assert s == Take(s, n) + s[Min(n, |s|)..];
  }

  /** A limit keeps the earliest matching rows: none dated before a returned row is cut. */
  lemma ListResultEarliest(table: seq<Row>, c: Criteria)
    requires ListResult(table, c).Ok?
    ensures var rs := ListResult(table, c).value;
      forall i, x :: 0 <= i < |rs| && x in table && Matches(c, x) && x.date < rs[i].date ==> StampRow(x) in rs
  {
    SortedSelection(table, c);
    var sorted := SortByDate(Select(table, c));
    var rows := Take(sorted, c.limit);
    var rs := StampAll(rows);
    forall i, x | 0 <= i < |rs| && x in table && Matches(c, x) && x.date < rs[i].date ensures StampRow(x) in rs {
      var k :| 0 <= k < |sorted| && sorted[k] == x;
      assert rs[i].date == sorted[i].date;
      EarlierIsBefore(sorted, i, k);
      assert rs[k] == StampRow(x);
    }
  }

  /** In a date-sorted list a row dated strictly earlier than row `i` sits before it. */
  lemma EarlierIsBefore(s: seq<Row>, i: nat, k: nat)
    requires SortedByDate(s) && i < |s| && k < |s| && s[k].date < s[i].date
    ensures k < i
  {
  }

  /** When the limit does not cut, the list answer holds every matching row. */
  /**
   * On a table without null distances the response schema refuses nothing:
   * the client receives exactly the route's answer.
   */
  lemma ListResponseWithoutNulls(table: seq<Row>, c: Criteria)
    requires forall x :: x in table ==> x.distance.Some?
    ensures ListResponse(table, c) == ListResult(table, c)
  {
    if ListResult(table, c).Ok? {
      var rs := ListResult(table, c).value;
      ListResultOrdered(table, c);
      forall y | y in rs ensures y.distance.Some? {
        var i :| 0 <= i < |rs| && rs[i] == y;
        var x :| x in table && Matches(c, x) && rs[i] == StampRow(x);
        assert StampRow(x).distance == x.distance;
      }
    }
  }

  /**
   * A matching row with a null distance that the limit keeps turns the list
   * answer into a 500, although the route itself returns the row.
   */
  lemma NullDistanceExample()
    ensures var row := Row(1, "A1", "T1", "V", 5, None, None);
      var c := Criteria(None, None, None, DefaultLimit);
      && ListResult([row], c) == Ok([row])
      && ListResponse([row], c) == Err(InvalidResponse(NullDistance))
  {
    var row := Row(1, "A1", "T1", "V", 5, None, None);
    var c := Criteria(None, None, None, DefaultLimit);
    assert Select([row], c) == [row];
    assert SortByDate([row]) == [row];
    assert Take([row], c.limit) == [row];
    assert StampAll([row]) == [row];
  }

  lemma ListResultComplete(table: seq<Row>, c: Criteria)
    requires ListResult(table, c).Ok? && c.limit >= |Select(table, c)|
    ensures forall x :: x in table && Matches(c, x) ==> StampRow(x) in ListResult(table, c).value
  {
    SortedSelection(table, c);
    var sorted := SortByDate(Select(table, c));
    var rs := ListResult(table, c).value;
    assert Take(sorted, c.limit) == sorted;
    forall x | x in table && Matches(c, x) ensures StampRow(x) in rs {
      var k :| 0 <= k < |sorted| && sorted[k] == x;
      assert rs[k] == StampRow(x);
    }
  }

  /** The worked example: plate A1 between 2025-06-01 and 2025-06-15 (days 20240 to 20254). */
  lemma FilterExample()
    ensures
      var a1early := Row(1, "A1", "T1", "V", 20244, Some(1000), None);
      var a1late := Row(2, "A1", "T1", "V", 20259, Some(500), None);
      var b2 := Row(3, "B2", "T2", "V", 20244, Some(700), None);
      ListResult([a1early, a1late, b2], Criteria(Some(["A1"]), Some(20240), Some(20254), DefaultLimit))
        == Ok([a1early])
  {
    var a1early := Row(1, "A1", "T1", "V", 20244, Some(1000), None);
    FilterExampleSelects();
    assert SortByDate([a1early]) == [a1early];
    assert Take([a1early], DefaultLimit) == [a1early];
    assert StampAll([a1early]) == [a1early];
  }

  /** The WHERE of the worked example keeps only the in-range A1 row. */
  lemma FilterExampleSelects()
    ensures
      var a1early := Row(1, "A1", "T1", "V", 20244, Some(1000), None);
      var a1late := Row(2, "A1", "T1", "V", 20259, Some(500), None);
      var b2 := Row(3, "B2", "T2", "V", 20244, Some(700), None);
      Select([a1early, a1late, b2], Criteria(Some(["A1"]), Some(20240), Some(20254), DefaultLimit)) == [a1early]
  {
    var a1early := Row(1, "A1", "T1", "V", 20244, Some(1000), None);
    var a1late := Row(2, "A1", "T1", "V", 20259, Some(500), None);
    var b2 := Row(3, "B2", "T2", "V", 20244, Some(700), None);
    var c := Criteria(Some(["A1"]), Some(20240), Some(20254), DefaultLimit);
    assert Matches(c, a1early) && !Matches(c, a1late) && !Matches(c, b2);
    assert [a1early, a1late, b2] == [a1early] + [a1late, b2];
    SelectOnlyHead(c, a1early, [a1late, b2]);
  }

  /** A matching row followed only by non-matching ones selects just that row. */
  lemma SelectOnlyHead(c: Criteria, x: Row, rest: seq<Row>)
    requires Matches(c, x) && forall i :: 0 <= i < |rest| ==> !Matches(c, rest[i])
    ensures Select([x] + rest, c) == [x]
  {
    assert ([x] + rest)[1..] == rest;
  }

  // ---------------------------------------------------------------- summary

  /** The sum of `distance` over the rows of one plate, a null distance counting as zero. */
  function TotalFor(rs: seq<Row>, plate: string): int
  {
    if rs == [] then 0
    else (if rs[0].plateNumber == plate then DistanceOrZero(rs[0]) else 0) + TotalFor(rs[1..], plate)
  }

  /** The sum of `distance` over all rows. */
  function TotalDistance(rs: seq<Row>): int
  {
    if rs == [] then 0 else DistanceOrZero(rs[0]) + TotalDistance(rs[1..])
  }

  function PlatesOf(rs: seq<Row>): (ps: seq<string>)
    ensures |ps| == |rs| && forall i :: 0 <= i < |rs| ==> ps[i] == rs[i].plateNumber
  {
    seq(|rs|, i requires 0 <= i < |rs| => rs[i].plateNumber)
  }

  datatype PlateTotal = PlateTotal(plateNumber: string, totalDistance: int, startAt: Option<Date>, endAt: Option<Date>)

  /** The summary response: the requested period and one entry per plate. */
  datatype Summary = Summary(periodStart: Option<Date>, periodEnd: Option<Date>, summary: seq<PlateTotal>)

  function Totals(plates: seq<string>, rows: seq<Row>, c: Criteria): (r: seq<PlateTotal>)
    ensures |r| == |plates|
    ensures forall i :: 0 <= i < |r| ==>
      r[i] == PlateTotal(plates[i], TotalFor(rows, plates[i]), c.startAt, c.endAt)
  {
    if plates == [] then []
    else [PlateTotal(plates[0], TotalFor(rows, plates[0]), c.startAt, c.endAt)] + Totals(plates[1..], rows, c)
  }

  /** `POST /sumdistance`: GROUP BY plate ORDER BY plate over the matching rows; `limit` plays no part. */
  function Summarize(table: seq<Row>, c: Criteria): Result<Summary, Error>
  {
    var rows := Select(table, c);
    var plates := SortedUnique(PlatesOf(rows));
    if plates == [] then Err(NotFound(NoSummaryRecords))
    else Ok(Summary(c.startAt, c.endAt, Totals(plates, rows, c)))
  }

  function EntryPlates(entries: seq<PlateTotal>): seq<string>
  {
    seq(|entries|, i requires 0 <= i < |entries| => entries[i].plateNumber)
  }

  lemma PlatesOfMembers(rs: seq<Row>, p: string)
    ensures p in PlatesOf(rs) <==> exists x :: x in rs && x.plateNumber == p
  {
    if p in PlatesOf(rs) {
      var i :| 0 <= i < |rs| && PlatesOf(rs)[i] == p;
      assert rs[i] in rs;
    }
  }

  /** The distinct plates of the selection are the plates of the matching rows. */
  lemma SummaryPlates(table: seq<Row>, c: Criteria)
    ensures StrictlyAscending(SortedUnique(PlatesOf(Select(table, c))))
    ensures forall p :: p in SortedUnique(PlatesOf(Select(table, c))) <==>
      exists x :: x in table && Matches(c, x) && x.plateNumber == p
  {
    var rows := Select(table, c);
    SortedUniqueCorrect(PlatesOf(rows));
    SelectedRows(table, c);
    forall p ensures p in SortedUnique(PlatesOf(rows)) <==> exists x :: x in table && Matches(c, x) && x.plateNumber == p {
      PlatesOfMembers(rows, p);
    }
  }

  /** A row is selected exactly when it is in the table and matches. */
  lemma SelectedRows(table: seq<Row>, c: Criteria)
    ensures forall x :: x in Select(table, c) <==> x in table && Matches(c, x)
  {
    forall x ensures x in Select(table, c) <==> x in table && Matches(c, x) {
      assert x in Select(table, c) <==> x in multiset(Select(table, c));
      assert x in table <==> x in multiset(table);
    }
  }

  /** A 404 exactly when no row matches. */
  lemma SummarizeErrors(table: seq<Row>, c: Criteria)
    ensures Summarize(table, c).Err? <==> forall x :: x in table ==> !Matches(c, x)
    ensures Summarize(table, c).Err? ==> Summarize(table, c).error == NotFound(NoSummaryRecords)
  {
    SummaryPlates(table, c);
    var plates := SortedUnique(PlatesOf(Select(table, c)));
    if plates == [] {
      forall x | x in table ensures !Matches(c, x) {
        assert x.plateNumber !in plates;
      }
    } else {
      assert plates[0] in plates;
    }
  }

  /**
   * One entry per distinct plate among the matching rows, in ascending plate
   * order, each carrying that plate's distance total and the requested bounds.
   */
  lemma SummarizeSound(table: seq<Row>, c: Criteria)
    requires Summarize(table, c).Ok?
    ensures var s := Summarize(table, c).value;
      && s.periodStart == c.startAt && s.periodEnd == c.endAt
      && StrictlyAscending(EntryPlates(s.summary))
      && (forall p :: p in EntryPlates(s.summary) <==> exists x :: x in table && Matches(c, x) && x.plateNumber == p)
      && (forall i :: 0 <= i < |s.summary| ==>
            && s.summary[i].totalDistance == TotalFor(Select(table, c), s.summary[i].plateNumber)
            && s.summary[i].startAt == c.startAt && s.summary[i].endAt == c.endAt)
  {
    SummaryPlates(table, c);
    var rows := Select(table, c);
    var plates := SortedUnique(PlatesOf(rows));
    assert EntryPlates(Totals(plates, rows, c)) == plates;
  }

  function SumTotals(entries: seq<PlateTotal>): int
  {
    if entries == [] then 0 else entries[0].totalDistance + SumTotals(entries[1..])
  }

  /** The sum over the listed plates of each plate's total. */
  function SumOver(plates: seq<string>, rows: seq<Row>): int
  {
    if plates == [] then 0 else TotalFor(rows, plates[0]) + SumOver(plates[1..], rows)
  }

  predicate Distinct(ps: seq<string>) { forall i, j :: 0 <= i < j < |ps| ==> ps[i] != ps[j] }

  lemma {:induction false} SumOverCons(plates: seq<string>, x: Row, rows: seq<Row>)
    requires Distinct(plates)
    ensures SumOver(plates, [x] + rows) == (if x.plateNumber in plates then DistanceOrZero(x) else 0) + SumOver(plates, rows)
  {
    if plates != [] {
      assert ([x] + rows)[1..] == rows;
      var rest := plates[1..];
      assert Distinct(rest) by {
        forall i, j | 0 <= i < j < |rest| ensures rest[i] != rest[j] {
          assert rest[i] == plates[i + 1] && rest[j] == plates[j + 1];
        }
      }
      SumOverCons(rest, x, rows);
      assert x.plateNumber in plates <==> x.plateNumber == plates[0] || x.plateNumber in rest;
      if x.plateNumber == plates[0] {
        assert x.plateNumber !in rest by {
          forall k | 0 <= k < |rest| ensures rest[k] != plates[0] {
            assert rest[k] == plates[k + 1];
          }
        }
      }
    }
  }

  lemma {:induction false} SumOverCovers(plates: seq<string>, rows: seq<Row>)
    requires Distinct(plates)
    requires forall x :: x in rows ==> x.plateNumber in plates
    ensures SumOver(plates, rows) == TotalDistance(rows)
  {
    if rows == [] {
      SumOverEmpty(plates);
    } else {
      assert rows == [rows[0]] + rows[1..];
      SumOverCons(plates, rows[0], rows[1..]);
      SumOverCovers(plates, rows[1..]);
    }
  }

  lemma {:induction false} SumOverEmpty(plates: seq<string>)
    ensures SumOver(plates, []) == 0
  {
    if plates != [] {
      SumOverEmpty(plates[1..]);
    }
  }

  lemma {:induction false} SumTotalsIsSumOver(plates: seq<string>, rows: seq<Row>, c: Criteria)
    ensures SumTotals(Totals(plates, rows, c)) == SumOver(plates, rows)
  {
    if plates != [] {
      assert Totals(plates, rows, c)[1..] == Totals(plates[1..], rows, c);
      SumTotalsIsSumOver(plates[1..], rows, c);
    }
  }

  /** The per-plate totals of a summary add up to the total distance of all matching rows. */
  lemma SummaryConservesDistance(table: seq<Row>, c: Criteria)
    requires Summarize(table, c).Ok?
    ensures SumTotals(Summarize(table, c).value.summary) == TotalDistance(Select(table, c))
  {
    var rows := Select(table, c);
    var plates := SortedUnique(PlatesOf(rows));
    SortedUniqueCorrect(PlatesOf(rows));
    assert Distinct(plates) by {
      forall i, j | 0 <= i < j < |plates| ensures plates[i] != plates[j] {
        if plates[i] == plates[j] {
          BelowIrreflexive(plates[i]);
        }
      }
    }
    forall x | x in rows ensures x.plateNumber in plates {
      PlatesOfMembers(rows, x.plateNumber);
    }
    SumTotalsIsSumOver(plates, rows, c);
    SumOverCovers(plates, rows);
  }

  lemma {:induction false} TotalForInsert(x: Row, s: seq<Row>, p: string)
    ensures TotalFor(InsertByDate(x, s), p) == TotalFor([x] + s, p)
  {
    if s != [] && x.date > s[0].date {
      assert InsertByDate(x, s)[1..] == InsertByDate(x, s[1..]);
      TotalForInsert(x, s[1..], p);
      assert ([x] + s[1..])[1..] == s[1..];
      assert ([x] + s)[1..] == s;
    }
  }

  lemma {:induction false} TotalForSorted(s: seq<Row>, p: string)
    ensures TotalFor(SortByDate(s), p) == TotalFor(s, p)
  {
    if s != [] {
      TotalForSorted(s[1..], p);
      TotalForInsert(s[0], SortByDate(s[1..]), p);
      assert ([s[0]] + SortByDate(s[1..]))[1..] == SortByDate(s[1..]);
    }
  }

  lemma {:induction false} TotalForStamped(s: seq<Row>, p: string)
    ensures TotalFor(StampAll(s), p) == TotalFor(s, p)
  {
    if s != [] {
      assert StampAll(s)[1..] == StampAll(s[1..]);
      TotalForStamped(s[1..], p);
    }
  }

  /**
   * When the limit does not cut the list, each plate's summary total equals
   * the sum of that plate's distances over the records the list endpoint
   * returns for the same criteria.
   */
  lemma SummaryAgreesWithList(table: seq<Row>, c: Criteria, p: string)
    requires c.limit >= |Select(table, c)|
    requires ListResult(table, c).Ok?
    ensures TotalFor(ListResult(table, c).value, p) == TotalFor(Select(table, c), p)
  {
    var sel := Select(table, c);
    SortByDateCorrect(sel);
    assert |SortByDate(sel)| == |sel| by {
      assert |multiset(SortByDate(sel))| == |multiset(sel)|;
    }
    assert Take(SortByDate(sel), c.limit) == SortByDate(sel);
    TotalForStamped(SortByDate(sel), p);
    TotalForSorted(sel, p);
  }

  // ------------------------------------------------------- distinct plates

  /** `[p for p in plates if p]`. */
  function DropEmpty(ps: seq<string>): (r: seq<string>)
    ensures forall p :: p in r <==> p in ps && p != ""
  {
    if ps == [] then []
    else
      assert ps == [ps[0]] + ps[1..];
      (if ps[0] != "" then [ps[0]] else []) + DropEmpty(ps[1..])
  }

  lemma {:induction false} DropEmptyCorrect(ps: seq<string>)
    requires StrictlyAscending(ps)
    ensures StrictlyAscending(DropEmpty(ps))
  {
    if ps != [] {
      var t := ps[1..];
      assert StrictlyAscending(t) by {
        forall i, j | 0 <= i < j < |t| ensures Below(t[i], t[j]) {
          assert t[i] == ps[i + 1] && t[j] == ps[j + 1];
        }
      }
      DropEmptyCorrect(t);
      assert ps == [ps[0]] + t;
      var r := DropEmpty(ps);
      if ps[0] != "" {
        forall j | 0 < j < |r| ensures Below(r[0], r[j]) {
          assert r[j] in DropEmpty(t);
          var k :| 0 <= k < |t| && t[k] == r[j];
          assert ps[k + 1] == r[j];
        }
      }
    }
  }

  /** The distinct-plates response. */
  datatype PlateNumbers = PlateNumbers(count: nat, plates: seq<string>)

  /**
   * `GET /platenumber`: DISTINCT plate numbers in ascending order with empty
   * values dropped.  The empty case raises a 404 inside a `try` whose
   * catch-all turns it into a 500.
   */
  function UniquePlateNumbers(table: seq<Row>): Result<PlateNumbers, Error>
  {
    var plates := DropEmpty(SortedUnique(PlatesOf(table)));
    if plates == [] then Err(StoreFailure(NoPlateNumbers))
    else Ok(PlateNumbers(|plates|, plates))
  }

  /** The plates listed are the table's non-empty plate numbers, ascending. */
  lemma ListedPlates(table: seq<Row>)
    ensures var plates := DropEmpty(SortedUnique(PlatesOf(table)));
      && StrictlyAscending(plates)
      && forall p :: p in plates <==> p != "" && exists x :: x in table && x.plateNumber == p
  {
    var all := SortedUnique(PlatesOf(table));
    SortedUniqueCorrect(PlatesOf(table));
    DropEmptyCorrect(all);
    forall p ensures p in DropEmpty(all) <==> p != "" && exists x :: x in table && x.plateNumber == p {
      PlatesOfMembers(table, p);
    }
  }

  /**
   * Every non-empty plate of the table exactly once, ascending, with `count`
   * its length; a 500 (not a 404) exactly when no row has a non-empty plate.
   */
  lemma UniquePlateNumbersCorrect(table: seq<Row>)
    ensures UniquePlateNumbers(table).Err? <==> forall x :: x in table ==> x.plateNumber == ""
    ensures UniquePlateNumbers(table).Err? ==> UniquePlateNumbers(table).error == StoreFailure(NoPlateNumbers)
    ensures UniquePlateNumbers(table).Ok? ==>
      var r := UniquePlateNumbers(table).value;
      && StrictlyAscending(r.plates)
      && r.count == |r.plates|
      && forall p :: p in r.plates <==> p != "" && exists x :: x in table && x.plateNumber == p
  {
    ListedPlates(table);
    var plates := DropEmpty(SortedUnique(PlatesOf(table)));
    if plates == [] {
      forall x | x in table ensures x.plateNumber == "" {
        assert x.plateNumber !in plates;
      }
    } else {
      assert plates[0] in plates;
    }
  }

  /** Duplicates collapse: plates B, A, B, "" give [A, B] with count 2. */
  lemma UniquePlatesExample()
    ensures
      var table := [Row(1, "B", "T", "V", 0, None, None), Row(2, "A", "T", "V", 0, None, None),
                    Row(3, "B", "T", "V", 0, None, None), Row(4, "", "T", "V", 0, None, None)];
      UniquePlateNumbers(table) == Ok(PlateNumbers(2, ["A", "B"]))
  {
    var table := [Row(1, "B", "T", "V", 0, None, None), Row(2, "A", "T", "V", 0, None, None),
                  Row(3, "B", "T", "V", 0, None, None), Row(4, "", "T", "V", 0, None, None)];
    var ps := PlatesOf(table);
    assert ps == ["B", "A", "B", ""];
    assert ps[1..] == ["A", "B", ""] && ps[1..][1..] == ["B", ""] && ps[1..][1..][1..] == [""];
    assert SortedUnique([""]) == [""];
    assert Below("", "B") && !Below("B", "") && Below("", "A") && Below("A", "B");
    assert InsertUnique("B", [""]) == ["", "B"];
    assert SortedUnique(["B", ""]) == ["", "B"];
    assert InsertUnique("A", ["", "B"]) == ["", "A", "B"];
    assert SortedUnique(["A", "B", ""]) == ["", "A", "B"];
    assert InsertUnique("B", ["A", "B"]) == ["A", "B"];
    assert InsertUnique("B", ["", "A", "B"]) == ["", "A", "B"];
    assert SortedUnique(ps) == ["", "A", "B"];
    assert DropEmpty(["", "A", "B"]) == ["A", "B"];
  }

  /** On an empty table the answer is the re-wrapped 500. */
  lemma UniquePlatesEmptyTable()
    ensures UniquePlateNumbers([]) == Err(StoreFailure(NoPlateNumbers))
  {
  }
}
