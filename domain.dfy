/**
 * The driving-distance record, the filter criteria and the error outcomes
 * shared by the query and ingestion operations.
 */
module Domain {
  import opened Wrappers
  import opened BangkokTime

  /** A calendar date, as a day number; only its order matters here. */
  type Date = int

  /**
   * A stored row of the `drivingdistance` table.  `distance` is the
   * NUMERIC(10, 2) column in hundredths; it and `createdAt` are nullable
   * columns.
   */
  datatype Row = Row(
    id: nat,
    plateNumber: string,
    truckNumber: string,
    gpsVendor: string,
    date: Date,
    distance: Option<int>,
    createdAt: Option<DateTime>)

  /** A record submitted for bulk ingestion: every field but `id`, `createdAt` optional. */
  datatype NewRecord = NewRecord(
    plateNumber: string,
    truckNumber: string,
    gpsVendor: string,
    date: Date,
    distance: int,
    createdAt: Option<DateTime>)

  /** The filter body (and the query parameters of the GET list endpoint). */
  datatype Criteria = Criteria(
    plateNumber: Option<seq<string>>,
    startAt: Option<Date>,
    endAt: Option<Date>,
    limit: int)

  const DefaultLimit: int := 500

  /** The HTTP error outcomes, by meaning rather than status code. */
  datatype Error =
    | BadInput(detail: string)      // 400
    | Unauthorized(detail: string)  // 401
    | NotFound(detail: string)      // 404
    | Misconfigured(detail: string) // 500 raised by the token check
    | StoreFailure(detail: string)  // 500 raised by a route
    | InvalidResponse(detail: string) // 500 when an answer fails its response schema

  function Min(a: int, b: int): int { if a <= b then a else b }

  /** A record's distance with a null counted as zero. */
  function DistanceOrZero(r: Row): int { r.distance.GetOr(0) }
}
