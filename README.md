# Driving-distance service: a Dafny model

This project models the core of the driving-distance backend: the routes under
`/drivingdistance`, the record schema's timestamp validator, and the shared
token check that guards every route. A driving-distance record belongs to a
vehicle plate and a truck. It carries a GPS vendor, a calendar date, a distance
and an optional creation timestamp.

The model has these modules:

- `Auth` models `verify_token`. The header is checked against the configured
  `API_TOKEN`. A missing or empty configuration is refused before any
  comparison is made.
- `BangkokTime` models the two `created_at` conversions to the fixed UTC+7
  offset.
  - The schema validator reads a naive value as UTC and converts any datetime
    to +7.
  - The list routes stamp the wall clock as UTC whatever offset it carried,
    then shift it to +7.
  - Lemmas pin down where the two agree and where they differ.
- `Domain` holds the stored row, the submitted record, the filter criteria and
  the error outcomes.
  - `distance` is kept in hundredths because the column is NUMERIC(10, 2).
  - `distance` and `created_at` are nullable.
- `FilterCompiler` models the clause list the routes build:
  - the plate `IN` clause when a non-empty plate list is given;
  - and, independently of it, one date clause, chosen by which bounds are
    present; the clauses are ANDed.
  - `BuildFilters` is proved to select exactly the rows the declarative
    `Matches` predicate describes.
- `Ordering` holds the orders the queries use:
  - string order for `ORDER BY plate_number`, proved a strict total order;
  - a stable date sort for `ORDER BY date`;
  - a sorted, duplicate-free plate list for `GROUP BY` and `DISTINCT`.
- `QueryService` models the listing, summary and distinct-plate operations.
  - The listing is `POST /filter` and `GET /`.
  - The summary is `POST /sumdistance`. It sums each plate's distances over
    the matching rows, with a null distance counting as zero.
  - The distinct-plate listing is `GET /platenumber`.
- `BulkIngestion` models `POST /bulk` as a `RecordStore` class over one
  database session.
  - The payload is cut into chunks of 2000.
  - Each chunk is written, committed and read back newest first.
  - A failure rolls back only the chunk in progress.
  - Transaction start times and store faults are parameters of the model.

HTTP status codes are mapped to the `Error` datatype:

| `Error` | status |
|---|---|
| `BadInput` | 400 |
| `Unauthorized` | 401 |
| `NotFound` | 404 |
| `Misconfigured` | 500 from the token check |
| `StoreFailure` | 500 from a route |
| `InvalidResponse` | 500 when an answer fails its response schema |

The model follows the code in two places where a reader might expect
something else:

- **`GET /platenumber` on a table with no non-empty plate.** One might expect a
  404 here. The route raises a
  404 inside a `try` block, and its catch-all handler turns that into a 500
  with the detail "Error retrieving plate numbers: 404: No plate numbers
  found". The model answers that 500.
- **Timestamps in list answers.** One might expect only a naive `created_at` to
  be read as UTC. The list routes convert every `created_at` by discarding its
  offset.

## Model

| member | source | states |
|---|---|---|
| Auth.VerifyToken | backend/auth.py:8-26 | passes exactly when a non-empty token is configured and the header equals it; a 500 exactly when no token is configured; a 401 exactly when the header differs |
| Auth.MisconfigurationPrecedes | backend/auth.py:16-20 | without a configured token the answer is the misconfiguration error whatever header is sent |
| Auth.ThreeOutcomes | backend/auth.py:16-26 | the check has exactly three outcomes: pass, misconfigured or unauthorized |
| BangkokTime.Replace | backend/routers/drivingdistance_routes.py:129 | `replace(tzinfo=...)` keeps the wall clock and makes the value denote wall minus offset |
| BangkokTime.AsTimeZone | backend/schemas/drivingdistance.py:21-22 | `astimezone` keeps the instant and sets the new offset |
| BangkokTime.ConvertToBangkok | backend/schemas/drivingdistance.py:14-23 | non-datetimes pass through; a datetime comes out at +7 denoting the same instant, with a naive value read as UTC and its wall clock moved 7 hours ahead |
| BangkokTime.RouteToBangkok | backend/routers/drivingdistance_routes.py:126-129 | the route conversion gives a +7 value whose instant is the input's wall clock read as UTC |
| BangkokTime.ConvertIdempotent | backend/schemas/drivingdistance.py:14-23 | validating an already validated value changes nothing |
| BangkokTime.AwareKeepsInstant | backend/schemas/drivingdistance.py:17-22 | an aware timestamp keeps its instant and gets the +7 offset |
| BangkokTime.NaiveShiftsClock | backend/schemas/drivingdistance.py:19-22 | a naive timestamp's time of day moves 7 hours ahead, rolling to the next day from 17:00 UTC on |
| BangkokTime.NaiveMorningExample | backend/schemas/drivingdistance.py:19-22 | 2025-06-01 10:00 naive becomes 17:00 +07:00 on the same date |
| BangkokTime.NaiveEveningExample | backend/schemas/drivingdistance.py:19-22 | 2025-06-01 20:00 naive becomes 03:00 +07:00 on 2025-06-02 |
| BangkokTime.RouteAgreesWithValidatorOnUtc | backend/routers/drivingdistance_routes.py:127-129 | on naive and UTC values the route conversion equals the validator's |
| BangkokTime.RouteShiftsOtherOffsets | backend/routers/drivingdistance_routes.py:177-179 | on an aware non-UTC value the route conversion moves the instant by the offset and differs from the validator |
| BangkokTime.ValidatorAfterRoute | backend/schemas/drivingdistance.py:29-30 | the response model's validator leaves a route-converted timestamp unchanged |
| Ordering.BelowTransitive | backend/routers/drivingdistance_routes.py:226 | the plate order is transitive |
| Ordering.BelowTotal | backend/routers/drivingdistance_routes.py:267 | any two distinct plates are ordered one way or the other |
| Ordering.SortedUniqueCorrect | backend/routers/drivingdistance_routes.py:264-268 | DISTINCT ... ORDER BY yields a strictly ascending list with exactly the input's values |
| Ordering.AscendingIsUnique | backend/routers/drivingdistance_routes.py:225-226 | two strictly ascending lists with the same values are equal, so the grouped plate list is determined |
| Ordering.InsertByDateCorrect | backend/routers/drivingdistance_routes.py:171 | inserting into a date-sorted list keeps it sorted and adds exactly that row |
| Ordering.SortByDateCorrect | backend/routers/drivingdistance_routes.py:121 | ORDER BY date ASC gives a date-sorted permutation of its input |
| FilterCompiler.BuildFilters | backend/routers/drivingdistance_routes.py:104-116 | a row satisfies every built clause exactly when it matches the criteria; one clause per active plate or date condition |
| FilterCompiler.Matches | backend/routers/drivingdistance_routes.py:111-112 | a start date after the end date matches no row |
| FilterCompiler.EmptyCriteriaMatchAll | backend/routers/drivingdistance_routes.py:118-119 | with no active condition every row matches |
| FilterCompiler.SelectBy | backend/routers/drivingdistance_routes.py:118-119 | the WHERE keeps each row satisfying all clauses with its multiplicity and drops the rest |
| FilterCompiler.Select | backend/routers/drivingdistance_routes.py:206-221 | the selection holds each matching row with its multiplicity, and only matching rows |
| FilterCompiler.CompiledSelectsCriteria | backend/routers/drivingdistance_routes.py:158-169 | running a clause list equivalent to the criteria selects the same rows as the criteria |
| QueryService.StampAll | backend/routers/drivingdistance_routes.py:127-129 | every field but `created_at` is kept; a null stays null; a timestamp becomes +7 denoting its wall clock read as UTC |
| QueryService.ConvertCreatedAt | backend/routers/drivingdistance_routes.py:177-179 | the in-place loop leaves each record converted as `StampAll` says |
| QueryService.FilterDrivingDistance | backend/routers/drivingdistance_routes.py:87-132 | `POST /filter` answers the list result for its criteria |
| QueryService.GetDrivingDistanceRecords | backend/routers/drivingdistance_routes.py:138-182 | `GET /` answers the list result for the criteria built from its query parameters |
| QueryService.StampRowKeepsMatch | backend/routers/drivingdistance_routes.py:177-178 | the conversion changes neither a row's date nor whether it matches |
| QueryService.SortedSelection | backend/routers/drivingdistance_routes.py:121 | the sorted selection is date-sorted and holds exactly the matching rows |
| QueryService.ListResponse | backend/routers/drivingdistance_routes.py:87 | the client receives the route's answer when every returned row has a distance; a returned row with a null distance fails `DrivingDistanceOut` and gives a 500; route errors pass through |
| QueryService.ListResponseWithoutNulls | backend/schemas/drivingdistance.py:10 | on a table without null distances the response schema changes no list answer |
| QueryService.NullDistanceExample | backend/routers/drivingdistance_routes.py:138 | a single matching row with a null distance is returned by the route but answered with a 500 |
| QueryService.ListResultErrors | backend/routers/drivingdistance_routes.py:121-124 | a negative limit is a store failure; otherwise a 404 exactly when the limit is 0 or no row matches, and no other error |
| QueryService.ListResultSound | backend/routers/drivingdistance_routes.py:121-132 | the answer has min(limit, matches) rows, in date order, each a converted matching row, no row more often than it is stored, and no matching row dated before a returned one left out |
| QueryService.ListResultOrdered | backend/routers/drivingdistance_routes.py:121 | the answer has min(limit, matches) rows, in date order, each a converted matching row |
| QueryService.ListResultWithin | backend/routers/drivingdistance_routes.py:171 | the answer converts a sub-multiset of the matching rows |
| QueryService.ListResultEarliest | backend/routers/drivingdistance_routes.py:171-174 | a limit keeps the earliest rows: every matching row dated before a returned row is returned too |
| QueryService.EarlierIsBefore | backend/routers/drivingdistance_routes.py:121 | in a date-sorted list a row with an earlier date comes first |
| QueryService.StampRow | backend/routers/drivingdistance_routes.py:128-129 | other fields are kept; a null `created_at` stays null; a timestamp becomes +7 at its wall clock read as UTC |
| QueryService.ListResultComplete | backend/routers/drivingdistance_routes.py:171-182 | when the limit does not cut, every matching row appears converted in the answer |
| QueryService.SelectedRows | backend/routers/drivingdistance_routes.py:118-119 | a row is selected exactly when it is in the table and matches the criteria |
| QueryService.FilterExampleSelects | backend/routers/drivingdistance_routes.py:106-119 | the worked example's WHERE keeps only the in-range A1 row |
| QueryService.FilterExample | backend/routers/drivingdistance_routes.py:92-100 | plate A1 between 2025-06-01 and 2025-06-15 yields only the in-range A1 row |
| QueryService.PlatesOfMembers | backend/routers/drivingdistance_routes.py:202 | a plate appears in the plate column exactly when some row carries it |
| QueryService.Totals | backend/routers/drivingdistance_routes.py:234-242 | one entry per plate carrying that plate's distance sum and the requested start and end |
| QueryService.SummaryPlates | backend/routers/drivingdistance_routes.py:224-228 | the grouped plates are strictly ascending and are exactly the plates of matching rows |
| QueryService.SummarizeErrors | backend/routers/drivingdistance_routes.py:230-231 | a 404 exactly when no row matches, and no other error |
| QueryService.SummarizeSound | backend/routers/drivingdistance_routes.py:223-245 | entries in ascending plate order, one per plate of the matching rows, each with that plate's total and the requested period |
| QueryService.SummaryConservesDistance | backend/routers/drivingdistance_routes.py:203 | the per-plate totals add up to the total distance of the matching rows |
| QueryService.SummaryAgreesWithList | backend/routers/drivingdistance_routes.py:185-245 | when the limit does not cut, a plate's summary total equals its distance sum over the list answer for the same criteria |
| QueryService.DropEmpty | backend/routers/drivingdistance_routes.py:271 | keeps exactly the non-empty values |
| QueryService.DropEmptyCorrect | backend/routers/drivingdistance_routes.py:271 | dropping empty plates keeps an ascending list ascending |
| QueryService.ListedPlates | backend/routers/drivingdistance_routes.py:264-271 | the listed plates are strictly ascending and are exactly the table's non-empty plates |
| QueryService.UniquePlateNumbersCorrect | backend/routers/drivingdistance_routes.py:263-281 | each non-empty plate once, ascending, with `count` its length; the re-wrapped 500 exactly when no plate is non-empty |
| QueryService.UniquePlatesExample | backend/routers/drivingdistance_routes.py:264-277 | plates B, A, B and "" give count 2 with [A, B] |
| QueryService.UniquePlatesEmptyTable | backend/routers/drivingdistance_routes.py:273-281 | an empty table gives the 500 carrying the 404's text |
| BulkIngestion.NumChunksStep | backend/routers/drivingdistance_routes.py:47 | `range(0, total, 2000)` has no step for 0 records, one step for up to 2000, and one more per further 2000 |
| BulkIngestion.ChunksPartition | backend/routers/drivingdistance_routes.py:47-49 | the chunks concatenate back to the payload, each is 1 to 2000 long, all but the last exactly 2000 |
| BulkIngestion.ChunkSlice | backend/routers/drivingdistance_routes.py:48-49 | chunk k is the payload from k*2000 to min(k*2000 + 2000, total) |
| BulkIngestion.ChunksPrefix | backend/routers/drivingdistance_routes.py:47-49 | the first k chunks are the first min(k*2000, total) records |
| BulkIngestion.ChunksExample | backend/routers/drivingdistance_routes.py:43-49 | 4500 records make chunks of 2000, 2000 and 500 |
| BulkIngestion.StoreBatch | backend/routers/drivingdistance_routes.py:52-54 | a committed batch yields one row per record |
| BulkIngestion.StoredTimestamp | backend/models/drivingdistance.py:13 | a `TIMESTAMP(timezone=True)` column gives back a submitted timestamp at offset UTC denoting the same instant, a naive one read as UTC |
| BulkIngestion.StoredRow | backend/models/drivingdistance.py:7-13 | the stored row keeps the record's fields and the given id, and its `created_at` is never null and at offset UTC: the submitted instant, or else the start time of the chunk's transaction |
| BulkIngestion.StoredRowListedAtItsInstant | backend/routers/drivingdistance_routes.py:127-129 | a bulk-stored row is listed at +7 denoting the instant it was submitted with (or its default time), exactly as the schema validator would convert it |
| BulkIngestion.StoreBatchKeeps | backend/models/drivingdistance.py:7-13 | row i keeps record i's fields, gets id first+i, and has a non-null `created_at` at offset UTC: record i's instant (a naive one read as UTC), or the transaction's start time when the record had none |
| BulkIngestion.Persisted | backend/routers/drivingdistance_routes.py:47-54 | the first n records persist as n rows |
| BulkIngestion.PersistedRow | backend/routers/drivingdistance_routes.py:52-54 | the row for record i keeps its fields, has id first+i, and a non-null `created_at` at offset UTC: the submitted instant, or its chunk's transaction start time when the record had none |
| BulkIngestion.ReverseAppend | backend/routers/drivingdistance_routes.py:63 | prepending each re-read batch builds the reverse of everything stored so far |
| BulkIngestion.ReverseReverse | backend/routers/drivingdistance_routes.py:66 | reversing the newest-first list gives back submission order |
| BulkIngestion.Committed | backend/routers/drivingdistance_routes.py:46-71 | with no reachable fault every record stays; after a fault fewer stay, unless the fault came after its chunk's commit |
| BulkIngestion.FailureKeepsEarlierChunks | backend/routers/drivingdistance_routes.py:53-54 | a write failure leaves exactly the earlier chunks; a failure after the commit leaves those and the failing chunk |
| BulkIngestion.RecordStore.BulkSaveObjects | backend/routers/drivingdistance_routes.py:53 | the records join the open transaction; stored rows and ids are unchanged |
| BulkIngestion.RecordStore.Commit | backend/routers/drivingdistance_routes.py:54 | the open transaction's records are appended with the next ids, keeping ids ascending |
| BulkIngestion.RecordStore.Rollback | backend/routers/drivingdistance_routes.py:69 | the open transaction is discarded; committed rows stay |
| BulkIngestion.RecordStore.NewestFirst | backend/routers/drivingdistance_routes.py:57-62 | the min(n, size) rows with the largest ids, in descending id order; every other row has a smaller id |
| BulkIngestion.RecordStore.InsertChunk | backend/routers/drivingdistance_routes.py:52-63 | one chunk is written, committed and re-read; a fault before the commit undoes it and a fault after the commit keeps it |
| BulkIngestion.RecordStore.CreateLargeBulkRecords | backend/routers/drivingdistance_routes.py:32-71 | an empty payload is a 400 that writes nothing; otherwise the store gains exactly the committed prefix and the answer is all stored rows in submission order, or the failure with its cause |
| BulkIngestion.BulkResultInSubmissionOrder | backend/routers/drivingdistance_routes.py:63-66 | a successful answer has one row per record, in submission order, with ascending ids and a non-null `created_at` at offset UTC: the submitted instant, or its chunk's transaction start time when the record had none |

## Left out

- The database layer (`get_db`, engines and session factories in `backend/database.py`) and application wiring (`backend/main.py`) are not part of this model. The store is the in-memory `RecordStore` for ingestion and a row sequence for reads.
- Logging calls are left out because they do not affect any answer.
- The float conversion of the summary total is left out. Totals are exact integers in hundredths.
- Request-body and query-parameter validation by pydantic and FastAPI is left out. Inputs arrive already typed.
- The required `x-token` header is not modelled as missing. FastAPI refuses a request without it with 422 before `verify_token` runs, even when no token is configured; `VerifyToken` always receives a header value.
- The bounds of the NUMERIC(10, 2) `distance` column are not modelled. The column refuses values of 10^8 or more in magnitude and rounds a submitted float to hundredths; the model stores any integer number of hundredths, so a fault-free bulk request stores any value.
- QueryService.ListResult: is the list routes' return value. `ListResponse` models the `DrivingDistanceOut` schema only in its refusal of a null distance. Its answers still carry the row ids the schema drops, and distances stay exact hundredths rather than the float the schema produces.
- The bulk answer is the route's return value before the `DrivingDistanceOut` response schema is applied. That schema has no `id` field and runs the `created_at` validator, so the client sees neither the recovered ids nor the stored offsets; only the list routes' answers are related to that validator (`ValidatorAfterRoute`).
- The request schema for bulk records runs the same `created_at` validator on submitted values. In a JSON body a timestamp is a string, which that `mode="before"` validator passes through unconverted, so submitted timestamps arrive naive or with their own offset; the model takes them as given and lets the column normalise them (`StoredTimestamp`).
- Concurrency is left out. The bulk re-read `ORDER BY id DESC LIMIT n` assumes no other session inserts between a chunk's commit and its re-read.
- SQL string collation is modelled as code-point lexicographic order. Database-specific collations are not modelled.
- The order of rows with equal dates is unspecified in SQL. The model uses a stable sort.
- A NULL `plate_number` is not representable; plates are strings. The route's `if p[0]` filter is modelled for the empty string only.
- BulkIngestion.RecordStore.Rollback: does not model the id-sequence values a rolled-back chunk consumes; ids are assumed to be handed out only on commit.
- The database session time zone is assumed to be UTC, so the column reads a naive submitted timestamp as UTC and gives every stored one back at offset UTC. The start time of each chunk's transaction, which the `now()` server default reports, is a parameter (`clock`).
- Store connectivity failures on the read routes are not modelled. Only the negative-LIMIT refusal is modelled as a store failure.
- The store is assumed to be PostgreSQL, which refuses a negative LIMIT. SQLite would instead treat it as no limit.
- The `period` string of the summary answer is not modelled. The summary carries the start and end bounds instead.
- HTTP status codes are represented by the `Error` constructors rather than numbers.
- The `limit` field of the summary body plays no part, as in the route.
