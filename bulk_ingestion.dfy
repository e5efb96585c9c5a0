/**
 * Chunked bulk ingestion: the payload is written 2000 records at a time, one
 * transaction per chunk, and each chunk's stored rows are re-read newest
 * first to recover their ids.  A failure rolls back the chunk in progress
 * only.
 */
module BulkIngestion {
  import opened Wrappers
  import opened BangkokTime
  import opened Domain

  const BatchSize: nat := 2000
  const NoRecordsProvided: string := "No records provided."
  const InsertFailed: string := "Database insert failed: "

  // ----------------------------------------------------------------- chunks

  /** How many chunks `range(0, total, BatchSize)` yields. */
  function NumChunks(total: nat): nat { (total + BatchSize - 1) / BatchSize }

  /** The payload cut into consecutive slices of `BatchSize`, the last possibly shorter. */
  function Chunks<T>(p: seq<T>): seq<seq<T>>
    decreases |p|
  {
    if p == [] then [] else [p[..Min(BatchSize, |p|)]] + Chunks(p[Min(BatchSize, |p|)..])
  }

  function Flatten<T>(cs: seq<seq<T>>): seq<T>
  {
    if cs == [] then [] else cs[0] + Flatten(cs[1..])
  }

  lemma NumChunksStep(total: nat)
    ensures total == 0 ==> NumChunks(total) == 0
    ensures 0 < total <= BatchSize ==> NumChunks(total) == 1
    ensures total > BatchSize ==> NumChunks(total) == 1 + NumChunks(total - BatchSize)
  {
  }

  /**
   * The chunks partition the payload in order: each is non-empty and at most
   * `BatchSize` long, all but the last are exactly `BatchSize`, and there are
   * `NumChunks` of them.
   */
  lemma {:induction false} ChunksPartition<T>(p: seq<T>)
    ensures Flatten(Chunks(p)) == p
    ensures |Chunks(p)| == NumChunks(|p|)
    ensures forall k :: 0 <= k < |Chunks(p)| ==> 0 < |Chunks(p)[k]| <= BatchSize
    ensures forall k :: 0 <= k < |Chunks(p)| - 1 ==> |Chunks(p)[k]| == BatchSize
    decreases |p|
  {
    NumChunksStep(|p|);
    if p != [] {
      var n := Min(BatchSize, |p|);
      var rest := p[n..];
      ChunksPartition(rest);
      var cs := Chunks(p);
      assert cs[1..] == Chunks(rest);
      assert p == p[..n] + rest;
      forall k | 0 <= k < |cs| - 1 ensures |cs[k]| == BatchSize {
        if k > 0 {
          assert cs[k] == Chunks(rest)[k - 1];
        } else {
          assert rest != [];
        }
      }
      forall k | 0 <= k < |cs| ensures 0 < |cs[k]| <= BatchSize {
        if k > 0 {
          assert cs[k] == Chunks(rest)[k - 1];
        }
      }
    }
  }

  /** Chunk `k` is `payload[k * BatchSize : min(k * BatchSize + BatchSize, total)]`, as the route slices it. */
  lemma {:induction false} ChunkSlice<T>(p: seq<T>, k: nat)
    requires k < |Chunks(p)|
    ensures k * BatchSize < |p|
    ensures Chunks(p)[k] == p[k * BatchSize .. Min(k * BatchSize + BatchSize, |p|)]
    decreases |p|
  {
    var n := Min(BatchSize, |p|);
    if k > 0 {
      var rest := p[n..];
      assert Chunks(p)[k] == Chunks(rest)[k - 1];
      ChunkSlice(rest, k - 1);
      assert rest[(k - 1) * BatchSize .. Min((k - 1) * BatchSize + BatchSize, |rest|)]
          == p[k * BatchSize .. Min(k * BatchSize + BatchSize, |p|)];
    }
  }

  /** The first `k` chunks together are the first `k * BatchSize` records (or all of them). */
  lemma {:induction false} ChunksPrefix<T>(p: seq<T>, k: nat)
    requires k <= |Chunks(p)|
    ensures Flatten(Chunks(p)[..k]) == p[..Min(k * BatchSize, |p|)]
    decreases |p|
  {
    if k > 0 {
      var n := Min(BatchSize, |p|);
      var rest := p[n..];
      assert Chunks(p)[..k] == [p[..n]] + Chunks(rest)[..k - 1];
      assert Flatten(Chunks(p)[..k]) == p[..n] + Flatten(Chunks(rest)[..k - 1]);
      ChunksPrefix(rest, k - 1);
      assert p[..n] + rest[..Min((k - 1) * BatchSize, |rest|)] == p[..Min(k * BatchSize, |p|)];
    }
  }

  /** 4500 records make three chunks of 2000, 2000 and 500. */
  lemma ChunksExample<T>(p: seq<T>)
    requires |p| == 4500
    ensures |Chunks(p)| == 3
    ensures |Chunks(p)[0]| == 2000 && |Chunks(p)[1]| == 2000 && |Chunks(p)[2]| == 500
  {
    ChunksPartition(p);
    ChunkSlice(p, 2);
  }

  // ------------------------------------------------------------ stored rows

  /**
   * What a `TIMESTAMP WITH TIME ZONE` column gives back for a submitted
   * timestamp in a UTC session: only the instant is stored (a naive value is
   * read in the session's zone), and it is read back at offset UTC.
   */
  function StoredTimestamp(dt: DateTime): (r: DateTime)
    ensures r.offset == Some(Utc) && Instant(r) == InstantAssumingUtc(dt)
  {
    DateTime(InstantAssumingUtc(dt), Some(Utc))
  }

  /**
   * The row the store keeps for a submitted record: the given id, the
   * record's fields, and its own `created_at` normalised to UTC, or else the
   * time `now` at which the chunk's transaction began (the column's server
   * default `now()`), also in UTC.
   */
  function StoredRow(rec: NewRecord, id: nat, now: int): (row: Row)
    ensures Keeps(row, rec) && row.id == id
    ensures rec.createdAt.None? ==> Instant(row.createdAt.value) == now
  {
    Row(id, rec.plateNumber, rec.truckNumber, rec.gpsVendor, rec.date, Some(rec.distance),
        Some(if rec.createdAt.Some? then StoredTimestamp(rec.createdAt.value) else DateTime(now, Some(Utc))))
  }

  /**
   * The submitted fields of `rec` are what `row` holds; its `created_at` is
   * never null, is at offset UTC, and denotes the submitted instant (a naive
   * one read as UTC) when one was submitted.
   */
  predicate Keeps(row: Row, rec: NewRecord)
  {
    && row.plateNumber == rec.plateNumber && row.truckNumber == rec.truckNumber
    && row.gpsVendor == rec.gpsVendor && row.date == rec.date && row.distance == Some(rec.distance)
    && row.createdAt.Some? && row.createdAt.value.offset == Some(Utc)
    && (rec.createdAt.Some? ==> Instant(row.createdAt.value) == InstantAssumingUtc(rec.createdAt.value))
  }

  /**
   * A bulk-stored row is listed at the instant it was submitted with: the
   * list routes' conversion, which discards the offset, is harmless on the
   * UTC values the column gives back.
   */
  lemma StoredRowListedAtItsInstant(rec: NewRecord, id: nat, now: int)
    ensures var listed := RouteToBangkok(StoredRow(rec, id, now).createdAt.value);
      && listed.offset == Some(BangkokOffset)
      && Instant(listed) == (if rec.createdAt.Some? then InstantAssumingUtc(rec.createdAt.value) else now)
      && Stamp(listed) == ConvertToBangkok(Stamp(StoredRow(rec, id, now).createdAt.value))
  {
    var stored := StoredRow(rec, id, now).createdAt.value;
    RouteAgreesWithValidatorOnUtc(stored);
  }

  /** One transaction's worth of rows: consecutive ids from `firstId`, one start time `now`. */
  function StoreBatch(batch: seq<NewRecord>, firstId: nat, now: int): (r: seq<Row>)
    ensures |r| == |batch|
  {
    seq(|batch|, i requires 0 <= i < |batch| => StoredRow(batch[i], firstId + i, now))
  }

  /**
   * A committed batch keeps every submitted field, takes consecutive ids, and
   * has no null `created_at`: a submitted one is kept as its instant at UTC,
   * and a record without one gets the transaction's start time in UTC.
   */
  lemma StoreBatchKeeps(batch: seq<NewRecord>, firstId: nat, now: int)
    ensures forall i :: 0 <= i < |batch| ==>
      Keeps(StoreBatch(batch, firstId, now)[i], batch[i]) && StoreBatch(batch, firstId, now)[i].id == firstId + i
    ensures forall i :: 0 <= i < |batch| && batch[i].createdAt.Some? ==>
      StoreBatch(batch, firstId, now)[i].createdAt == Some(DateTime(InstantAssumingUtc(batch[i].createdAt.value), Some(Utc)))
    ensures forall i :: 0 <= i < |batch| && batch[i].createdAt.None? ==>
      StoreBatch(batch, firstId, now)[i].createdAt == Some(DateTime(now, Some(Utc)))
  {
  }

  /**
   * The rows the first `n` records of the payload become when the
   * transaction of chunk `k` begins at time `clock(k)`.
   */
  function Persisted(payload: seq<NewRecord>, firstId: nat, clock: nat -> int, n: nat): (r: seq<Row>)
    requires n <= |payload|
    ensures |r| == n
  {
    seq(n, i requires 0 <= i < n => PersistedRow(payload, firstId, clock, i))
  }

  /** Record `i` stored with id `firstId + i` by the transaction of its chunk. */
  function PersistedRow(payload: seq<NewRecord>, firstId: nat, clock: nat -> int, i: nat): (row: Row)
    requires i < |payload|
    ensures Keeps(row, payload[i]) && row.id == firstId + i
    ensures payload[i].createdAt.Some? ==>
      row.createdAt == Some(DateTime(InstantAssumingUtc(payload[i].createdAt.value), Some(Utc)))
    ensures payload[i].createdAt.None? ==> row.createdAt == Some(DateTime(clock(i / BatchSize), Some(Utc)))
  {
    StoredRow(payload[i], firstId + i, clock(i / BatchSize))
  }

  function Reverse<T>(s: seq<T>): seq<T>
  {
    seq(|s|, i requires 0 <= i < |s| => s[|s| - 1 - i])
  }

  lemma ReverseIndex<T>(s: seq<T>)
    ensures |Reverse(s)| == |s| && forall i :: 0 <= i < |s| ==> Reverse(s)[i] == s[|s| - 1 - i]
  {
  }

  lemma SuffixOfAppend<T>(a: seq<T>, b: seq<T>)
    ensures (a + b)[|a + b| - |b|..] == b
  {
  }

  lemma ReverseAppend<T>(a: seq<T>, b: seq<T>)
    ensures Reverse(a + b) == Reverse(b) + Reverse(a)
  {
  }

  lemma ConcatAssoc<T>(a: seq<T>, b: seq<T>, c: seq<T>)
    ensures (a + b) + c == a + (b + c)
  {
  }

  lemma ReverseReverse<T>(a: seq<T>)
    ensures Reverse(Reverse(a)) == a
  {
  }

  predicate IdsAscending(rows: seq<Row>)
  {
    forall i, j :: 0 <= i < j < |rows| ==> rows[i].id < rows[j].id
  }

  // ------------------------------------------------------------------ store

  /** Where a bulk request fails: writing or committing a chunk, or re-reading it after the commit. */
  datatype Phase = Write | Reread

  datatype Fault = Fault(chunk: nat, phase: Phase, cause: string)

  /** Whether the fault falls on a chunk the request reaches. */
  predicate Aborts(total: nat, fault: Option<Fault>)
  {
    fault.Some? && fault.value.chunk < NumChunks(total)
  }

  /** How many leading records stay committed when the request ends. */
  function Committed(total: nat, fault: Option<Fault>): (n: nat)
    ensures n <= total
    ensures !Aborts(total, fault) ==> n == total
    ensures Aborts(total, fault) ==> n < total || fault.value.phase.Reread?
  {
    ChunkStartBelow(total, if fault.Some? then fault.value.chunk else 0);
    if !Aborts(total, fault) then total
    else if fault.value.phase.Write? then fault.value.chunk * BatchSize
    else Min(fault.value.chunk * BatchSize + BatchSize, total)
  }

  /**
   * A failing chunk leaves exactly the chunks before it committed (a write
   * failure) or those and itself (a failure of the re-read after its commit).
   */
  lemma FailureKeepsEarlierChunks<T>(payload: seq<T>, fault: Option<Fault>)
    requires Aborts(|payload|, fault)
    ensures |Chunks(payload)| == NumChunks(|payload|)
    ensures fault.value.phase.Write? ==>
      payload[..Committed(|payload|, fault)] == Flatten(Chunks(payload)[..fault.value.chunk])
    ensures fault.value.phase.Reread? ==>
      payload[..Committed(|payload|, fault)] == Flatten(Chunks(payload)[..fault.value.chunk + 1])
  {
    ChunksPartition(payload);
    var k := fault.value.chunk;
    ChunkStartBelow(|payload|, k);
    if fault.value.phase.Write? {
      ChunksPrefix(payload, k);
    } else {
      ChunksPrefix(payload, k + 1);
    }
  }

  /**
   * The `drivingdistance` table seen through one session: the committed
   * rows in insertion order, the records written in the open transaction,
   * and the next id the store will assign.
   */
  class RecordStore {
    var rows: seq<Row>
    var pending: seq<NewRecord>
    var nextId: nat

    /** Ids ascend with insertion and every id is below the next one to assign. */
    ghost predicate Valid()
      reads this
    {
      IdsAscending(rows) && forall i :: 0 <= i < |rows| ==> rows[i].id < nextId
    }

    constructor ()
      ensures Valid() && rows == [] && pending == [] && nextId == 1
    {
      rows, pending, nextId := [], [], 1;
    }

    /** `db.bulk_save_objects`: the records join the open transaction. */
    method BulkSaveObjects(batch: seq<NewRecord>)
      requires Valid()
      modifies this
      ensures Valid()
      ensures pending == old(pending) + batch
      ensures rows == old(rows) && nextId == old(nextId)
    {
      pending := pending + batch;
    }

    /**
     * `db.commit()`: the open transaction's records are stored with the next
     * ids; `now` is the time the transaction began, which `now()` reports.
     */
    method Commit(now: int)
      requires Valid()
      modifies this
      ensures Valid() && pending == []
      ensures rows == old(rows) + StoreBatch(old(pending), old(nextId), now)
      ensures nextId == old(nextId) + |old(pending)|
    {
      StoreBatchKeeps(pending, nextId, now);
      rows := rows + StoreBatch(pending, nextId, now);
      nextId := nextId + |pending|;
      pending := [];
    }

    /** `db.rollback()`: the open transaction is discarded. */
    method Rollback()
      requires Valid()
      modifies this
      ensures Valid()
      ensures pending == [] && rows == old(rows) && nextId == old(nextId)
    {
      pending := [];
    }

    /**
     * `ORDER BY id DESC LIMIT n`: the `n` rows with the largest ids (or all
     * rows), largest first.
     */
    method NewestFirst(n: nat) returns (last: seq<Row>)
      requires Valid()
      ensures |last| == Min(n, |rows|)
      ensures forall i, j :: 0 <= i < j < |last| ==> last[i].id > last[j].id
      ensures forall j, i :: 0 <= j < |rows| - |last| && 0 <= i < |last| ==> rows[j].id < last[i].id
      ensures last == Reverse(rows[|rows| - |last|..])
    {
      var m := Min(n, |rows|);
      last := Reverse(rows[|rows| - m..]);
      NewestSuffix(rows, m);
    }

    /**
     * One pass of the ingestion loop for chunk `k`: write it in the open
     * transaction, which began at time `now`, commit it, and re-read it newest first.  A
     * fault on this chunk rolls back the open transaction, which undoes the
     * write if the fault came before the commit and nothing otherwise.
     */
    method InsertChunk(batch: seq<NewRecord>, k: nat, fault: Option<Fault>, now: int)
      returns (failed: bool, lastBatch: seq<Row>)
      requires Valid() && pending == []
      modifies this
      ensures Valid() && pending == []
      ensures failed == (fault.Some? && fault.value.chunk == k)
      ensures failed && fault.value.phase.Write? ==> rows == old(rows) && nextId == old(nextId)
      ensures !(failed && fault.value.phase.Write?) ==>
        rows == old(rows) + StoreBatch(batch, old(nextId), now) && nextId == old(nextId) + |batch|
      ensures !failed ==> lastBatch == Reverse(StoreBatch(batch, old(nextId), now))
    {
      BulkSaveObjects(batch);
      if fault.Some? && fault.value.chunk == k && fault.value.phase.Write? {
        Rollback();
        return true, [];
      }
      Commit(now);
      if fault.Some? && fault.value.chunk == k && fault.value.phase.Reread? {
        Rollback();
        return true, [];
      }
      lastBatch := NewestFirst(|batch|);
      SuffixOfAppend(old(rows), StoreBatch(batch, old(nextId), now));
      failed := false;
    }

    /**
     * `POST /bulk`.  An empty payload is refused before anything is written.
     * Otherwise the chunks are committed in order; on success the answer is
     * every stored row in submission order, and on a failure the chunk in
     * progress is rolled back, earlier chunks stay, and the cause is reported.
     * `clock(k)` is the time chunk `k`'s transaction begins; `fault` is where, if
     * anywhere, the store fails.
     */
    method CreateLargeBulkRecords(payload: seq<NewRecord>, fault: Option<Fault>, clock: nat -> int)
      returns (r: Result<seq<Row>, Error>)
      requires Valid() && pending == []
      modifies this
      ensures Valid() && pending == []
      ensures payload == [] ==>
        r == Err(BadInput(NoRecordsProvided)) && rows == old(rows) && nextId == old(nextId)
      ensures payload != [] ==>
        var n := Committed(|payload|, fault);
        && rows == old(rows) + Persisted(payload, old(nextId), clock, n)
        && nextId == old(nextId) + n
        && r == if Aborts(|payload|, fault) then Err(StoreFailure(InsertFailed + fault.value.cause))
                else Ok(Persisted(payload, old(nextId), clock, |payload|))
    {
      var total := |payload|;
      if total == 0 {
        return Err(BadInput(NoRecordsProvided));
      }
      ghost var firstId, before := nextId, rows;
      var inserted: seq<Row> := [];
      var start := 0;
      ghost var k: nat, done: nat := 0, 0;
      while start < total
        invariant Valid() && pending == []
        invariant start == k * BatchSize && done == Min(start, total)
        invariant k == 0 || (k - 1) * BatchSize < total
        invariant fault.Some? ==> fault.value.chunk >= k
        invariant rows == before + Persisted(payload, firstId, clock, done)
        invariant nextId == firstId + done
        invariant inserted == Reverse(Persisted(payload, firstId, clock, done))
      {
        var end := Min(start + BatchSize, total);
        var batch := payload[start..end];
        ChunkIndexBelow(total, k);
        ChunkAdvances(payload, firstId, clock, k, start, end, before);
        var failed, lastBatch := InsertChunk(batch, start / BatchSize, fault, clock(start / BatchSize));
        if failed {
          CommittedAtFault(total, fault, k);
          assert Committed(total, fault) == if fault.value.phase.Write? then done else end;
          return Err(StoreFailure(InsertFailed + fault.value.cause));
        }
        inserted := lastBatch + inserted;
        start, k, done := start + BatchSize, k + 1, end;
      }
      ChunkCountReached(total, k);
      assert !Aborts(total, fault) && done == total;
      ReverseReverse(Persisted(payload, firstId, clock, total));
      return Ok(Reverse(inserted));
    }
  }

  /** Every chunk starts inside the payload. */
  lemma ChunkStartBelow(total: nat, k: nat)
    ensures k < NumChunks(total) ==> k * BatchSize < total
  {
  }

  /** A chunk the loop starts on is one of `range(0, total, BatchSize)`. */
  lemma ChunkIndexBelow(total: nat, k: nat)
    requires k * BatchSize < total
    ensures k < NumChunks(total) && (k * BatchSize) / BatchSize == k
  {
  }

  /** A fault on chunk `k` leaves the chunks before it, and after a commit chunk `k` too. */
  lemma CommittedAtFault(total: nat, fault: Option<Fault>, k: nat)
    requires fault.Some? && fault.value.chunk == k && k * BatchSize < total
    ensures Aborts(total, fault)
    ensures Committed(total, fault) == if fault.value.phase.Write? then k * BatchSize
                                       else Min(k * BatchSize + BatchSize, total)
  {
    ChunkIndexBelow(total, k);
  }

  /** When the loop ends, it has gone through every chunk. */
  lemma ChunkCountReached(total: nat, k: nat)
    requires k * BatchSize >= total && (k == 0 || (k - 1) * BatchSize < total)
    ensures k == NumChunks(total)
  {
  }

  /** Committing chunk `k` extends the stored prefix from `start` to `end` records. */
  lemma PersistedStep(payload: seq<NewRecord>, firstId: nat, clock: nat -> int, k: nat, start: nat, end: nat)
    requires start == k * BatchSize && end == Min(start + BatchSize, |payload|) && start < end
    ensures Persisted(payload, firstId, clock, start) + StoreBatch(payload[start..end], firstId + start, clock(k))
         == Persisted(payload, firstId, clock, end)
  {
    var lhs := Persisted(payload, firstId, clock, start) + StoreBatch(payload[start..end], firstId + start, clock(k));
    var rhs := Persisted(payload, firstId, clock, end);
    forall i | 0 <= i < end ensures lhs[i] == rhs[i] {
      if i >= start {
        assert i / BatchSize == k;
      }
    }
  }

  /** The loop's bookkeeping when chunk `k`, records `start..end`, is committed. */
  lemma ChunkAdvances(payload: seq<NewRecord>, firstId: nat, clock: nat -> int, k: nat, start: nat, end: nat,
                      before: seq<Row>)
    requires start == k * BatchSize && end == Min(start + BatchSize, |payload|) && start < end
    ensures var stored := StoreBatch(payload[start..end], firstId + start, clock(k));
      && before + Persisted(payload, firstId, clock, end) == (before + Persisted(payload, firstId, clock, start)) + stored
      && Reverse(Persisted(payload, firstId, clock, end)) == Reverse(stored) + Reverse(Persisted(payload, firstId, clock, start))
  {
    var prefix := Persisted(payload, firstId, clock, start);
    var stored := StoreBatch(payload[start..end], firstId + start, clock(k));
    PersistedStep(payload, firstId, clock, k, start, end);
    ConcatAssoc(before, prefix, stored);
    ReverseAppend(prefix, stored);
  }

  /** The last `m` rows, reversed, have descending ids, all above the rows before them. */
  lemma NewestSuffix(rows: seq<Row>, m: nat)
    requires IdsAscending(rows) && m <= |rows|
    ensures var last := Reverse(rows[|rows| - m..]);
      && |last| == m
      && (forall i, j :: 0 <= i < j < |last| ==> last[i].id > last[j].id)
      && (forall j, i :: 0 <= j < |rows| - |last| && 0 <= i < |last| ==> rows[j].id < last[i].id)
  {
    var last := Reverse(rows[|rows| - m..]);
    ReverseIndex(rows[|rows| - m..]);
    forall i | 0 <= i < m ensures last[i] == rows[|rows| - 1 - i] {
    }
  }

  /**
   * A successful request answers with one row per submitted record, in
   * submission order, with ascending ids and a non-null `created_at`: the
   * submitted instant, or else its chunk's transaction start time, both in UTC.
   */
  lemma BulkResultInSubmissionOrder(payload: seq<NewRecord>, firstId: nat, clock: nat -> int)
    ensures var rs := Persisted(payload, firstId, clock, |payload|);
      && |rs| == |payload|
      && IdsAscending(rs)
      && (forall i :: 0 <= i < |payload| ==> Keeps(rs[i], payload[i]) && rs[i].createdAt.Some?)
      && forall i :: 0 <= i < |payload| && payload[i].createdAt.None? ==>
           rs[i].createdAt == Some(DateTime(clock(i / BatchSize), Some(Utc)))
  {
    var rs := Persisted(payload, firstId, clock, |payload|);
    forall i | 0 <= i < |payload| ensures Keeps(rs[i], payload[i]) && rs[i].id == firstId + i {
      assert rs[i] == PersistedRow(payload, firstId, clock, i);
    }
  }
}
