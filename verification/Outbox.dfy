/** The transactional outbox: rows keyed by idempotency key, and the dispatcher that publishes them. */
module Outbox {
  import opened SeqFacts
  import opened LifecycleEvents

  const MAX_PUBLISH_ATTEMPTS := 5

  datatype OutboxStatus = PENDING | PUBLISHED | FAILED

  datatype OutboxRow = OutboxRow(message: Message, status: OutboxStatus, attempts: nat)

  type OutboxRows = map<EventKey, OutboxRow>

  /** What channel.publish did: accepted the message, reported backpressure, or threw. */
  datatype PublishResult = Delivered | Backpressure | Threw

  // ---- Effects on the rows, shared by the table below and by the protocol ----

  /** Creates the row unless one exists; an existing row keeps its message. */
  function Upserted(rows: OutboxRows, message: Message): OutboxRows {
    if message.key in rows then rows else rows[message.key := OutboxRow(message, PENDING, 0)]
  }

  function PublishedRow(row: OutboxRow): OutboxRow {
    row.(status := PUBLISHED, attempts := row.attempts + 1)
  }

  /** A failure computed from the dispatcher's copy of the row, which may be stale. */
  function FailedRow(row: OutboxRow, snapshot: OutboxRow): OutboxRow {
    row.(attempts := snapshot.attempts + 1,
         status := if snapshot.attempts + 1 >= MAX_PUBLISH_ATTEMPTS then FAILED else snapshot.status)
  }

  function MarkedPublished(rows: OutboxRows, key: EventKey): OutboxRows
    requires key in rows
  {
    rows[key := PublishedRow(rows[key])]
  }

  function MarkedFailed(rows: OutboxRows, snapshot: OutboxRow): OutboxRows
    requires snapshot.message.key in rows
  {
    rows[snapshot.message.key := FailedRow(rows[snapshot.message.key], snapshot)]
  }

  function Dispatched(rows: OutboxRows, snapshot: OutboxRow, result: PublishResult): OutboxRows
    requires snapshot.message.key in rows
  {
    if snapshot.status == PUBLISHED then rows
    else if result == Delivered then MarkedPublished(rows, snapshot.message.key)
    else MarkedFailed(rows, snapshot)
  }

  /** A row is retried while it has attempts left and is given up afterwards. */
  predicate AttemptsFit(row: OutboxRow) {
    && (row.status == PENDING ==> row.attempts < MAX_PUBLISH_ATTEMPTS)
    && (row.status == FAILED ==> row.attempts >= MAX_PUBLISH_ATTEMPTS)
  }

  /** Whatever the copy's age, dispatching keeps every row within its attempts. */
  lemma DispatchKeepsAttemptsFit(rows: OutboxRows, snapshot: OutboxRow, result: PublishResult)
    requires forall k :: k in rows ==> AttemptsFit(rows[k])
    requires snapshot.message.key in rows && AttemptsFit(snapshot)
    ensures forall k :: k in rows ==> AttemptsFit(Dispatched(rows, snapshot, result)[k])
  {
  }

  // ---- Dispatch cycles of a single dispatcher ----

  type Results = EventKey -> PublishResult

  predicate IsPending(rows: OutboxRows, key: EventKey) {
    key in rows && rows[key].status == PENDING && rows[key].attempts < MAX_PUBLISH_ATTEMPTS
  }

  /** The number of pending rows among the n oldest. */
  function PendingCount(created: seq<EventKey>, rows: OutboxRows, n: nat): nat
    requires n <= |created|
  {
    if n == 0 then 0
    else PendingCount(created, rows, n - 1) + if IsPending(rows, created[n - 1]) then 1 else 0
  }

  /** The i-th oldest row is among the oldest batchSize pending ones. */
  predicate InBatch(created: seq<EventKey>, rows: OutboxRows, batchSize: nat, i: nat) {
    i < |created| && IsPending(rows, created[i]) && PendingCount(created, rows, i) < batchSize
  }

  /** The batch among the n oldest rows, oldest first. */
  function Batch(created: seq<EventKey>, rows: OutboxRows, batchSize: nat, n: nat): seq<OutboxRow>
    requires n <= |created|
  {
    if n == 0 then []
    else
      var batch := Batch(created, rows, batchSize, n - 1);
      if IsPending(rows, created[n - 1]) && |batch| < batchSize then batch + [rows[created[n - 1]]] else batch
  }

  /** The messages of the rows whose publish succeeds, in order. */
  function DeliveredOf(batch: seq<OutboxRow>, results: Results): seq<Message> {
    if batch == [] then []
    else
      DeliveredOf(batch[..|batch| - 1], results)
      + if results(batch[|batch| - 1].message.key) == Delivered then [batch[|batch| - 1].message] else []
  }

  /** The key's row is in the batch because of one of the n oldest rows. */
  predicate InBatchUpTo(created: seq<EventKey>, rows: OutboxRows, batchSize: nat, n: nat, key: EventKey)
    requires n <= |created|
  {
    exists i :: 0 <= i < n && InBatch(created, rows, batchSize, i) && created[i] == key
  }

  predicate KeyInBatch(created: seq<EventKey>, rows: OutboxRows, batchSize: nat, key: EventKey) {
    InBatchUpTo(created, rows, batchSize, |created|, key)
  }

  /** The rows after one cycle: exactly the batch was dispatched, each row once. */
  function AfterCycle(created: seq<EventKey>, rows: OutboxRows, batchSize: nat, results: Results): OutboxRows {
    map k | k in rows :: if KeyInBatch(created, rows, batchSize, k) then DispatchedRow(rows[k], results(k)) else rows[k]
  }

  /** A row dispatched from an up-to-date copy. */
  function DispatchedRow(row: OutboxRow, result: PublishResult): OutboxRow {
    if row.status == PUBLISHED then row
    else if result == Delivered then PublishedRow(row)
    else FailedRow(row, row)
  }

  /** The rows after several cycles, the c-th of which sees the c-th results. */
  function AfterCycles(created: seq<EventKey>, rows: OutboxRows, batchSize: nat, results: seq<Results>): OutboxRows {
    if results == [] then rows
    else AfterCycles(created, AfterCycle(created, rows, batchSize, results[0]), batchSize, results[1..])
  }

  ghost predicate Stored(created: seq<EventKey>, rows: OutboxRows) {
    && Distinct(created)
    && (forall k :: k in created <==> k in rows)
    && (forall k :: k in rows ==> rows[k].message.key == k && AttemptsFit(rows[k]))
  }

  lemma CycleKeepsStored(created: seq<EventKey>, rows: OutboxRows, batchSize: nat, results: Results)
    requires Stored(created, rows)
    ensures Stored(created, AfterCycle(created, rows, batchSize, results))
  {
  }

  /** Fewer rows pending means fewer pending among the oldest. */
  lemma {:induction false} PendingCountMonotone(created: seq<EventKey>, rows: OutboxRows, after: OutboxRows, n: nat)
    requires n <= |created| && forall k :: IsPending(after, k) ==> IsPending(rows, k)
    ensures PendingCount(created, after, n) <= PendingCount(created, rows, n)
  {
    if n > 0 {
      PendingCountMonotone(created, rows, after, n - 1);
    }
  }

  /** A row of the batch either leaves PENDING or uses one more attempt and stays within the next batch. */
  lemma CycleAdvances(created: seq<EventKey>, rows: OutboxRows, batchSize: nat, results: Results, i: nat)
    requires Stored(created, rows) && InBatch(created, rows, batchSize, i)
    ensures var after := AfterCycle(created, rows, batchSize, results);
            IsPending(after, created[i]) ==>
              after[created[i]].attempts == rows[created[i]].attempts + 1 && InBatch(created, after, batchSize, i)
  {
    var after := AfterCycle(created, rows, batchSize, results);
    assert created[i] in created && KeyInBatch(created, rows, batchSize, created[i]);
    PendingCountMonotone(created, rows, after, i);
  }

  lemma {:induction false} CyclesAdvance(created: seq<EventKey>, rows: OutboxRows, batchSize: nat,
                                         results: seq<Results>, i: nat)
    requires Stored(created, rows) && i < |created|
    requires IsPending(rows, created[i]) ==> InBatch(created, rows, batchSize, i)
    ensures var after := AfterCycles(created, rows, batchSize, results);
            && Stored(created, after)
            && (IsPending(after, created[i]) ==>
                  IsPending(rows, created[i]) && after[created[i]].attempts >= rows[created[i]].attempts + |results|)
    decreases results
  {
    if results != [] {
      var next := AfterCycle(created, rows, batchSize, results[0]);
      CycleKeepsStored(created, rows, batchSize, results[0]);
      if IsPending(rows, created[i]) {
        CycleAdvances(created, rows, batchSize, results[0], i);
      }
      CyclesAdvance(created, next, batchSize, results[1..], i);
    }
  }

  lemma {:induction false} PendingOnlyShrinks(created: seq<EventKey>, rows: OutboxRows, batchSize: nat,
                                              results: seq<Results>, k: EventKey)
    requires IsPending(AfterCycles(created, rows, batchSize, results), k)
    ensures IsPending(rows, k)
    decreases results
  {
    if results != [] {
      PendingOnlyShrinks(created, AfterCycle(created, rows, batchSize, results[0]), batchSize, results[1..], k);
    }
  }

  lemma {:induction false} CountBeyondBatch(created: seq<EventKey>, rows: OutboxRows, after: OutboxRows,
                                            batchSize: nat, n: nat)
    requires n <= |created|
    requires forall i: nat :: i < |created| && IsPending(after, created[i]) ==>
                                IsPending(rows, created[i]) && PendingCount(created, rows, i) >= batchSize
    ensures PendingCount(created, after, n) + batchSize <= PendingCount(created, rows, n)
            || PendingCount(created, after, n) == 0
  {
    if n > 0 {
      CountBeyondBatch(created, rows, after, batchSize, n - 1);
    }
  }

  /** After five cycles the whole first batch has left PENDING. */
  lemma FiveCyclesClearBatch(created: seq<EventKey>, rows: OutboxRows, batchSize: nat, results: seq<Results>)
    requires Stored(created, rows) && |results| == MAX_PUBLISH_ATTEMPTS
    ensures var after := AfterCycles(created, rows, batchSize, results);
            && Stored(created, after)
            && (PendingCount(created, after, |created|) + batchSize <= PendingCount(created, rows, |created|)
                || PendingCount(created, after, |created|) == 0)
  {
    var after := AfterCycles(created, rows, batchSize, results);
    CyclesKeepStored(created, rows, batchSize, results);
    forall i: nat | i < |created| && IsPending(after, created[i])
      ensures IsPending(rows, created[i]) && PendingCount(created, rows, i) >= batchSize
    {
      PendingOnlyShrinks(created, rows, batchSize, results, created[i]);
      if PendingCount(created, rows, i) < batchSize {
        CyclesAdvance(created, rows, batchSize, results, i);
      }
    }
    CountBeyondBatch(created, rows, after, batchSize, |created|);
  }

  lemma {:induction false} CyclesKeepStored(created: seq<EventKey>, rows: OutboxRows, batchSize: nat,
                                            results: seq<Results>)
    requires Stored(created, rows)
    ensures Stored(created, AfterCycles(created, rows, batchSize, results))
    decreases results
  {
    if results != [] {
      CycleKeepsStored(created, rows, batchSize, results[0]);
      CyclesKeepStored(created, AfterCycle(created, rows, batchSize, results[0]), batchSize, results[1..]);
    }
  }

  lemma {:induction false} CyclesCompose(created: seq<EventKey>, rows: OutboxRows, batchSize: nat,
                                         first: seq<Results>, second: seq<Results>)
    ensures AfterCycles(created, rows, batchSize, first + second)
         == AfterCycles(created, AfterCycles(created, rows, batchSize, first), batchSize, second)
    decreases first
  {
    if first == [] {
      assert first + second == second;
    } else {
      assert (first + second)[1..] == first[1..] + second;
      CyclesCompose(created, AfterCycle(created, rows, batchSize, first[0]), batchSize, first[1..], second);
    }
  }

  /** Five cycles for every started batch of pending rows. */
  function DrainBound(pending: nat, batchSize: nat): nat
    requires batchSize > 0
  {
    if pending == 0 then 0
    else MAX_PUBLISH_ATTEMPTS + DrainBound(if pending >= batchSize then pending - batchSize else 0, batchSize)
  }

  /** The bound is five times the number of batches, rounded up. */
  lemma {:induction false} DrainBoundIsCeiling(pending: nat, batchSize: nat)
    requires batchSize > 0
    ensures DrainBound(pending, batchSize) == MAX_PUBLISH_ATTEMPTS * ((pending + batchSize - 1) / batchSize)
  {
    if pending >= batchSize {
      DrainBoundIsCeiling(pending - batchSize, batchSize);
      QuotientAfterOneMore(pending - 1, batchSize);
    } else {
      SmallQuotients(pending, batchSize);
    }
  }

  lemma QuotientAfterOneMore(a: nat, q: nat)
    requires q > 0
    ensures (a + q) / q == a / q + 1
  {
    var k, l := a / q, (a + q) / q;
    assert q * (l - k - 1) == a % q - (a + q) % q;
    NoMultipleBetween(l - k - 1, q);
  }

  lemma NoMultipleBetween(x: int, q: int)
    requires q > 0 && -q < q * x < q
    ensures x == 0
  {
  }

  lemma SmallQuotients(pending: nat, q: nat)
    requires pending < q
    ensures (pending + q - 1) / q == if pending == 0 then 0 else 1
  {
    if pending > 0 {
      QuotientAfterOneMore(pending - 1, q);
    }
  }

  lemma {:induction false} DrainBoundMonotone(m: nat, n: nat, batchSize: nat)
    requires batchSize > 0 && m <= n
    ensures DrainBound(m, batchSize) <= DrainBound(n, batchSize)
    decreases n
  {
    if m > 0 {
      DrainBoundMonotone(if m >= batchSize then m - batchSize else 0, if n >= batchSize then n - batchSize else 0,
                         batchSize);
    }
  }

  /**
   * With no arrivals and one dispatcher, no row is pending after five cycles
   * for every started batch of pending rows, whatever the publish results.
   */
  lemma {:induction false} DrainsWithinBound(created: seq<EventKey>, rows: OutboxRows, batchSize: nat,
                                             results: seq<Results>)
    requires Stored(created, rows) && batchSize > 0
    requires |results| >= DrainBound(PendingCount(created, rows, |created|), batchSize)
    ensures forall k :: k in rows ==> !IsPending(AfterCycles(created, rows, batchSize, results), k)
    decreases |results|
  {
    var pending := PendingCount(created, rows, |created|);
    if pending == 0 {
      NonePendingStays(created, rows, batchSize, results);
    } else {
      var first, rest := results[..MAX_PUBLISH_ATTEMPTS], results[MAX_PUBLISH_ATTEMPTS..];
      assert results == first + rest;
      var after := AfterCycles(created, rows, batchSize, first);
      CyclesCompose(created, rows, batchSize, first, rest);
      FiveCyclesClearBatch(created, rows, batchSize, first);
      var left := PendingCount(created, after, |created|);
      DrainBoundMonotone(left, if pending >= batchSize then pending - batchSize else 0, batchSize);
      DrainsWithinBound(created, after, batchSize, rest);
    }
  }

  lemma NonePendingStays(created: seq<EventKey>, rows: OutboxRows, batchSize: nat, results: seq<Results>)
    requires Stored(created, rows) && PendingCount(created, rows, |created|) == 0
    ensures forall k :: k in rows ==> !IsPending(AfterCycles(created, rows, batchSize, results), k)
  {
    NoneCounted(created, rows, |created|);
    forall k | k in rows && IsPending(AfterCycles(created, rows, batchSize, results), k) ensures IsPending(rows, k) {
      PendingOnlyShrinks(created, rows, batchSize, results, k);
    }
    assert forall k :: k in rows ==> k in created;
  }

  lemma {:induction false} NoneCounted(created: seq<EventKey>, rows: OutboxRows, n: nat)
    requires n <= |created| && PendingCount(created, rows, n) == 0
    ensures forall i :: 0 <= i < n ==> !IsPending(rows, created[i])
  {
    if n > 0 {
      NoneCounted(created, rows, n - 1);
    }
  }

  /** The publishing attempts the pending rows have left. */
  function AttemptsLeft(created: seq<EventKey>, rows: OutboxRows, n: nat): nat
    requires n <= |created|
  {
    if n == 0 then 0
    else
      AttemptsLeft(created, rows, n - 1)
      + if IsPending(rows, created[n - 1]) then MAX_PUBLISH_ATTEMPTS - rows[created[n - 1]].attempts else 0
  }

  function Min(a: nat, b: nat): nat {
    if a <= b then a else b
  }

  /** Every dispatched row costs at least one of the attempts left. */
  lemma {:induction false} CycleUsesAttempts(created: seq<EventKey>, rows: OutboxRows, batchSize: nat,
                                             results: Results, n: nat)
    requires Stored(created, rows) && n <= |created|
    ensures AttemptsLeft(created, AfterCycle(created, rows, batchSize, results), n)
            + Min(batchSize, PendingCount(created, rows, n)) <= AttemptsLeft(created, rows, n)
  {
    if n > 0 {
      CycleUsesAttempts(created, rows, batchSize, results, n - 1);
      var k := created[n - 1];
      assert k in created;
      if InBatch(created, rows, batchSize, n - 1) {
        assert KeyInBatch(created, rows, batchSize, k);
      } else {
        assert !KeyInBatch(created, rows, batchSize, k) by {
          forall i | 0 <= i < |created| && created[i] == k ensures i == n - 1 {
          }
        }
      }
    }
  }

  /** A batch holds up-to-date copies of pending rows, each once. */
  predicate BatchIsSound(rows: OutboxRows, batch: seq<OutboxRow>) {
    && Distinct(batch)
    && forall i :: 0 <= i < |batch| ==> IsCurrentPending(rows, batch[i])
  }

  predicate IsCurrentPending(rows: OutboxRows, row: OutboxRow) {
    row.message.key in rows && row == rows[row.message.key] && row.status == PENDING
  }

  lemma {:induction false} BatchSize(created: seq<EventKey>, rows: OutboxRows, batchSize: nat, n: nat)
    requires Stored(created, rows) && n <= |created|
    ensures |Batch(created, rows, batchSize, n)| == Min(batchSize, PendingCount(created, rows, n))
  {
    if n > 0 {
      BatchSize(created, rows, batchSize, n - 1);
    }
  }

  /** A row is in the batch exactly when it is among the oldest pending ones. */
  lemma {:induction false} BatchIsComplete(created: seq<EventKey>, rows: OutboxRows, batchSize: nat, n: nat,
                                           k: EventKey)
    requires Stored(created, rows) && n <= |created|
    requires k in rows
    ensures rows[k] in Batch(created, rows, batchSize, n) <==> InBatchUpTo(created, rows, batchSize, n, k)
  {
    if n > 0 {
      BatchIsComplete(created, rows, batchSize, n - 1, k);
      BatchSize(created, rows, batchSize, n - 1);
      assert created[n - 1] in created;
      assert InBatchUpTo(created, rows, batchSize, n, k) <==>
               InBatchUpTo(created, rows, batchSize, n - 1, k)
               || (InBatch(created, rows, batchSize, n - 1) && created[n - 1] == k);
    }
  }

  lemma {:induction false} BatchSound(created: seq<EventKey>, rows: OutboxRows, batchSize: nat, n: nat)
    requires Stored(created, rows) && n <= |created|
    ensures BatchIsSound(rows, Batch(created, rows, batchSize, n))
  {
    if n > 0 {
      BatchSound(created, rows, batchSize, n - 1);
      var batch, k := Batch(created, rows, batchSize, n - 1), created[n - 1];
      assert k in created;
      BatchIsComplete(created, rows, batchSize, n - 1, k);
      assert rows[k] !in batch;
    }
  }

  /** The given rows, and no others, have been dispatched. */
  ghost predicate PartlyDispatched(before: OutboxRows, rows: OutboxRows, done: seq<OutboxRow>, results: Results) {
    && rows.Keys == before.Keys
    && forall k :: k in rows ==>
        rows[k] == if before[k] in done then DispatchedRow(before[k], results(k)) else before[k]
  }

  lemma DispatchOneMore(before: OutboxRows, rows: OutboxRows, batch: seq<OutboxRow>, i: nat, results: Results)
    requires i < |batch| && Distinct(batch) && PartlyDispatched(before, rows, batch[..i], results)
    requires forall k :: k in before ==> before[k].message.key == k
    requires batch[i].message.key in before && batch[i] == before[batch[i].message.key]
    ensures rows[batch[i].message.key] == batch[i]
    ensures PartlyDispatched(before, Dispatched(rows, batch[i], results(batch[i].message.key)), batch[..i + 1], results)
  {
    assert batch[..i + 1] == batch[..i] + [batch[i]];
    assert batch[i] !in batch[..i];
  }

  /** After i rows of the batch: those were dispatched, and sent holds what the channel accepted meanwhile. */
  ghost predicate CycleAt(before: OutboxRows, rows: OutboxRows, batch: seq<OutboxRow>, i: nat, results: Results,
                          sent: seq<Message>) {
    && i <= |batch|
    && PartlyDispatched(before, rows, batch[..i], results)
    && sent == DeliveredOf(batch[..i], results)
  }

  lemma CycleGoesOn(before: OutboxRows, rows: OutboxRows, batch: seq<OutboxRow>, i: nat, results: Results,
                    sent: seq<Message>)
    requires BatchIsSound(before, batch) && forall k :: k in before ==> before[k].message.key == k
    requires i < |batch| && CycleAt(before, rows, batch, i, results, sent)
    ensures batch[i].message.key in rows && rows[batch[i].message.key] == batch[i] && batch[i].status == PENDING
    ensures var result := results(batch[i].message.key);
            CycleAt(before, Dispatched(rows, batch[i], result), batch, i + 1, results,
                    if result == Delivered then sent + [batch[i].message] else sent)
  {
    assert IsCurrentPending(before, batch[i]);
    DispatchOneMore(before, rows, batch, i, results);
    DeliverOneMore(batch, i, results);
  }

  lemma CycleEnds(created: seq<EventKey>, before: OutboxRows, rows: OutboxRows, batchSize: nat, results: Results)
    requires Stored(created, before)
    requires PartlyDispatched(before, rows, Batch(created, before, batchSize, |created|), results)
    ensures rows == AfterCycle(created, before, batchSize, results)
  {
    forall k | k in before
      ensures before[k] in Batch(created, before, batchSize, |created|) <==> KeyInBatch(created, before, batchSize, k)
    {
      BatchIsComplete(created, before, batchSize, |created|, k);
    }
  }

  lemma AppendLast<T>(a: seq<T>, b: seq<T>, x: T)
    ensures (a + b) + [x] == a + (b + [x])
  {
  }

  lemma DeliverOneMore(batch: seq<OutboxRow>, i: nat, results: Results)
    requires i < |batch|
    ensures DeliveredOf(batch[..i + 1], results)
         == DeliveredOf(batch[..i], results) + if results(batch[i].message.key) == Delivered then [batch[i].message]
             else []
  {
    assert batch[..i + 1][..i] == batch[..i];
  }

  // ---- Oldest first ----

  predicate CreatedBefore(created: seq<EventKey>, a: EventKey, b: EventKey) {
    exists i, j :: 0 <= i < j < |created| && created[i] == a && created[j] == b
  }

  /** The pending rows older than k's. */
  function PendingBefore(created: seq<EventKey>, rows: OutboxRows, k: EventKey): set<EventKey> {
    set q | q in rows && rows[q].status == PENDING && rows[q].attempts < 5 && CreatedBefore(created, q, k)
  }

  /** The row is pending and fewer than batchSize pending rows are older. */
  predicate IsDue(created: seq<EventKey>, rows: OutboxRows, batchSize: nat, k: EventKey) {
    && k in rows && rows[k].status == PENDING && rows[k].attempts < 5
    && |PendingBefore(created, rows, k)| < batchSize
  }

  function PendingAmong(created: seq<EventKey>, rows: OutboxRows, n: nat): set<EventKey>
    requires n <= |created|
  {
    set q | q in created[..n] && IsPending(rows, q)
  }

  lemma OneMoreAmong(created: seq<EventKey>, rows: OutboxRows, n: nat)
    requires Distinct(created) && n < |created|
    ensures |PendingAmong(created, rows, n + 1)|
         == |PendingAmong(created, rows, n)| + if IsPending(rows, created[n]) then 1 else 0
  {
    var among, more := PendingAmong(created, rows, n), PendingAmong(created, rows, n + 1);
    assert created[..n + 1] == created[..n] + [created[n]];
    assert more == if IsPending(rows, created[n]) then among + {created[n]} else among;
  }

  lemma {:induction false} PendingCountIs(created: seq<EventKey>, rows: OutboxRows, n: nat)
    requires Distinct(created) && n <= |created|
    ensures |PendingAmong(created, rows, n)| == PendingCount(created, rows, n)
  {
    if n == 0 {
      assert PendingAmong(created, rows, n) == {};
    } else {
      PendingCountIs(created, rows, n - 1);
      OneMoreAmong(created, rows, n - 1);
    }
  }

  lemma PendingBeforeIs(created: seq<EventKey>, rows: OutboxRows, n: nat)
    requires Stored(created, rows) && n < |created|
    ensures |PendingBefore(created, rows, created[n])| == PendingCount(created, rows, n)
  {
    PendingCountIs(created, rows, n);
    forall q ensures CreatedBefore(created, q, created[n]) <==> q in created[..n] {
      if q in created[..n] {
        var i :| 0 <= i < n && created[..n][i] == q;
        assert created[i] == q;
      }
    }
    assert PendingBefore(created, rows, created[n]) == PendingAmong(created, rows, n);
  }

  /** The batch is what is due. */
  lemma DueIffInBatch(created: seq<EventKey>, rows: OutboxRows, batchSize: nat, k: EventKey)
    requires Stored(created, rows)
    ensures KeyInBatch(created, rows, batchSize, k) <==> IsDue(created, rows, batchSize, k)
  {
    if k in created {
      var n :| 0 <= n < |created| && created[n] == k;
      PendingBeforeIs(created, rows, n);
      assert KeyInBatch(created, rows, batchSize, k) <==> InBatch(created, rows, batchSize, n);
    }
  }

  predicate InCreationOrder(created: seq<EventKey>, messages: seq<Message>) {
    forall i, j :: 0 <= i < j < |messages| ==> CreatedBefore(created, messages[i].key, messages[j].key)
  }

  function MessagesIn(batch: seq<OutboxRow>): (messages: seq<Message>)
    ensures |messages| == |batch| && forall i :: 0 <= i < |batch| ==> messages[i] == batch[i].message
  {
    seq(|batch|, i requires 0 <= i < |batch| => batch[i].message)
  }

  lemma {:induction false} BatchIsOldestFirst(created: seq<EventKey>, rows: OutboxRows, batchSize: nat, n: nat)
    requires Stored(created, rows) && n <= |created|
    ensures var batch := Batch(created, rows, batchSize, n);
            && InCreationOrder(created, MessagesIn(batch))
            && forall row :: row in batch ==> row.message.key in created[..n] && row == rows[row.message.key]
  {
    if n > 0 {
      BatchIsOldestFirst(created, rows, batchSize, n - 1);
      var before, batch := Batch(created, rows, batchSize, n - 1), Batch(created, rows, batchSize, n);
      assert created[..n] == created[..n - 1] + [created[n - 1]] && created[n - 1] in created;
      forall i, j | 0 <= i < j < |batch| ensures CreatedBefore(created, batch[i].message.key, batch[j].message.key) {
        if j == |before| {
          assert before[i] in before;
          var x :| 0 <= x < n - 1 && created[..n - 1][x] == before[i].message.key;
          assert created[x] == batch[i].message.key && created[n - 1] == batch[j].message.key;
        } else {
          assert CreatedBefore(created, MessagesIn(before)[i].key, MessagesIn(before)[j].key);
        }
      }
    }
  }

  /** What is delivered of a batch: the messages of its rows with that result, in the batch's order. */
  lemma {:induction false} DeliveredKeepsOrder(created: seq<EventKey>, batch: seq<OutboxRow>, results: Results)
    requires InCreationOrder(created, MessagesIn(batch))
    ensures InCreationOrder(created, DeliveredOf(batch, results))
    ensures forall m :: m in DeliveredOf(batch, results) <==> m in MessagesIn(batch) && results(m.key) == Delivered
    decreases |batch|
  {
    if batch != [] {
      var front, last := batch[..|batch| - 1], batch[|batch| - 1];
      assert MessagesIn(batch) == MessagesIn(front) + [last.message];
      assert forall i :: 0 <= i < |front| ==> MessagesIn(front)[i] == MessagesIn(batch)[i];
      DeliveredKeepsOrder(created, front, results);
      forall m | m in DeliveredOf(front, results) ensures CreatedBefore(created, m.key, last.message.key) {
        var i :| 0 <= i < |front| && MessagesIn(front)[i] == m;
        assert CreatedBefore(created, MessagesIn(batch)[i].key, MessagesIn(batch)[|front|].key);
      }
    }
  }

  /** A cycle's effect on a row: one attempt more if it was due, and the status that follows from the result. */
  lemma CycleChanges(created: seq<EventKey>, rows: OutboxRows, batchSize: nat, results: Results, k: EventKey)
    requires Stored(created, rows) && k in rows
    ensures var row, after := rows[k], AfterCycle(created, rows, batchSize, results)[k];
            && after.message == row.message
            && (!IsDue(created, rows, batchSize, k) ==> after == row)
            && (IsDue(created, rows, batchSize, k) ==>
                  && after.attempts == row.attempts + 1
                  && after.status == if results(k) == Delivered then PUBLISHED
                                     else if row.attempts + 1 >= 5 then FAILED else PENDING)
  {
    DueIffInBatch(created, rows, batchSize, k);
  }

  /** A cycle delivers the messages of the due rows whose publish succeeds, oldest first. */
  lemma CycleDelivers(created: seq<EventKey>, rows: OutboxRows, batchSize: nat, results: Results)
    requires Stored(created, rows)
    ensures var sent := DeliveredOf(Batch(created, rows, batchSize, |created|), results);
            && InCreationOrder(created, sent)
            && forall m :: m in sent <==>
                 IsDue(created, rows, batchSize, m.key) && m == rows[m.key].message && results(m.key) == Delivered
  {
    var batch := Batch(created, rows, batchSize, |created|);
    BatchIsOldestFirst(created, rows, batchSize, |created|);
    DeliveredKeepsOrder(created, batch, results);
    forall m ensures m in MessagesIn(batch) <==> IsDue(created, rows, batchSize, m.key) && m == rows[m.key].message {
      InBatchIffDue(created, rows, batchSize, m);
    }
  }

  lemma InBatchIffDue(created: seq<EventKey>, rows: OutboxRows, batchSize: nat, m: Message)
    requires Stored(created, rows)
    ensures m in MessagesIn(Batch(created, rows, batchSize, |created|)) <==>
              IsDue(created, rows, batchSize, m.key) && m == rows[m.key].message
  {
    var batch := Batch(created, rows, batchSize, |created|);
    BatchIsOldestFirst(created, rows, batchSize, |created|);
    DueIffInBatch(created, rows, batchSize, m.key);
    if m.key in rows {
      BatchIsComplete(created, rows, batchSize, |created|, m.key);
    }
    if m in MessagesIn(batch) {
      var i :| 0 <= i < |batch| && MessagesIn(batch)[i] == m;
      assert batch[i] in batch;
    }
    if IsDue(created, rows, batchSize, m.key) && m == rows[m.key].message {
      var i :| 0 <= i < |batch| && batch[i] == rows[m.key];
      assert MessagesIn(batch)[i] == m;
    }
  }

  // ---- The table ----

  class OutboxTable {
    var rows: OutboxRows
    /** The keys in order of creation. */
    var created: seq<EventKey>
    /** The messages the channel accepted, in order. */
    var accepted: seq<Message>

    ghost predicate Valid()
      reads this
    {
      Stored(created, rows)
    }

    constructor ()
      ensures Valid() && rows == map[] && created == [] && accepted == []
    {
      rows, created, accepted := map[], [], [];
    }

    /** Upserts by idempotency key and returns the stored row. */
    method PersistOutboxEvent(message: Message) returns (row: OutboxRow)
      requires Valid()
      modifies this
      ensures Valid() && rows == Upserted(old(rows), message) && row == rows[message.key]
      ensures row == if message.key in old(rows) then old(rows)[message.key] else OutboxRow(message, PENDING, 0)
      ensures created == if message.key in old(rows) then old(created) else old(created) + [message.key]
      ensures accepted == old(accepted)
    {
      if message.key !in rows {
        rows := rows[message.key := OutboxRow(message, PENDING, 0)];
        created := created + [message.key];
      }
      row := rows[message.key];
    }

    /** Publishes a copy of a row unless the copy says it was published, then records how that went. */
    method DispatchOutboxEvent(snapshot: OutboxRow, result: PublishResult) returns (ok: bool)
      requires Valid() && snapshot.message.key in rows && AttemptsFit(snapshot)
      modifies this
      ensures Valid() && rows == Dispatched(old(rows), snapshot, result) && created == old(created)
      ensures rows.Keys == old(rows).Keys
      ensures forall k :: k in rows && k != snapshot.message.key ==> rows[k] == old(rows)[k]
      ensures var row, was := rows[snapshot.message.key], old(rows)[snapshot.message.key];
              && row.message == was.message
              && (ok && snapshot.status != PUBLISHED ==> row.status == PUBLISHED && row.attempts == was.attempts + 1)
              && (ok && snapshot.status == PUBLISHED ==> row == was)
              && (!ok ==> row.attempts == snapshot.attempts + 1
                          && row.status == if snapshot.attempts + 1 >= 5 then FAILED else snapshot.status)
      ensures ok <==> snapshot.status == PUBLISHED || result == Delivered
      ensures accepted == if snapshot.status != PUBLISHED && result == Delivered then old(accepted) + [snapshot.message]
                          else old(accepted)
    {
      if snapshot.status == PUBLISHED {
        return true;
      }
      if result != Delivered {
        rows := MarkedFailed(rows, snapshot);
        return false;
      }
      accepted := accepted + [snapshot.message];
      rows := MarkedPublished(rows, snapshot.message.key);
      return true;
    }

    /** The oldest pending rows, at most batchSize of them. */
    method FindPending(batchSize: nat) returns (batch: seq<OutboxRow>)
      requires Valid()
      ensures batch == Batch(created, rows, batchSize, |created|)
      ensures BatchIsSound(rows, batch) && |batch| == Min(batchSize, PendingCount(created, rows, |created|))
      ensures forall k :: k in rows ==> (rows[k] in batch <==> IsDue(created, rows, batchSize, k))
      ensures InCreationOrder(created, MessagesIn(batch))
    {
      batch := [];
      for i := 0 to |created|
        invariant batch == Batch(created, rows, batchSize, i)
      {
        assert created[i] in created;
        if IsPending(rows, created[i]) && |batch| < batchSize {
          batch := batch + [rows[created[i]]];
        }
      }
      BatchSound(created, rows, batchSize, |created|);
      BatchSize(created, rows, batchSize, |created|);
      BatchIsOldestFirst(created, rows, batchSize, |created|);
      forall k | k in rows ensures rows[k] in batch <==> IsDue(created, rows, batchSize, k) {
        BatchIsComplete(created, rows, batchSize, |created|, k);
        DueIffInBatch(created, rows, batchSize, k);
      }
    }

    /** Dispatches the rows of a batch one after the other, and goes on after a failure. */
    method DispatchBatch(batch: seq<OutboxRow>, results: Results) returns (failed: nat, published: nat)
      requires Valid() && BatchIsSound(rows, batch)
      modifies this
      ensures Valid() && created == old(created) && PartlyDispatched(old(rows), rows, batch, results)
      ensures accepted == old(accepted) + DeliveredOf(batch, results)
      ensures published == |DeliveredOf(batch, results)| && failed == |batch| - published
    {
      failed, published := 0, 0;
      ghost var before, said, sent: seq<Message> := rows, accepted, [];
      for i := 0 to |batch|
        invariant Valid() && created == old(created) && failed + published == i
        invariant CycleAt(before, rows, batch, i, results, sent)
        invariant accepted == said + sent && published == |sent|
      {
        CycleGoesOn(before, rows, batch, i, results, sent);
        var ok := DispatchOutboxEvent(batch[i], results(batch[i].message.key));
        if ok {
          published := published + 1;
          AppendLast(said, sent, batch[i].message);
          sent := sent + [batch[i].message];
        } else {
          failed := failed + 1;
        }
      }
      assert batch[..|batch|] == batch;
    }

    /** One dispatch cycle over the oldest pending rows. */
    method DispatchPendingOutboxMessages(batchSize: nat, results: Results)
      returns (fetched: nat, failed: nat, published: nat)
      requires Valid()
      modifies this
      ensures Valid() && created == old(created)
      ensures rows == AfterCycle(old(created), old(rows), batchSize, results) && rows.Keys == old(rows).Keys
      ensures forall k :: k in old(rows) && IsDue(old(created), old(rows), batchSize, k) ==>
                && rows[k].message == old(rows)[k].message && rows[k].attempts == old(rows)[k].attempts + 1
                && rows[k].status == if results(k) == Delivered then PUBLISHED
                                     else if old(rows)[k].attempts + 1 >= 5 then FAILED else PENDING
      ensures forall k :: k in old(rows) && !IsDue(old(created), old(rows), batchSize, k) ==> rows[k] == old(rows)[k]
      ensures fetched == failed + published == Min(batchSize, PendingCount(old(created), old(rows), |old(created)|))
      ensures old(accepted) <= accepted && published == |accepted| - |old(accepted)|
      ensures var sent := accepted[|old(accepted)|..];
              && InCreationOrder(old(created), sent)
              && forall m :: m in sent <==>
                   && IsDue(old(created), old(rows), batchSize, m.key) && m == old(rows)[m.key].message
                   && results(m.key) == Delivered
    {
      CycleDelivers(created, rows, batchSize, results);
      forall k | k in rows {
        CycleChanges(created, rows, batchSize, results, k);
      }
      var batch := FindPending(batchSize);
      failed, published := DispatchBatch(batch, results);
      CycleEnds(created, old(rows), rows, batchSize, results);
      fetched := |batch|;
    }
  }
}
