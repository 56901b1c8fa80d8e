/**
 The two tables as values, the effect of every statement the repository sends to them, and
 the consistency of rows with the audit log. `Repository` proves its methods against these
 functions and `Protocol` uses them as the effects of its steps.
 */
module Tables {
  import opened Models
  import opened Lifecycle

  datatype Db = Db(rows: map<RequestId, Row>, events: seq<Event>)

  const EMPTY := Db(map[], [])

  /** The audit log of one request, in the order of `event_id`. */
  function LogOf(events: seq<Event>, id: RequestId): (log: seq<Event>) {
    if |events| == 0 then []
    else
      var rest := LogOf(events[..|events| - 1], id);
      if events[|events| - 1].requestId == id then rest + [events[|events| - 1]] else rest
  }

  lemma LogAppend(events: seq<Event>, e: Event, id: RequestId)
    ensures LogOf(events + [e], id) ==
            if e.requestId == id then LogOf(events, id) + [e] else LogOf(events, id)
  {
    assert (events + [e])[..|events|] == events;
  }

  lemma {:induction false} LogIsOfRequest(events: seq<Event>, id: RequestId)
    ensures forall k :: 0 <= k < |LogOf(events, id)| ==>
              LogOf(events, id)[k] in events && LogOf(events, id)[k].requestId == id
  {
    if |events| > 0 {
      LogIsOfRequest(events[..|events| - 1], id);
    }
  }

  // ----- Statements

  /** Every statement writes one row together with the event that reports its new state. */
  function Put(db: Db, id: RequestId, row: Row): Db {
    Db(db.rows[id := row], db.events + [EventFor(id, row)])
  }

  function EventFor(id: RequestId, row: Row): Event {
    Event(id, row.status, row.detail, row.updatedAt)
  }

  function NewRow(id: RequestId, request: AutomationRequest, now: Instant): Row {
    Row(id, request, Queued, Submitted, 0, Some(now), now, now)
  }

  /** A claim by a query that returned `seen` attempts; the retry time stays as it was. */
  function Claimed(row: Row, seen: int, now: Instant): Row {
    row.(status := Running, detail := Started(seen + 1), attemptCount := seen + 1, updatedAt := now)
  }

  /** `update_status`: the new status and detail, and no retry time. */
  function WithStatus(row: Row, status: Status, detail: Detail, now: Instant): Row {
    row.(status := status, detail := detail, nextAttemptAt := None, updatedAt := now)
  }

  /** The update half of `fail_or_retry`; `attempt` and `budget` are what its select returned. */
  function FailedRow(row: Row, attempt: int, budget: int, cause: string, delay: int, now: Instant): Row {
    if attempt >= budget then
      row.(status := DeadLetter, detail := Buried(attempt, cause), nextAttemptAt := None, updatedAt := now)
    else
      row.(status := Retrying, detail := RetryScheduled(attempt, cause),
           nextAttemptAt := Some(now + Seconds(delay)), updatedAt := now)
  }

  function RequeuedRow(row: Row, now: Instant): Row {
    row.(status := Queued, detail := ReplayRequested, attemptCount := 0, nextAttemptAt := Some(now), updatedAt := now)
  }

  predicate KeyTaken(rows: map<RequestId, Row>, key: string) {
    exists id :: id in rows && rows[id].fields.idempotencyKey == Some(key)
  }

  /** A primary-key or unique-key violation of the insert. */
  predicate Violates(rows: map<RequestId, Row>, id: RequestId, request: AutomationRequest) {
    id in rows || (request.idempotencyKey.Some? && KeyTaken(rows, request.idempotencyKey.value))
  }

  /** Rows that a claiming query can lock: eligible and not locked by another transaction. */
  predicate Takeable(rows: map<RequestId, Row>, locked: set<RequestId>, id: RequestId, now: Instant) {
    id in rows && Eligible(rows[id], now) && id !in locked
  }

  /** What `ORDER BY created_at LIMIT 1` may return. */
  predicate First(rows: map<RequestId, Row>, locked: set<RequestId>, id: RequestId, now: Instant) {
    && Takeable(rows, locked, id, now)
    && forall i :: i in rows && Takeable(rows, locked, i, now) ==> rows[id].createdAt <= rows[i].createdAt
  }

  lemma {:induction false} OldestExists(rows: map<RequestId, Row>, items: set<RequestId>) returns (oldest: RequestId)
    requires items != {} && items <= rows.Keys
    ensures oldest in items
    ensures forall i :: i in items ==> rows[oldest].createdAt <= rows[i].createdAt
    decreases |items|
  {
    oldest :| oldest in items;
    var rest := items - {oldest};
    if rest != {} {
      var other := OldestExists(rows, rest);
      if rows[other].createdAt < rows[oldest].createdAt {
        oldest := other;
      }
    }
  }

  lemma FirstExists(rows: map<RequestId, Row>, locked: set<RequestId>, id: RequestId, now: Instant)
    requires Takeable(rows, locked, id, now)
    ensures exists i :: i in rows && First(rows, locked, i, now)
  {
    var takeable := set i | i in rows && Takeable(rows, locked, i, now);
    assert id in takeable;
    var oldest := OldestExists(rows, takeable);
    assert First(rows, locked, oldest, now);
  }

  // ----- Consistency

  /** The part of a row that the audit log determines. */
  ghost predicate LogDescribes(log: seq<Event>, row: Row) {
    && Rebuild(log, row.fields.maxAttempts).Some?
    && var life := Rebuild(log, row.fields.maxAttempts).value;
       && life.status == row.status
       && life.detail == row.detail
       && life.attempts == row.attemptCount
       && life.createdAt == row.createdAt
       && life.updatedAt == row.updatedAt
  }

  /** When the retry time is present; a claim keeps the one it was gated on. */
  predicate RetryTimeOk(row: Row) {
    && (row.status.Waiting() ==> row.nextAttemptAt.Some?)
    && (row.status.Running? ==> row.nextAttemptAt.Some? && row.nextAttemptAt.value <= row.updatedAt)
    && (row.status.Completed? || row.status.DeadLetter? ==> row.nextAttemptAt.None?)
  }

  ghost predicate RowOk(db: Db, id: RequestId)
    requires id in db.rows
  {
    && db.rows[id].id == id
    && LogDescribes(LogOf(db.events, id), db.rows[id])
    && RetryTimeOk(db.rows[id])
  }

  predicate SameKey(a: Row, b: Row) {
    a.fields.idempotencyKey.Some? && a.fields.idempotencyKey == b.fields.idempotencyKey
  }

  ghost predicate UniqueKeys(rows: map<RequestId, Row>) {
    forall i, j {:trigger SameKey(rows[i], rows[j])} ::
      i in rows && j in rows && SameKey(rows[i], rows[j]) ==> i == j
  }

  ghost predicate NoOrphans(db: Db) {
    forall k :: 0 <= k < |db.events| ==> db.events[k].requestId in db.rows
  }

  ghost predicate Consistent(db: Db) {
    && (forall id {:trigger RowOk(db, id)} :: id in db.rows ==> RowOk(db, id))
    && UniqueKeys(db.rows)
    && NoOrphans(db)
  }

  /** The replay cycle of a request, read off its log. */
  function Cycle(db: Db, id: RequestId): int {
    CountOf(LogOf(db.events, id), Queued) - 1
  }

  lemma {:induction false} NoLogWithoutRow(events: seq<Event>, id: RequestId)
    requires forall k :: 0 <= k < |events| ==> events[k].requestId != id
    ensures LogOf(events, id) == []
  {
    if |events| > 0 {
      NoLogWithoutRow(events[..|events| - 1], id);
    }
  }

  // ----- What each statement does to a consistent database

  lemma PutLog(db: Db, id: RequestId, row: Row, i: RequestId)
    ensures LogOf(Put(db, id, row).events, i) ==
            if i == id then LogOf(db.events, i) + [EventFor(id, row)] else LogOf(db.events, i)
  {
    LogAppend(db.events, EventFor(id, row), i);
  }

  /** Only a QUEUED event opens a cycle, and only for its own request. */
  lemma PutCycle(db: Db, id: RequestId, row: Row, i: RequestId)
    ensures Cycle(Put(db, id, row), i) == Cycle(db, i) + (if i == id && row.status.Queued? then 1 else 0)
  {
    PutLog(db, id, row, i);
    CountAppend(LogOf(db.events, i), EventFor(id, row), Queued);
  }

  lemma PutKeepsOthers(db: Db, id: RequestId, row: Row, i: RequestId)
    requires i in db.rows && i != id && RowOk(db, i)
    ensures RowOk(Put(db, id, row), i)
  {
    PutLog(db, id, row, i);
  }

  lemma PutKeepsTables(db: Db, id: RequestId, row: Row)
    requires NoOrphans(db) && UniqueKeys(db.rows)
    requires if id in db.rows then row.fields == db.rows[id].fields else !Violates(db.rows, id, row.fields)
    ensures NoOrphans(Put(db, id, row)) && UniqueKeys(Put(db, id, row).rows)
  {
    var rows' := Put(db, id, row).rows;
    forall i, j | i in rows' && j in rows' && SameKey(rows'[i], rows'[j]) ensures i == j {
      if id in db.rows || (i != id && j != id) {
        assert SameKey(db.rows[i], db.rows[j]);
      }
    }
  }

  /** Consistency after a statement on an existing row hinges on that row alone. */
  lemma PutConsistentIff(db: Db, id: RequestId, row: Row)
    requires Consistent(db) && id in db.rows
    requires row.id == id && row.fields == db.rows[id].fields && row.createdAt == db.rows[id].createdAt
    ensures RowOk(db, id)
    ensures Consistent(Put(db, id, row)) <==>
            var life := Rebuild(LogOf(db.events, id), row.fields.maxAttempts).value;
            var advanced := Advance(life, EventFor(id, row), row.fields.maxAttempts);
            advanced.Some? && advanced.value.attempts == row.attemptCount && RetryTimeOk(row)
  {
    var db', log := Put(db, id, row), LogOf(db.events, id);
    assert RowOk(db, id);
    PutKeepsTables(db, id, row);
    forall i | i in db.rows && i != id ensures RowOk(db', i) {
      assert RowOk(db, i);
      PutKeepsOthers(db, id, row, i);
    }
    PutLog(db, id, row, id);
    RebuildAppend(log, EventFor(id, row), row.fields.maxAttempts);
    LastSummary(log, row.fields.maxAttempts);
    assert Consistent(db') ==> RowOk(db', id);
  }

  lemma InsertKeepsConsistent(db: Db, id: RequestId, request: AutomationRequest, now: Instant)
    requires Consistent(db) && !Violates(db.rows, id, request)
    ensures Consistent(Put(db, id, NewRow(id, request, now)))
  {
    var row := NewRow(id, request, now);
    PutKeepsTables(db, id, row);
    forall i | i in db.rows ensures RowOk(Put(db, id, row), i) {
      assert RowOk(db, i);
      PutKeepsOthers(db, id, row, i);
    }
    NoLogWithoutRow(db.events, id);
    PutLog(db, id, row, id);
    assert LogOf(Put(db, id, row).events, id) == [EventFor(id, row)];
    assert RowOk(Put(db, id, row), id);
  }

  /** A claim on the current counter keeps the tables consistent exactly when the row is waiting and due. */
  lemma ClaimConsistentIff(db: Db, id: RequestId, now: Instant)
    requires Consistent(db) && id in db.rows
    ensures Consistent(Put(db, id, Claimed(db.rows[id], db.rows[id].attemptCount, now))) <==> Eligible(db.rows[id], now)
  {
    assert RowOk(db, id);
    PutConsistentIff(db, id, Claimed(db.rows[id], db.rows[id].attemptCount, now));
  }

  /** The blind update of `complete` is safe exactly on RUNNING rows. */
  lemma CompleteConsistentIff(db: Db, id: RequestId, detail: Detail, now: Instant)
    requires Consistent(db) && id in db.rows
    ensures Consistent(Put(db, id, WithStatus(db.rows[id], Completed, detail, now))) <==> db.rows[id].status.Running?
  {
    assert RowOk(db, id);
    PutConsistentIff(db, id, WithStatus(db.rows[id], Completed, detail, now));
  }

  /** The blind update of `fail_or_retry` is safe exactly on RUNNING rows, for every delay. */
  lemma FailConsistentIff(db: Db, id: RequestId, cause: string, delay: int, now: Instant)
    requires Consistent(db) && id in db.rows
    ensures var row := db.rows[id];
            Consistent(Put(db, id, FailedRow(row, row.attemptCount, row.fields.maxAttempts, cause, delay, now)))
            <==> row.status.Running?
  {
    assert RowOk(db, id);
    var row := db.rows[id];
    PutConsistentIff(db, id, FailedRow(row, row.attemptCount, row.fields.maxAttempts, cause, delay, now));
  }

  /** Returning a row to the queue is safe exactly on dead letters, the rows replay accepts. */
  lemma RequeueConsistentIff(db: Db, id: RequestId, now: Instant)
    requires Consistent(db) && id in db.rows
    ensures Consistent(Put(db, id, RequeuedRow(db.rows[id], now))) <==> db.rows[id].status.DeadLetter?
  {
    assert RowOk(db, id);
    PutConsistentIff(db, id, RequeuedRow(db.rows[id], now));
  }

  /** The audit log determines the row: equal logs and budgets, equal status, detail, attempts and times. */
  lemma LogDeterminesRow(db: Db, other: Db, id: RequestId)
    requires Consistent(db) && Consistent(other)
    requires id in db.rows && id in other.rows
    requires LogOf(db.events, id) == LogOf(other.events, id)
    requires db.rows[id].fields.maxAttempts == other.rows[id].fields.maxAttempts
    ensures var a, b := db.rows[id], other.rows[id];
            a.status == b.status && a.detail == b.detail && a.attemptCount == b.attemptCount
            && a.createdAt == b.createdAt && a.updatedAt == b.updatedAt
  {
    assert RowOk(db, id) && RowOk(other, id);
  }

  /** How many attempts each status allows, and the two statuses that no row ever has. */
  lemma RowBounds(db: Db, id: RequestId)
    requires Consistent(db) && id in db.rows
    ensures var row := db.rows[id];
            && !row.status.Accepted? && !row.status.Failed?
            && (row.status.Waiting() ==> 0 <= row.attemptCount < row.fields.maxAttempts)
            && (row.status.Running? || row.status.Completed? ==> 1 <= row.attemptCount <= row.fields.maxAttempts)
            && (row.status.DeadLetter? ==> row.attemptCount == row.fields.maxAttempts)
  {
    assert RowOk(db, id);
    AttemptBounds(LogOf(db.events, id), db.rows[id].fields.maxAttempts);
  }

  /** Every log is a word of the lifecycle automaton, and the row's counter is read off it. */
  lemma RowIsWord(db: Db, id: RequestId)
    requires Consistent(db) && id in db.rows
    ensures var row, log := db.rows[id], LogOf(db.events, id);
            && IsWord(log) && WithinBudget(log, row.fields.maxAttempts)
            && row.attemptCount == RunsThisCycle(log)
            && row.status == log[|log| - 1].status && row.detail == log[|log| - 1].detail
            && row.updatedAt == log[|log| - 1].createdAt && row.createdAt == log[0].createdAt
  {
    assert RowOk(db, id);
    var log, budget := LogOf(db.events, id), db.rows[id].fields.maxAttempts;
    RebuildsExactlyWords(log, budget);
    LastSummary(log, budget);
    AttemptsAreRuns(log, budget);
  }

  /** Lifetime accounting of a row against its log; `Cycle` is the number of replays. */
  lemma RowAccounting(db: Db, id: RequestId)
    requires Consistent(db) && id in db.rows
    ensures var row, log, replays := db.rows[id], LogOf(db.events, id), Cycle(db, id);
            && replays >= 0
            && CountOf(log, Running) == replays * row.fields.maxAttempts + row.attemptCount
            && CountOf(log, DeadLetter) == replays + (if row.status.DeadLetter? then 1 else 0)
            && CountOf(log, Completed) == (if row.status.Completed? then 1 else 0)
            && CountOf(log, Running) - (CountOf(log, Retrying) + CountOf(log, Completed) + CountOf(log, DeadLetter))
               == (if row.status.Running? then 1 else 0)
  {
    assert RowOk(db, id);
    var log, budget := LogOf(db.events, id), db.rows[id].fields.maxAttempts;
    LifetimeAccounting(log, budget);
    RunningAccounting(log, budget);
  }
}
