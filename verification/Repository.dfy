/** The repository over its two tables; each method is one transaction unless said otherwise. */
module Repository {
  import opened Models
  import opened Tables
  import opened Metrics
  import opened Lifecycle

  datatype IntegrityError = IntegrityError

  datatype KeyError = KeyError(id: RequestId)

  datatype ReplayError = UnknownRequest(id: RequestId) | NotDeadLetter

  datatype AutomationResult = AutomationResult(
    requestId: RequestId,
    status: Status,
    channel: Channel,
    detail: Detail,
    attemptCount: int,
    maxAttempts: int,
    createdAt: Instant,
    updatedAt: Instant)

  function ToResult(row: Row): AutomationResult {
    AutomationResult(row.id, row.status, row.fields.channel, row.detail, row.attemptCount,
                     row.fields.maxAttempts, row.createdAt, row.updatedAt)
  }

  /** The row after a claim: the next attempt has started. */
  predicate Taken(was: Row, row: Row, now: Instant) {
    row == Row(was.id, was.fields, Running, Started(was.attemptCount + 1), was.attemptCount + 1,
               was.nextAttemptAt, was.createdAt, now)
  }

  /** The row after its attempt has ended. */
  predicate Ended(was: Row, row: Row, status: Status, detail: Detail, next: Option<Instant>, now: Instant) {
    row == Row(was.id, was.fields, status, detail, was.attemptCount, next, was.createdAt, now)
  }

  /** What a client is told about a request, against its audit log and the request it submitted. */
  ghost predicate Reports(result: AutomationResult, log: seq<Event>, request: AutomationRequest) {
    && log != []
    && result.createdAt == log[0].createdAt && result.updatedAt == log[|log| - 1].createdAt
    && result.status == log[|log| - 1].status && result.detail == log[|log| - 1].detail
    && result.attemptCount == RunsThisCycle(log)
    && result.channel == request.channel && result.maxAttempts == request.maxAttempts
  }

  /** On consistent tables the result of a request is what its log says. */
  lemma ResultReportsLog(db: Db, id: RequestId)
    requires Consistent(db) && id in db.rows
    ensures ToResult(db.rows[id]).requestId == id
    ensures Reports(ToResult(db.rows[id]), LogOf(db.events, id), db.rows[id].fields)
  {
    RowIsWord(db, id);
    assert RowOk(db, id);
  }

  class AutomationRepository {
    var rows: map<RequestId, Row>
    var events: seq<Event>
    /** Whether the connection enforces the foreign key of the event table. */
    const foreignKeys: bool

    ghost function Contents(): Db
      reads this
    {
      Db(rows, events)
    }

    constructor (foreignKeys: bool)
      ensures Contents() == EMPTY && Consistent(Contents())
    {
      this.rows, this.events, this.foreignKeys := map[], [], foreignKeys;
    }

    method FindByKey(key: string) returns (found: Option<RequestId>)
      ensures found.None? ==> !KeyTaken(rows, key)
      ensures found.Some? ==> found.value in rows && rows[found.value].fields.idempotencyKey == Some(key)
    {
      if id :| id in rows && rows[id].fields.idempotencyKey == Some(key) {
        found := Some(id);
      } else {
        found := None;
      }
    }

    method AppendEvent(id: RequestId, status: Status, detail: Detail, createdAt: Instant)
      modifies this`events
      ensures events == old(events) + [Event(id, status, detail, createdAt)]
    {
      events := events + [Event(id, status, detail, createdAt)];
    }

    /** Undisturbed submission: the owner of the key wins; otherwise a fresh id is inserted and a used one refused. */
    method Create(id: RequestId, request: AutomationRequest, now: Instant)
      returns (r: Result<RequestId, IntegrityError>)
      modifies this
      ensures if request.idempotencyKey.Some? && KeyTaken(old(rows), request.idempotencyKey.value) then
                && Contents() == old(Contents())
                && r.Ok? && r.value in rows && rows[r.value].fields.idempotencyKey == request.idempotencyKey
              else if id in old(rows) then
                Contents() == old(Contents()) && r == Err(IntegrityError)
              else
                && Contents() == Put(old(Contents()), id, NewRow(id, request, now)) && r == Ok(id)
                && rows[id] == Row(id, request, Queued, Submitted, 0, Some(now), now, now)
      ensures old(Consistent(Contents())) ==> Consistent(Contents())
    {
      if request.idempotencyKey.Some? {
        var existing := FindByKey(request.idempotencyKey.value);
        if existing.Some? {
          return Ok(existing.value);
        }
      }
      if Violates(rows, id, request) {
        if request.idempotencyKey.None? {
          return Err(IntegrityError);
        }
        var existing := FindByKey(request.idempotencyKey.value);
        return match existing case None => Err(IntegrityError) case Some(owner) => Ok(owner);
      }
      ghost var before := Contents();
      rows := rows[id := NewRow(id, request, now)];
      AppendEvent(id, Queued, Submitted, now);
      if Consistent(before) {
        InsertKeepsConsistent(before, id, request, now);
      }
      r := Ok(id);
    }

    /** `_claim_row`: update and event from the selected row. */
    method ClaimRow(seen: Row, now: Instant)
      requires seen.id in rows && rows[seen.id] == seen
      modifies this
      ensures Contents() == Put(old(Contents()), seen.id, Claimed(seen, seen.attemptCount, now))
      ensures Taken(seen, rows[seen.id], now)
    {
      var attempt := seen.attemptCount + 1;
      rows := rows[seen.id := rows[seen.id].(status := Running, detail := Started(attempt),
                                             attemptCount := attempt, updatedAt := now)];
      AppendEvent(seen.id, Running, Started(attempt), now);
    }

    /** Claims the oldest row that is due and not locked by another transaction, or reports that there is none. */
    method ClaimNext(now: Instant, locked: set<RequestId>) returns (claimed: Option<(RequestId, AutomationRequest)>)
      requires forall id :: id in rows ==> rows[id].id == id
      modifies this
      ensures claimed.None? ==>
                Contents() == old(Contents()) && forall id :: id in rows && Eligible(rows[id], now) ==> id in locked
      ensures claimed.Some? ==>
                var id := claimed.value.0;
                && First(old(rows), locked, id, now)
                && claimed.value.1 == old(rows)[id].fields
                && Contents() == Put(old(Contents()), id, Claimed(old(rows)[id], old(rows)[id].attemptCount, now))
                && Taken(old(rows)[id], rows[id], now)
      ensures old(Consistent(Contents())) ==> Consistent(Contents())
    {
      if id :| id in rows && First(rows, locked, id, now) {
        var row := rows[id];
        ghost var before := Contents();
        ClaimRow(row, now);
        if Consistent(before) {
          ClaimConsistentIff(before, row.id, now);
        }
        claimed := Some((row.id, row.fields));
      } else {
        forall id | id in rows && Eligible(rows[id], now) ensures id in locked {
          if id !in locked {
            FirstExists(rows, locked, id, now);
          }
        }
        claimed := None;
      }
    }

    /** Claims one given row exactly when it exists, is due and is not locked by another transaction. */
    method Claim(id: RequestId, now: Instant, locked: set<RequestId>)
      returns (claimed: Option<(RequestId, AutomationRequest)>)
      requires forall i :: i in rows ==> rows[i].id == i
      modifies this
      ensures claimed.Some? <==> Takeable(old(rows), locked, id, now)
      ensures claimed.None? ==> Contents() == old(Contents())
      ensures claimed.Some? ==>
                && claimed.value == (id, old(rows)[id].fields)
                && Contents() == Put(old(Contents()), id, Claimed(old(rows)[id], old(rows)[id].attemptCount, now))
                && Taken(old(rows)[id], rows[id], now)
      ensures old(Consistent(Contents())) ==> Consistent(Contents())
    {
      if !Takeable(rows, locked, id, now) {
        return None;
      }
      var row := rows[id];
      ghost var before := Contents();
      ClaimRow(row, now);
      if Consistent(before) {
        ClaimConsistentIff(before, row.id, now);
      }
      claimed := Some((row.id, row.fields));
    }

    /** A blind update and an event; for an unknown id the event is refused or, unenforced, orphaned. */
    method UpdateStatus(id: RequestId, status: Status, detail: Detail, now: Instant)
      returns (r: Result<(), IntegrityError>)
      modifies this
      ensures r.Err? <==> foreignKeys && id !in old(rows)
      ensures r.Err? ==> Contents() == old(Contents())
      ensures r.Ok? ==>
                if id in old(rows) then
                  && Contents() == Put(old(Contents()), id, WithStatus(old(rows)[id], status, detail, now))
                  && Ended(old(rows)[id], rows[id], status, detail, None, now)
                else rows == old(rows) && events == old(events) + [Event(id, status, detail, now)]
    {
      if id in rows {
        rows := rows[id := rows[id].(status := status, detail := detail, nextAttemptAt := None, updatedAt := now)];
      } else if foreignKeys {
        return Err(IntegrityError);
      }
      AppendEvent(id, status, detail, now);
      r := Ok(());
    }

    /** Keeps the tables consistent exactly when the row it completes is RUNNING. */
    method Complete(id: RequestId, text: string, now: Instant) returns (r: Result<(), IntegrityError>)
      modifies this
      ensures r.Err? <==> foreignKeys && id !in old(rows)
      ensures r.Err? ==> Contents() == old(Contents())
      ensures r.Ok? ==>
                if id in old(rows) then
                  && Contents() == Put(old(Contents()), id, WithStatus(old(rows)[id], Completed, Outcome(text), now))
                  && Ended(old(rows)[id], rows[id], Completed, Outcome(text), None, now)
                else rows == old(rows) && events == old(events) + [Event(id, Completed, Outcome(text), now)]
      ensures old(Consistent(Contents())) && id in old(rows) ==>
                (Consistent(Contents()) <==> old(rows)[id].status.Running?)
    {
      ghost var before := Contents();
      r := UpdateStatus(id, Completed, Outcome(text), now);
      if Consistent(before) && id in before.rows {
        CompleteConsistentIff(before, id, Outcome(text), now);
      }
    }

    /** Schedules a retry or buries the row by its own counter; consistent exactly when the row is RUNNING. */
    method FailOrRetry(id: RequestId, cause: string, delay: int, now: Instant) returns (r: Result<(), KeyError>)
      modifies this
      ensures r.Err? <==> id !in old(rows)
      ensures r.Err? ==> r.error == KeyError(id) && Contents() == old(Contents())
      ensures r.Ok? ==>
                var row := old(rows)[id];
                && Contents() == Put(old(Contents()), id,
                                     FailedRow(row, row.attemptCount, row.fields.maxAttempts, cause, delay, now))
                && if row.attemptCount >= row.fields.maxAttempts then
                     Ended(row, rows[id], DeadLetter, Buried(row.attemptCount, cause), None, now)
                   else
                     Ended(row, rows[id], Retrying, RetryScheduled(row.attemptCount, cause),
                           Some(now + Seconds(delay)), now)
      ensures old(Consistent(Contents())) && r.Ok? ==> (Consistent(Contents()) <==> old(rows)[id].status.Running?)
    {
      if id !in rows {
        return Err(KeyError(id));
      }
      ghost var before := Contents();
      var attempt, budget := rows[id].attemptCount, rows[id].fields.maxAttempts;
      var exhausted := attempt >= budget;
      var status := if exhausted then DeadLetter else Retrying;
      var next := if exhausted then None else Some(now + Seconds(delay));
      var message := if exhausted then Buried(attempt, cause) else RetryScheduled(attempt, cause);
      rows := rows[id := rows[id].(status := status, detail := message, nextAttemptAt := next, updatedAt := now)];
      AppendEvent(id, status, message, now);
      if Consistent(before) {
        FailConsistentIff(before, id, cause, delay, now);
      }
      r := Ok(());
    }

    /** Returns a dead letter to the queue with a fresh budget, and refuses everything else unchanged. */
    method ReplayDeadLetter(id: RequestId, now: Instant) returns (r: Result<AutomationResult, ReplayError>)
      modifies this
      ensures if id !in old(rows) then r == Err(UnknownRequest(id)) && Contents() == old(Contents())
              else if !old(rows)[id].status.DeadLetter? then r == Err(NotDeadLetter) && Contents() == old(Contents())
              else
                && Contents() == Put(old(Contents()), id, RequeuedRow(old(rows)[id], now))
                && r.Ok? && r.value == ToResult(rows[id])
                && var was := old(rows)[id];
                   && rows[id] == Row(was.id, was.fields, Queued, ReplayRequested, 0, Some(now), was.createdAt, now)
                   && r.value == AutomationResult(was.id, Queued, was.fields.channel, ReplayRequested, 0,
                                                  was.fields.maxAttempts, was.createdAt, now)
      ensures old(Consistent(Contents())) ==> Consistent(Contents())
    {
      if id !in rows {
        return Err(UnknownRequest(id));
      }
      if !rows[id].status.DeadLetter? {
        return Err(NotDeadLetter);
      }
      ghost var before := Contents();
      rows := rows[id := rows[id].(status := Queued, detail := ReplayRequested, attemptCount := 0,
                                   nextAttemptAt := Some(now), updatedAt := now)];
      AppendEvent(id, Queued, ReplayRequested, now);
      if Consistent(before) {
        RequeueConsistentIff(before, id, now);
      }
      r := Ok(ToResult(rows[id]));
    }

    method Get(id: RequestId) returns (result: Option<AutomationResult>)
      ensures result == if id in rows then Some(ToResult(rows[id])) else None
      ensures Consistent(Contents()) && result.Some? ==>
                result.value.requestId == id && Reports(result.value, LogOf(events, id), rows[id].fields)
    {
      if Consistent(Contents()) && id in rows {
        ResultReportsLog(Contents(), id);
      }
      result := if id in rows then Some(ToResult(rows[id])) else None;
    }

    /** The result with its audit log in the order of `event_id`. */
    method GetDetails(id: RequestId) returns (details: Option<(AutomationResult, seq<Event>)>)
      ensures details.Some? <==> id in rows
      ensures details.Some? ==> details.value == (ToResult(rows[id]), LogOf(events, id))
      ensures Consistent(Contents()) && details.Some? ==>
                && details.value.0.requestId == id && Reports(details.value.0, details.value.1, rows[id].fields)
                && forall k :: 0 <= k < |details.value.1| ==>
                     details.value.1[k] in events && details.value.1[k].requestId == id
    {
      var result := Get(id);
      if result.None? {
        return None;
      }
      LogIsOfRequest(events, id);
      details := Some((result.value, LogOf(events, id)));
    }

    method OldestWaiting() returns (oldest: Option<RequestId>)
      ensures oldest.None? ==> WaitingIds(rows) == {}
      ensures oldest.Some? ==>
                && oldest.value in WaitingIds(rows)
                && forall i :: i in WaitingIds(rows) ==> rows[oldest.value].createdAt <= rows[i].createdAt
    {
      if id :| id in WaitingIds(rows) && forall i :: i in WaitingIds(rows) ==> rows[id].createdAt <= rows[i].createdAt {
        oldest := Some(id);
      } else {
        oldest := None;
        if WaitingIds(rows) != {} {
          ghost var first := OldestExists(rows, WaitingIds(rows));
        }
      }
    }

    /** One snapshot: depth counts the waiting rows, and an oldest age is present exactly when there are any. */
    method Snapshot(now: Instant) returns (m: MetricsSnapshot)
      ensures m.totalRequests == |rows|
      ensures forall status :: CountIn(m.byStatus, status) == |StatusSet(rows, status)|
      ensures forall status :: status in m.byStatus <==> exists id :: id in rows && rows[id].status == status
      ensures m.queueDepth == |WaitingIds(rows)|
      ensures m.retryingCount == |StatusSet(rows, Retrying)| && m.deadLetterCount == |StatusSet(rows, DeadLetter)|
      ensures m.oldestQueuedAge.None? <==> m.queueDepth == 0
      ensures m.oldestQueuedAge.Some? ==>
                && m.oldestQueuedAge.value >= 0
                && (forall id :: id in WaitingIds(rows) ==> m.oldestQueuedAge.value >= now - rows[id].createdAt)
                && (m.oldestQueuedAge.value > 0 ==>
                      exists id :: id in WaitingIds(rows) && m.oldestQueuedAge.value == now - rows[id].createdAt)
    {
      var byStatus := Histogram(rows);
      forall status ensures CountIn(byStatus, status) == |StatusSet(rows, status)| {
        HistogramCounts(rows, status);
      }
      DepthCountsWaiting(rows);
      var oldest := OldestWaiting();
      var age := None;
      if oldest.Some? {
        var lag := now - rows[oldest.value].createdAt;
        age := Some(if lag > 0 then lag else 0);
      }
      m := MetricsSnapshot(|rows|, byStatus, CountIn(byStatus, Queued) + CountIn(byStatus, Retrying),
                           CountIn(byStatus, Retrying), CountIn(byStatus, DeadLetter), age);
    }
  }
}
