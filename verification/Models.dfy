/** The entities of the orchestrator: request contracts, table rows and audit events. */
module Models {

  datatype Option<+T> = None | Some(value: T)

  datatype Result<+T, +E> = Ok(value: T) | Err(error: E)

  type RequestId = string

  /** A point in time, in whole microseconds; `Timestamps` relates it to the stored text. */
  type Instant = int

  function Seconds(n: int): int { 1_000_000 * n }

  datatype Channel = Api | Rpa

  datatype Status = Accepted | Queued | Running | Retrying | Completed | Failed | DeadLetter {
    /** The statuses from which a worker may claim a row. */
    predicate Waiting() {
      Queued? || Retrying?
    }
  }

  /** The texts of the `detail` column, kept structured instead of formatted. */
  datatype Detail =
    | Submitted
    | Started(attempt: int)
    | RetryScheduled(attempt: int, cause: string)
    | Buried(attempt: int, cause: string)
    | ReplayRequested
    | Outcome(text: string)

  datatype RequestFields = RequestFields(
    process: string,
    target: string,
    channel: Channel,
    payload: string,
    idempotencyKey: Option<string>,
    maxAttempts: int)
  {
    /** The field constraints that request validation enforces before a request exists. */
    predicate Valid() {
      && 1 <= |process| <= 100
      && 1 <= |target| <= 100
      && 1 <= maxAttempts <= 10
      && (idempotencyKey.Some? ==> 8 <= |idempotencyKey.value| <= 128)
    }
  }

  type AutomationRequest = r: RequestFields | r.Valid()
    witness RequestFields("p", "t", Api, "", None, 3)

  /** A row of `automation_requests`. */
  datatype Row = Row(
    id: RequestId,
    fields: AutomationRequest,
    status: Status,
    detail: Detail,
    attemptCount: int,
    nextAttemptAt: Option<Instant>,
    createdAt: Instant,
    updatedAt: Instant)

  /** A row of the append-only table `automation_events`; `event_id` is its position. */
  datatype Event = Event(requestId: RequestId, status: Status, detail: Detail, createdAt: Instant)

  /** The eligibility clause of the claiming queries. */
  predicate Eligible(row: Row, now: Instant) {
    row.status.Waiting() && (row.nextAttemptAt.None? || row.nextAttemptAt.value <= now)
  }
}
