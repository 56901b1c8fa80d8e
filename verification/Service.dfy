/** The service: persist first, then publish, then read back. */
module Service {
  import opened Models
  import opened Tables
  import opened Repository
  import opened Dispatch

  datatype SubmitError = Duplicate | NotPersisted

  class AutomationService {
    const repository: AutomationRepository
    const dispatch: DispatchQueue

    constructor (repository: AutomationRepository, dispatch: DispatchQueue)
      ensures this.repository == repository && this.dispatch == dispatch
    {
      this.repository, this.dispatch := repository, dispatch;
    }

    /**
     With a fresh candidate id a submission always succeeds: it returns the state of a persisted row
     with the submitted key, and publishes the id of that row. A request with no key or a new one is
     inserted as submitted, under the candidate id; a request with a known key adds no row.
     */
    method Submit(request: AutomationRequest, candidate: RequestId, now: Instant)
      returns (r: Result<AutomationResult, SubmitError>)
      requires Consistent(repository.Contents()) && dispatch.Valid()
      modifies repository, dispatch
      ensures Consistent(repository.Contents()) && dispatch.Valid()
      ensures candidate !in old(repository.rows) ==> r.Ok?
      ensures r.Ok? ==>
                && r.value.requestId in repository.rows
                && r.value == ToResult(repository.rows[r.value.requestId])
                && Reports(r.value, LogOf(repository.events, r.value.requestId),
                           repository.rows[r.value.requestId].fields)
                && (request.idempotencyKey.Some? ==>
                      repository.rows[r.value.requestId].fields.idempotencyKey == request.idempotencyKey)
                && dispatch.items == if dispatch.brokered then old(dispatch.items) + [r.value.requestId] else []
      ensures !Violates(old(repository.rows), candidate, request) ==>
                && r == Ok(AutomationResult(candidate, Queued, request.channel, Submitted, 0,
                                          request.maxAttempts, now, now))
                && repository.Contents() == Put(old(repository.Contents()), candidate, NewRow(candidate, request, now))
      ensures request.idempotencyKey.Some? && KeyTaken(old(repository.rows), request.idempotencyKey.value) ==>
                repository.Contents() == old(repository.Contents())
      ensures r.Err? ==> repository.Contents() == old(repository.Contents()) && dispatch.items == old(dispatch.items)
    {
      var created := repository.Create(candidate, request, now);
      if created.Err? {
        return Err(Duplicate);
      }
      var id := created.value;
      assert RowOk(repository.Contents(), id);
      dispatch.Publish(id);
      var result := repository.Get(id);
      r := match result case None => Err(NotPersisted) case Some(found) => Ok(found);
    }

    /** Only a dead letter is replayed, and only then is its id published. */
    method ReplayDeadLetter(id: RequestId, now: Instant) returns (r: Result<AutomationResult, ReplayError>)
      requires Consistent(repository.Contents()) && dispatch.Valid()
      modifies repository, dispatch
      ensures Consistent(repository.Contents()) && dispatch.Valid()
      ensures r.Ok? <==> id in old(repository.rows) && old(repository.rows)[id].status.DeadLetter?
      ensures if r.Ok? then
                && repository.Contents() == Put(old(repository.Contents()), id,
                                                RequeuedRow(old(repository.rows)[id], now))
                && r.value == AutomationResult(id, Queued, old(repository.rows)[id].fields.channel, ReplayRequested, 0,
                                               old(repository.rows)[id].fields.maxAttempts,
                                               old(repository.rows)[id].createdAt, now)
                && dispatch.items == if dispatch.brokered then old(dispatch.items) + [id] else []
              else
                repository.Contents() == old(repository.Contents()) && dispatch.items == old(dispatch.items)
    {
      assert id in repository.rows ==> RowOk(repository.Contents(), id);
      r := repository.ReplayDeadLetter(id, now);
      if r.Ok? {
        dispatch.Publish(id);
      }
    }
  }
}
