/**
 What a step does to the tables, and the guard under which it does it. The code updates
 rows blindly after an unlocked read; here every such write turns out to happen exactly
 where one atomic, guarded statement would be allowed.
 */
module Effects {
  import opened Models
  import opened Tables
  import opened Protocol
  import opened Invariant
  import opened Lifecycle

  datatype Effect =
    | Nothing
    | Inserts(id: RequestId, request: AutomationRequest, now: Instant)
    | Claims(id: RequestId, seen: int, now: Instant)
    | Completes(id: RequestId, attempt: int, text: string, now: Instant)
    | Fails(id: RequestId, attempt: int, budget: int, cause: string, delay: int, now: Instant)
    | Requeues(id: RequestId, now: Instant)

  function EffectOf(s: State, l: Label): Effect {
    if l.Disturb? || l.actor !in s.actors then Nothing
    else
      var pc := s.actors[l.actor];
      match l
      case Submitter(_, InsertRow) =>
        if pc.Inserting? && !Violates(s.db.rows, pc.candidate, pc.request)
        then Inserts(pc.candidate, pc.request, pc.now) else Nothing
      case Operator(_, CommitReplay) =>
        if pc.Replaying? && pc.seen.id in s.db.rows then Requeues(pc.seen.id, pc.now) else Nothing
      case Claimer(_, CommitClaim) =>
        if pc.Claiming? && pc.seen.id in s.db.rows then Claims(pc.seen.id, pc.seen.attemptCount, pc.now) else Nothing
      case Worker(_, CommitSuccess(now)) =>
        if pc.Succeeding? && pc.hold.id in s.db.rows
        then Completes(pc.hold.id, pc.hold.attempt, pc.text, now) else Nothing
      case Worker(_, CommitFailure(now)) =>
        if pc.FailRead? && pc.hold.id in s.db.rows
        then Fails(pc.hold.id, pc.attempt, pc.budget, pc.cause, pc.delay, now) else Nothing
      case _ => Nothing
  }

  /** The guard an atomic queue would have to check for each effect. */
  ghost predicate Allowed(db: Db, e: Effect) {
    && (!e.Nothing? && !e.Inserts? ==> e.id in db.rows && db.rows[e.id].id == e.id)
    && match e
       case Nothing => true
       case Inserts(id, request, _) => !Violates(db.rows, id, request)
       case Claims(id, seen, now) => seen == db.rows[id].attemptCount && Eligible(db.rows[id], now)
       case Completes(id, attempt, _, _) => db.rows[id].status.Running? && attempt == db.rows[id].attemptCount
       case Fails(id, attempt, budget, _, delay, _) =>
         && db.rows[id].status.Running? && delay >= 0
         && attempt == db.rows[id].attemptCount && budget == db.rows[id].fields.maxAttempts
       case Requeues(id, _) => db.rows[id].status.DeadLetter?
  }

  /** The row an effect leaves behind. */
  ghost function RowAfter(db: Db, e: Effect): Row
    requires !e.Nothing? && Allowed(db, e)
  {
    match e
    case Inserts(id, request, now) => NewRow(id, request, now)
    case Claims(id, seen, now) => Claimed(db.rows[id], seen, now)
    case Completes(id, _, text, now) => WithStatus(db.rows[id], Completed, Outcome(text), now)
    case Fails(id, attempt, budget, cause, delay, now) => FailedRow(db.rows[id], attempt, budget, cause, delay, now)
    case Requeues(id, now) => RequeuedRow(db.rows[id], now)
  }

  ghost function Written(db: Db, e: Effect): Db
    requires Allowed(db, e)
  {
    if e.Nothing? then db else Put(db, e.id, RowAfter(db, e))
  }

  /** A write concerns the one request its actor has a grip on. */
  ghost predicate Gripped(s: State, l: Label, e: Effect) {
    !e.Nothing? ==> !l.Disturb? && l.actor in s.actors && Grip(s.actors[l.actor]) == Some(e.id)
  }

  /** What the effect of a committing step is allowed by, given only the actor's own knowledge. */
  lemma EffectIsAllowed(s: State, l: Label)
    requires Inv(s)
    ensures Allowed(s.db, EffectOf(s, l)) && Gripped(s, l, EffectOf(s, l))
  {
    hide Consistent;
    if !l.Disturb? && l.actor in s.actors {
      var pc := s.actors[l.actor];
      assert PcOk(s.db, s.used, pc);
      if HoldOf(pc).Some? {
        RowIdOk(s.db, HoldOf(pc).value.id);
      } else if LockOf(pc).Some? {
        RowIdOk(s.db, LockOf(pc).value);
      }
    }
  }

  /** Every step, split reads included, is one guarded atomic write or none. */
  lemma StepIsAllowedWrite(cfg: Config, s: State, l: Label)
    requires Inv(s) && Enabled(cfg, s, l)
    ensures var e := EffectOf(s, l);
            Allowed(s.db, e) && Apply(cfg, s, l).db == Written(s.db, e) && Gripped(s, l, e)
  {
    hide Consistent, Exclusive, Eligible;
    EffectIsAllowed(s, l);
  }

  /** Each write appends one event to its request's log, which reports the new row and carries the write's own stamp. */
  lemma WriteIsLogged(db: Db, e: Effect)
    requires Consistent(db) && Allowed(db, e) && !e.Nothing?
    ensures var db' := Written(db, e);
            var row := db'.rows[e.id];
            && db'.rows == db.rows[e.id := row] && row.id == e.id && row.updatedAt == e.now
            && LogOf(db'.events, e.id)
               == LogOf(db.events, e.id) + [Event(e.id, row.status, row.detail, e.now)]
  {
    PutLog(db, e.id, RowAfter(db, e), e.id);
  }

  /** A new row starts a log with its request, no attempts, and is due at once. */
  lemma InsertIsRecorded(db: Db, e: Effect)
    requires Consistent(db) && Allowed(db, e) && e.Inserts?
    ensures var row := Written(db, e).rows[e.id];
            && row.fields == e.request && row.createdAt == e.now && row.nextAttemptAt == Some(e.now)
            && row.attemptCount == 0
            && LogOf(Written(db, e).events, e.id) == [Event(e.id, Queued, Submitted, e.now)]
  {
    WriteIsLogged(db, e);
    NoLogWithoutRow(db.events, e.id);
  }

  /** A claim starts the next attempt of the cycle, numbers it in its event, and leaves the retry time. */
  lemma ClaimIsRecorded(db: Db, e: Effect)
    requires Consistent(db) && Allowed(db, e) && e.Claims?
    ensures var row, log := Written(db, e).rows[e.id], LogOf(Written(db, e).events, e.id);
            && row.attemptCount == RunsThisCycle(log) == db.rows[e.id].attemptCount + 1
            && log[|log| - 1] == Event(e.id, Running, Started(row.attemptCount), e.now)
            && row.status == Running && row.nextAttemptAt == db.rows[e.id].nextAttemptAt
  {
    WriteIsLogged(db, e);
    ClaimConsistentIff(db, e.id, e.now);
    RowIsWord(Written(db, e), e.id);
  }

  /** A completion records the adapter's outcome and no retry time. */
  lemma CompletionIsRecorded(db: Db, e: Effect)
    requires Consistent(db) && Allowed(db, e) && e.Completes?
    ensures var row, log := Written(db, e).rows[e.id], LogOf(Written(db, e).events, e.id);
            && row.status == Completed && row.detail == Outcome(e.text) && row.nextAttemptAt.None?
            && row.attemptCount == db.rows[e.id].attemptCount
            && log[|log| - 1] == Event(e.id, Completed, Outcome(e.text), e.now)
  {
    WriteIsLogged(db, e);
  }

  /** A failure records its attempt and cause; a retry is due after the delay, a burial never. */
  lemma FailureIsRecorded(db: Db, e: Effect)
    requires Consistent(db) && Allowed(db, e) && e.Fails?
    ensures var row, log := Written(db, e).rows[e.id], LogOf(Written(db, e).events, e.id);
            && row.attemptCount == db.rows[e.id].attemptCount
            && log[|log| - 1] == Event(e.id, row.status, row.detail, e.now)
            && if row.attemptCount == row.fields.maxAttempts then
                 row.status == DeadLetter && row.detail == Buried(row.attemptCount, e.cause) && row.nextAttemptAt.None?
               else
                 && row.status == Retrying && row.detail == RetryScheduled(row.attemptCount, e.cause)
                 && row.nextAttemptAt == Some(e.now + Seconds(e.delay))
  {
    WriteIsLogged(db, e);
    RowBounds(db, e.id);
  }

  /** A replay records the operator's request, gives the whole budget back and makes the row due at once. */
  lemma ReplayIsRecorded(db: Db, e: Effect)
    requires Consistent(db) && Allowed(db, e) && e.Requeues?
    ensures var row, log := Written(db, e).rows[e.id], LogOf(Written(db, e).events, e.id);
            && row.status == Queued && row.attemptCount == 0 && row.nextAttemptAt == Some(e.now)
            && log[|log| - 1] == Event(e.id, Queued, ReplayRequested, e.now)
  {
    WriteIsLogged(db, e);
  }

  /** A write never changes a request's fields, id or creation time. */
  lemma WriteKeepsIdentity(db: Db, e: Effect)
    requires !e.Nothing? && Allowed(db, e) && e.id in db.rows
    ensures var row := RowAfter(db, e);
            row.id == db.rows[e.id].id && row.fields == db.rows[e.id].fields && row.createdAt == db.rows[e.id].createdAt
  {
  }

  /** The replay cycle advances by one on a requeue and never otherwise. */
  lemma WriteAndCycle(db: Db, e: Effect, id: RequestId)
    requires Allowed(db, e) && id in db.rows
    ensures Cycle(Written(db, e), id) == Cycle(db, id) + (if e.Requeues? && e.id == id then 1 else 0)
  {
    hide Cycle;
    if !e.Nothing? {
      PutCycle(db, e.id, RowAfter(db, e), id);
    }
  }
}
