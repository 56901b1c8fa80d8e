/** The worker loop as one actor runs it: claim, cooldown check, adapter, finish; and how it drains a queue. */
module Worker {
  import opened Models
  import opened Tables
  import opened Repository
  import opened Dispatch
  import opened Adapters
  import opened Metrics
  import opened Sums
  import Backoff
  import Protocol
  import Fairness

  /** Everything one turn takes from outside: clock readings in program order, a random draw, the adapter's answer. */
  datatype Turn = Turn(
    targetNow: Instant,
    pollNow: Instant,
    checkClock: int,
    delayClock: int,
    planClock: int,
    finishNow: Instant,
    random: real,
    outcome: AdapterOutcome)

  type Cooldowns = map<string, int>

  function DeadlineOf(cooldowns: Cooldowns, target: string): int {
    if target in cooldowns then cooldowns[target] else 0
  }

  /** The broker's first item if it can be claimed at the first reading, else the oldest row due at the second. */
  predicate Takes(
    brokered: bool, items: seq<RequestId>, rows: map<RequestId, Row>, id: RequestId, at: Instant, turn: Turn)
  {
    if brokered && items != [] && Takeable(rows, {}, items[0], turn.targetNow) then
      id == items[0] && at == turn.targetNow
    else
      First(rows, {}, id, at) && at == turn.pollNow
  }

  /** A turn pops one message, if there is one, and claims at most one row. */
  function Popped(brokered: bool, items: seq<RequestId>): seq<RequestId> {
    if brokered && items != [] then items[1..] else items
  }

  /** The row that a turn leaves behind, given the row as claimed. */
  function Finished(policy: Backoff.Policy, cooldowns: Cooldowns, row: Row, turn: Turn): Row {
    var until, budget := DeadlineOf(cooldowns, row.fields.target), row.fields.maxAttempts;
    if until > turn.checkClock then
      var delay := Protocol.DeferSeconds(until, turn.delayClock);
      FailedRow(row, row.attemptCount, budget, "cooling down", delay, turn.finishNow)
    else
      match turn.outcome
      case Success(text) => WithStatus(row, Completed, Outcome(text), turn.finishNow)
      case Failure(hint, cause) =>
        var delay := if hint.Some? then hint.value else Backoff.Delay(policy, row.attemptCount, turn.random);
        FailedRow(row, row.attemptCount, budget, cause, delay, turn.finishNow)
  }

  /** The cooldown map after a turn: untouched by a deferral, cleared by a success, set by a hint. */
  function Cooled(cooldowns: Cooldowns, target: string, turn: Turn): Cooldowns {
    if DeadlineOf(cooldowns, target) > turn.checkClock then cooldowns
    else
      match turn.outcome
      case Success(_) => cooldowns - {target}
      case Failure(hint, _) =>
        if hint.Some? then cooldowns[target := turn.planClock + Seconds(hint.value)] else cooldowns
  }

  /** Both writes of a turn: the claim at `now`, then the finish. */
  function AfterTurn(policy: Backoff.Policy, cooldowns: Cooldowns, db: Db, id: RequestId, now: Instant, turn: Turn): Db
    requires id in db.rows
  {
    var claimed := Claimed(db.rows[id], db.rows[id].attemptCount, now);
    Put(Put(db, id, claimed), id, Finished(policy, cooldowns, claimed, turn))
  }

  /** As long as some row is due at its second reading, a turn takes a row. */
  lemma SomethingIsTaken(brokered: bool, items: seq<RequestId>, rows: map<RequestId, Row>, turn: Turn, id: RequestId)
    requires Takeable(rows, {}, id, turn.pollNow)
    ensures exists i, at :: Takes(brokered, items, rows, i, at, turn)
  {
    if brokered && items != [] && Takeable(rows, {}, items[0], turn.targetNow) {
      assert Takes(brokered, items, rows, items[0], turn.targetNow, turn);
    } else {
      FirstExists(rows, {}, id, turn.pollNow);
      var first :| First(rows, {}, first, turn.pollNow);
      assert Takes(brokered, items, rows, first, turn.pollNow, turn);
    }
  }

  /** What one turn on a claimable row achieves, whatever the cooldowns and the adapter do. */
  lemma TurnOutcome(policy: Backoff.Policy, cooldowns: Cooldowns, db: Db, id: RequestId, now: Instant, turn: Turn)
    requires Consistent(db) && id in db.rows && Eligible(db.rows[id], now)
    ensures var db' := AfterTurn(policy, cooldowns, db, id, now, turn);
            && Consistent(db')
            && db'.rows.Keys == db.rows.Keys
            && (forall i :: i in db.rows && i != id ==> db'.rows[i] == db.rows[i])
            && db'.rows[id].fields == db.rows[id].fields
            && db'.rows[id].attemptCount == db.rows[id].attemptCount + 1
            && (db'.rows[id].status.Completed? || db'.rows[id].status.Retrying? || db'.rows[id].status.DeadLetter?)
            && (db'.rows[id].status.Retrying? ==> db'.rows[id].attemptCount < db'.rows[id].fields.maxAttempts)
  {
    ClaimConsistentIff(db, id, now);
    var mid := Put(db, id, Claimed(db.rows[id], db.rows[id].attemptCount, now));
    var row := mid.rows[id];
    var until := DeadlineOf(cooldowns, row.fields.target);
    if until > turn.checkClock {
      FailConsistentIff(mid, id, "cooling down", Protocol.DeferSeconds(until, turn.delayClock), turn.finishNow);
    } else {
      match turn.outcome
      case Success(text) => CompleteConsistentIff(mid, id, Outcome(text), turn.finishNow);
      case Failure(hint, cause) =>
        var delay := if hint.Some? then hint.value else Backoff.Delay(policy, row.attemptCount, turn.random);
        FailConsistentIff(mid, id, cause, delay, turn.finishNow);
    }
  }

  /** How a claimed row stands after a turn that called the adapter. */
  lemma CallOutcome(policy: Backoff.Policy, cooldowns: Cooldowns, db: Db, id: RequestId, now: Instant, turn: Turn)
    requires Consistent(db) && id in db.rows && Eligible(db.rows[id], now)
    requires DeadlineOf(cooldowns, db.rows[id].fields.target) <= turn.checkClock
    ensures var row, n := AfterTurn(policy, cooldowns, db, id, now, turn).rows[id], db.rows[id].attemptCount + 1;
            && row.updatedAt == turn.finishNow
            && (row.status.Completed? <==> turn.outcome.Success?)
            && (turn.outcome.Success? ==> row.detail == Outcome(turn.outcome.text) && row.nextAttemptAt.None?)
            && (turn.outcome.Failure? && n == row.fields.maxAttempts ==>
                  row.status == DeadLetter && row.detail == Buried(n, turn.outcome.cause) && row.nextAttemptAt.None?)
            && (turn.outcome.Failure? && n < row.fields.maxAttempts ==>
                  && row.status == Retrying && row.detail == RetryScheduled(n, turn.outcome.cause)
                  && row.nextAttemptAt.Some?
                  && var due := row.nextAttemptAt.value;
                     if turn.outcome.hint.Some? then due == turn.finishNow + Seconds(turn.outcome.hint.value)
                     else due == turn.finishNow + Seconds(Backoff.Delay(policy, n, turn.random)))
  {
    RowBounds(db, id);
    hide Backoff.Delay;
  }

  /** How it stands after a turn that found the target cooling down: an attempt is used, no call is made. */
  lemma DeferralOutcome(policy: Backoff.Policy, cooldowns: Cooldowns, db: Db, id: RequestId, now: Instant, turn: Turn)
    requires Consistent(db) && id in db.rows && Eligible(db.rows[id], now)
    requires DeadlineOf(cooldowns, db.rows[id].fields.target) > turn.checkClock
    ensures var row, n := AfterTurn(policy, cooldowns, db, id, now, turn).rows[id], db.rows[id].attemptCount + 1;
            var left := DeadlineOf(cooldowns, db.rows[id].fields.target) - turn.delayClock;
            && row.updatedAt == turn.finishNow
            && (n == row.fields.maxAttempts ==>
                  row.status == DeadLetter && row.detail == Buried(n, "cooling down") && row.nextAttemptAt.None?)
            && (n < row.fields.maxAttempts ==>
                  && row.status == Retrying && row.detail == RetryScheduled(n, "cooling down")
                  && row.nextAttemptAt.Some?
                  && var wait := row.nextAttemptAt.value - turn.finishNow;
                     && wait % Seconds(1) == 0 && wait >= Seconds(1)
                     && (left >= Seconds(1) ==> wait <= left < wait + Seconds(1))
                     && (left < Seconds(1) ==> wait == Seconds(1)))
  {
    RowBounds(db, id);
    DeferralWait(DeadlineOf(cooldowns, db.rows[id].fields.target), turn.delayClock);
  }

  lemma DeferralWait(until: int, clock: int)
    ensures var wait := Seconds(Protocol.DeferSeconds(until, clock));
            && wait % Seconds(1) == 0 && wait >= Seconds(1)
            && (until - clock >= Seconds(1) ==> wait <= until - clock < wait + Seconds(1))
            && (until - clock < Seconds(1) ==> wait == Seconds(1))
  {
  }

  /** A turn logs its claim, on the claiming reading, and then its end. */
  lemma TurnIsLogged(policy: Backoff.Policy, cooldowns: Cooldowns, db: Db, id: RequestId, now: Instant, turn: Turn)
    requires Consistent(db) && id in db.rows && Eligible(db.rows[id], now)
    ensures var db' := AfterTurn(policy, cooldowns, db, id, now, turn);
            var row := db'.rows[id];
            LogOf(db'.events, id) == LogOf(db.events, id)
              + [Event(id, Running, Started(db.rows[id].attemptCount + 1), now)]
              + [Event(id, row.status, row.detail, row.updatedAt)]
  {
    hide Finished;
    var claimed := Claimed(db.rows[id], db.rows[id].attemptCount, now);
    PutLog(db, id, claimed, id);
    PutLog(Put(db, id, claimed), id, Finished(policy, cooldowns, claimed, turn), id);
  }

  /** The cooldowns after a turn, target by target. */
  lemma CooledOutcome(cooldowns: Cooldowns, target: string, turn: Turn, other: string)
    ensures var after := Cooled(cooldowns, target, turn);
            && (other != target ==> DeadlineOf(after, other) == DeadlineOf(cooldowns, other))
            && (DeadlineOf(cooldowns, target) > turn.checkClock ==> after == cooldowns)
            && (DeadlineOf(cooldowns, target) <= turn.checkClock ==>
                  match turn.outcome
                  case Success(_) => target !in after
                  case Failure(Some(h), _) => target in after && after[target] == turn.planClock + Seconds(h)
                  case Failure(None, _) => after == cooldowns)
  {
  }

  class AutomationWorker {
    const repository: AutomationRepository
    const dispatch: DispatchQueue
    const policy: Backoff.Policy
    var cooldowns: Cooldowns

    constructor (repository: AutomationRepository, dispatch: DispatchQueue, policy: Backoff.Policy)
      ensures this.repository == repository && this.dispatch == dispatch && this.policy == policy && cooldowns == map[]
    {
      this.repository, this.dispatch, this.policy, cooldowns := repository, dispatch, policy, map[];
    }

    /** A broker item first, if it can be claimed; otherwise the oldest eligible row. */
    method Acquire(turn: Turn) returns (claimed: Option<(RequestId, AutomationRequest)>, ghost at: Instant)
      requires Consistent(repository.Contents()) && dispatch.Valid()
      modifies repository, dispatch
      ensures Consistent(repository.Contents()) && dispatch.Valid()
      ensures dispatch.items == Popped(dispatch.brokered, old(dispatch.items))
      ensures claimed.None? ==>
                && repository.Contents() == old(repository.Contents())
                && forall id, any :: !Takes(dispatch.brokered, old(dispatch.items), repository.rows, id, any, turn)
      ensures claimed.Some? ==>
                var id := claimed.value.0;
                && Takes(dispatch.brokered, old(dispatch.items), old(repository.rows), id, at, turn)
                && claimed.value.1 == old(repository.rows)[id].fields
                && var row := old(repository.rows)[id];
                   repository.Contents() == Put(old(repository.Contents()), id, Claimed(row, row.attemptCount, at))
    {
      forall id | id in repository.rows ensures repository.rows[id].id == id {
        assert RowOk(repository.Contents(), id);
      }
      claimed, at := None, turn.targetNow;
      if dispatch.brokered {
        var item := dispatch.Consume();
        if item.Some? {
          claimed := repository.Claim(item.value, turn.targetNow, {});
        }
      }
      if claimed.None? {
        claimed := repository.ClaimNext(turn.pollNow, {});
        at := turn.pollNow;
      }
    }

    /** Carries out the claimed request: deferral, success or scheduled retry. */
    method Execute(id: RequestId, request: AutomationRequest, turn: Turn)
      requires Consistent(repository.Contents())
      requires id in repository.rows && repository.rows[id].status.Running? && repository.rows[id].fields == request
      modifies repository, this`cooldowns
      ensures repository.Contents() ==
              Put(old(repository.Contents()), id, Finished(policy, old(cooldowns), old(repository.rows)[id], turn))
      ensures cooldowns == Cooled(old(cooldowns), request.target, turn)
    {
      var until := DeadlineOf(cooldowns, request.target);
      if until > turn.checkClock {
        var delay := Protocol.DeferSeconds(until, turn.delayClock);
        var _ := repository.FailOrRetry(id, "cooling down", delay, turn.finishNow);
        return;
      }
      match turn.outcome {
        case Success(text) =>
          cooldowns := cooldowns - {request.target};
          var _ := repository.Complete(id, text, turn.finishNow);
        case Failure(hint, cause) =>
          var result := repository.Get(id);
          var attempt := if result.Some? then result.value.attemptCount else 1;
          var delay := if hint.Some? then hint.value else Backoff.Delay(policy, attempt, turn.random);
          if hint.Some? {
            cooldowns := cooldowns[request.target := turn.planClock + Seconds(delay)];
          }
          var _ := repository.FailOrRetry(id, cause, delay, turn.finishNow);
      }
    }

    /**
     One turn, undisturbed. It reports work exactly when the broker delivered a row that is due at the
     first reading, or some row is due at the second; so with readings in order it reports none exactly
     when no row is eligible, whatever the broker delivered.
     */
    method RunOnce(turn: Turn) returns (worked: bool, ghost id: RequestId, ghost at: Instant)
      requires Consistent(repository.Contents()) && dispatch.Valid()
      modifies repository, dispatch, this`cooldowns
      ensures Consistent(repository.Contents()) && dispatch.Valid()
      ensures dispatch.items == Popped(dispatch.brokered, old(dispatch.items))
      ensures worked <==>
                || (exists i :: i in old(repository.rows) && Eligible(old(repository.rows)[i], turn.pollNow))
                || (dispatch.brokered && old(dispatch.items) != []
                    && Takeable(old(repository.rows), {}, old(dispatch.items)[0], turn.targetNow))
      ensures turn.targetNow <= turn.pollNow ==>
                (worked <==> exists i :: i in old(repository.rows) && Eligible(old(repository.rows)[i], turn.pollNow))
      ensures !worked ==> repository.Contents() == old(repository.Contents()) && cooldowns == old(cooldowns)
      ensures worked ==>
                && Takes(dispatch.brokered, old(dispatch.items), old(repository.rows), id, at, turn)
                && repository.Contents() == AfterTurn(policy, old(cooldowns), old(repository.Contents()), id, at, turn)
                && cooldowns == Cooled(old(cooldowns), old(repository.rows)[id].fields.target, turn)
    {
      ghost var before := repository.Contents();
      var claimed;
      claimed, at := Acquire(turn);
      if claimed.None? {
        assert dispatch.brokered && old(dispatch.items) != [] ==>
            !Takes(dispatch.brokered, old(dispatch.items), before.rows, old(dispatch.items)[0], turn.targetNow, turn);
        forall i | i in before.rows ensures !Eligible(before.rows[i], turn.pollNow) {
          if Eligible(before.rows[i], turn.pollNow) {
            SomethingIsTaken(dispatch.brokered, old(dispatch.items), before.rows, turn, i);
          }
        }
        id := "";
        return false, id, at;
      }
      id := claimed.value.0;
      assert turn.targetNow <= turn.pollNow ==> Eligible(before.rows[id], turn.pollNow);
      Execute(claimed.value.0, claimed.value.1, turn);
      TurnOutcome(policy, old(cooldowns), before, id, at, turn);
      worked := true;
    }
  }

  // ----- Draining

  /** The attempts that waiting rows have left, in all. */
  ghost function RemainingWork(db: Db): int {
    Sum(WaitingIds(db.rows), Fairness.Budgets(db))
  }

  /** A turn uses up at least one remaining attempt of the queue. */
  lemma TurnShrinksWork(db: Db, db': Db, id: RequestId)
    requires id in db.rows && db.rows[id].status.Waiting()
    requires Fairness.Remaining(db.rows[id]) > 0
    requires db'.rows.Keys == db.rows.Keys && forall i :: i in db.rows && i != id ==> db'.rows[i] == db.rows[i]
    requires Fairness.Remaining(db'.rows[id]) == Fairness.Remaining(db.rows[id]) - 1
    ensures RemainingWork(db') < RemainingWork(db)
  {
    var before, after := WaitingIds(db.rows), WaitingIds(db'.rows);
    SumExtract(before, Fairness.Budgets(db), id);
    assert after - {id} == before - {id};
    SumSame(before - {id}, Fairness.Budgets(db'), Fairness.Budgets(db));
    if id in after {
      SumExtract(after, Fairness.Budgets(db'), id);
    } else {
      assert after == before - {id};
    }
  }

  lemma WorkIsNonNegative(db: Db)
    requires Consistent(db)
    ensures RemainingWork(db) >= 0
  {
    forall id | id in WaitingIds(db.rows) ensures Fairness.Budgets(db)[id] >= 0 {
      RowBounds(db, id);
    }
    SumNonNegative(WaitingIds(db.rows), Fairness.Budgets(db));
  }

  /** No row is due later than `horizon`. */
  ghost predicate DueBy(rows: map<RequestId, Row>, horizon: Instant) {
    forall id :: id in WaitingIds(rows) ==> rows[id].nextAttemptAt.Some? && rows[id].nextAttemptAt.value <= horizon
  }

  lemma HorizonExists(db: Db, ids: set<RequestId>) returns (horizon: Instant)
    requires Consistent(db) && ids <= WaitingIds(db.rows)
    ensures forall id :: id in ids ==> db.rows[id].nextAttemptAt.Some? && db.rows[id].nextAttemptAt.value <= horizon
    decreases |ids|
  {
    if ids == {} {
      horizon := 0;
    } else {
      var id :| id in ids;
      horizon := HorizonExists(db, ids - {id});
      assert RowOk(db, id);
      if db.rows[id].nextAttemptAt.value > horizon {
        horizon := db.rows[id].nextAttemptAt.value;
      }
    }
  }

  lemma NothingDueMeansLater(rows: map<RequestId, Row>, now: Instant, horizon: Instant)
    requires DueBy(rows, horizon) && WaitingIds(rows) != {}
    requires forall id :: id in rows ==> !Eligible(rows[id], now)
    ensures now < horizon
  {
    var id :| id in WaitingIds(rows);
    assert !Eligible(rows[id], now);
  }

  /** Only rows that were waiting at first have changed, and those are waiting, completed or dead. */
  ghost predicate DrainsFrom(initial: Db, db: Db) {
    && db.rows.Keys == initial.rows.Keys
    && forall id :: id in initial.rows ==> RowDrains(initial.rows[id], db.rows[id])
  }

  predicate RowDrains(before: Row, after: Row) {
    if before.status.Waiting() then after.status.Waiting() || after.status.Completed? || after.status.DeadLetter?
    else after == before
  }

  /** One working turn of the loop: what it keeps, what it uses up, and the new horizon. */
  lemma TurnDrains(
    policy: Backoff.Policy, cooldowns: Cooldowns, initial: Db, db: Db, id: RequestId, at: Instant, turn: Turn,
    horizon: Instant)
    returns (later: Instant)
    requires Consistent(db) && id in db.rows && Eligible(db.rows[id], at)
    requires DrainsFrom(initial, db) && DueBy(db.rows, horizon)
    ensures var db' := AfterTurn(policy, cooldowns, db, id, at, turn);
            && DrainsFrom(initial, db') && DueBy(db'.rows, later)
            && 0 <= RemainingWork(db') < RemainingWork(db)
  {
    var db' := AfterTurn(policy, cooldowns, db, id, at, turn);
    TurnOutcome(policy, cooldowns, db, id, at, turn);
    RowBounds(db, id);
    TurnShrinksWork(db, db', id);
    WorkIsNonNegative(db');
    assert RowDrains(initial.rows[id], db.rows[id]);
    forall i | i in initial.rows ensures RowDrains(initial.rows[i], db'.rows[i]) {
      assert RowDrains(initial.rows[i], db.rows[i]);
    }
    later := HorizonExists(db', WaitingIds(db'.rows));
  }

  /**
   The polling loop with arbitrary adapter outcomes and finish times, until nothing waits: readings of
   its clock do not decrease, and turns that find nothing let it advance. It ends with every row that was
   waiting completed or dead, every other row untouched, after at most as many claims as the waiting rows
   had attempts left.
   */
  method RunUntilDrained(
    worker: AutomationWorker, start: Instant, turns: nat -> Turn, waited: nat -> nat, elapsed: nat -> nat)
    returns (claims: nat)
    requires Consistent(worker.repository.Contents()) && worker.dispatch.Valid()
    modifies worker.repository, worker.dispatch, worker`cooldowns
    ensures Consistent(worker.repository.Contents())
    ensures worker.repository.rows.Keys == old(worker.repository.rows).Keys
    ensures forall id :: id in old(worker.repository.rows) ==>
              var before, after := old(worker.repository.rows)[id], worker.repository.rows[id];
              if before.status.Waiting() then after.status.Completed? || after.status.DeadLetter? else after == before
    ensures claims <= old(RemainingWork(worker.repository.Contents()))
  {
    var repo, now, k := worker.repository, start, 0;
    claims := 0;
    ghost var initial := repo.Contents();
    ghost var horizon := HorizonExists(initial, WaitingIds(initial.rows));
    WorkIsNonNegative(initial);
    while WaitingIds(repo.rows) != {}
      invariant Consistent(repo.Contents()) && worker.dispatch.Valid()
      invariant DrainsFrom(initial, repo.Contents())
      invariant DueBy(repo.rows, horizon)
      invariant 0 <= RemainingWork(repo.Contents()) && claims + RemainingWork(repo.Contents()) <= RemainingWork(initial)
      decreases RemainingWork(repo.Contents()), horizon - now
    {
      ghost var before, cooldowns := repo.Contents(), worker.cooldowns;
      var turn := turns(k).(targetNow := now, pollNow := now + waited(k));
      var worked, id, at := worker.RunOnce(turn);
      if worked {
        horizon := TurnDrains(worker.policy, cooldowns, initial, before, id, at, turn, horizon);
        claims, now := claims + 1, turn.pollNow + elapsed(k);
      } else {
        NothingDueMeansLater(repo.rows, turn.pollNow, horizon);
        now := turn.pollNow + 1 + elapsed(k);
      }
      k := k + 1;
    }
    forall id | id in initial.rows && initial.rows[id].status.Waiting()
      ensures repo.rows[id].status.Completed? || repo.rows[id].status.DeadLetter?
    {
      assert RowDrains(initial.rows[id], repo.rows[id]) && id !in WaitingIds(repo.rows);
    }
  }
}
