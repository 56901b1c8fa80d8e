/** Single attempts of actor 0 while one row is due: a hint that ends it, or a deferral. */
module Attempts {
  import opened Models
  import opened Tables
  import opened Protocol
  import opened Invariant
  import opened Timing
  import opened Gates
  import opened Turns
  import opened Histories

  /** Nobody has a transaction open, and actor 0 is free. */
  ghost predicate Ready(s: State) {
    NoLocks(s) && 0 in s.actors && s.actors[0].Idle?
  }

  ghost predicate Single(s: State, id: RequestId, now: int) {
    Ready(s) && DueIds(s, now) == {id}
  }

  /** The state after `id` has been locked and claimed by actor 0. */
  ghost function TakenState(cfg: Config, s: State, id: RequestId, now: int, pc: Pc): State
    requires id in s.db.rows
  {
    var row := s.db.rows[id];
    With(Popped(cfg, s), 0, pc).(db := Put(s.db, id, Claimed(row, row.attemptCount, now)))
  }

  lemma ClaimSingle(cfg: Config, h: History, id: RequestId, now: int) returns (h': History)
    requires h.Valid(cfg) && h.NotAfter(now) && Single(h.Last(), id, now)
    ensures id in h.Last().db.rows && h.Last().db.rows[id].id == id
    ensures h'.Valid(cfg) && h'.NotAfter(now) && h.Begins(h')
    ensures h'.Last() == TakenState(cfg, h.Last(), id, now, Holding(HoldFrom(h.Last().db.rows[id], now)))
  {
    hide Cycle, Inv;
    assert id in DueIds(h.Last(), now);
    RowsKnowTheirId(cfg, h, id);
    h' := ReachLock(cfg, h, 0, id, now);
    h' := Append(cfg, h', Claimer(0, CommitClaim), now);
    assert h'.Last().actors == TakenState(cfg, h.Last(), id, now, Holding(HoldFrom(h.Last().db.rows[id], now))).actors;
  }

  /** The state after actor 0 has claimed `id` at `now` and failed at once with `delay`. */
  ghost function FailedState(cfg: Config, s: State, id: RequestId, now: int, delay: int, cause: string,
                             cooldowns: map<(ActorId, string), int>): State
    requires id in s.db.rows
  {
    var row := Claimed(s.db.rows[id], s.db.rows[id].attemptCount, now);
    Popped(cfg, s).(
      db := Put(Put(s.db, id, row), id, FailedRow(row, row.attemptCount, row.fields.maxAttempts, cause, delay, now)),
      cooldowns := cooldowns)
  }

  lemma FinishFailing(
    cfg: Config, h: History, s: State, id: RequestId, now: int, delay: int, cause: string,
    cooldowns: map<(ActorId, string), int>)
    returns (h': History)
    requires h.Valid(cfg) && h.NotAfter(now)
    requires Ready(s) && id in s.db.rows && s.db.rows[id].id == id
    requires h.Last() == TakenState(cfg, s, id, now, Failing(HoldFrom(s.db.rows[id], now), delay, cause))
                         .(cooldowns := cooldowns)
    ensures h'.Valid(cfg) && h'.NotAfter(now) && h.Begins(h')
    ensures h'.Last() == FailedState(cfg, s, id, now, delay, cause, cooldowns)
  {
    hide Leads, Enabled, Apply;
    Stay(cfg, AllAt(now), h.Last());
    FailPath(cfg, AllAt(now), h.Last(), h.Last(), 0, HoldFrom(s.db.rows[id], now), delay, cause, now);
    var row := h.Last().db.rows[id];
    var end := FinishedState(h.Last(), 0, FailedRow(row, row.attemptCount, row.fields.maxAttempts, cause, delay, now),
                             cooldowns);
    assert end.actors == s.actors;
    h' := Follow(cfg, h, now, end);
  }

  lemma NextPc(cfg: Config, s: State, id: RequestId, now: int, pc: Pc, pc': Pc)
    requires id in s.db.rows
    ensures With(TakenState(cfg, s, id, now, pc), 0, pc') == TakenState(cfg, s, id, now, pc')
  {
    assert TakenState(cfg, s, id, now, pc).actors[0 := pc'] == s.actors[0 := pc'];
  }

  lemma ApplyWork(cfg: Config, s: State, op: WorkOp)
    requires 0 in s.actors && CanWork(s.actors[0], op)
    ensures Enabled(cfg, s, Worker(0, op)) && Apply(cfg, s, Worker(0, op)) == DoWork(cfg, s, 0, s.actors[0], op)
  {
  }

  /** The worker claims `id` outside any cooldown and is turned away by a 429 with a hint. */
  lemma RaisedSingle(cfg: Config, h: History, id: RequestId, now: int, hint: nat) returns (h': History)
    requires h.Valid(cfg) && h.NotAfter(now) && Single(h.Last(), id, now)
    requires id in h.Last().db.rows && Until(h.Last(), 0, h.Last().db.rows[id].fields.target) <= now
    ensures h'.Valid(cfg) && h'.NotAfter(now) && h.Begins(h') && h.Last().db.rows[id].id == id
    ensures h'.Last() == TakenState(cfg, h.Last(), id, now, Raised(HoldFrom(h.Last().db.rows[id], now), Some(hint), ""))
  {
    hide Single, Enabled, Apply, OnClock, Eligible;
    var s := h.Last();
    var hold := HoldFrom(s.db.rows[id], now);
    h' := ClaimSingle(cfg, h, id, now);
    ApplyWork(cfg, h'.Last(), CheckCooldown(now));
    h' := Append(cfg, h', Worker(0, CheckCooldown(now)), now);
    NextPc(cfg, s, id, now, Holding(hold), Executing(hold));
    NextPc(cfg, s, id, now, Executing(hold), Raised(hold, Some(hint), ""));
    ApplyWork(cfg, h'.Last(), Raise(Some(hint), ""));
    h' := Append(cfg, h', Worker(0, Raise(Some(hint), "")), now);
  }

  /** And plans the retry that the hint asks for. */
  lemma PlannedSingle(cfg: Config, h: History, id: RequestId, now: int, hint: nat) returns (h': History, i: nat)
    requires h.Valid(cfg) && h.NotAfter(now) && Single(h.Last(), id, now)
    requires id in h.Last().db.rows && Until(h.Last(), 0, h.Last().db.rows[id].fields.target) <= now
    ensures h'.Valid(cfg) && h'.NotAfter(now) && h.Begins(h') && h.Last().db.rows[id].id == id
    ensures |h.run.labels| <= i < |h'.run.labels| == |h'.times|
    ensures DecidesAt(h'.run, i, 0, id) && DelayAt(h'.run, i, 0) == hint && h'.times[i] == now
    ensures var hold := HoldFrom(h.Last().db.rows[id], now);
            h'.Last() == TakenState(cfg, h.Last(), id, now, Failing(hold, hint, ""))
                         .(cooldowns := h.Last().cooldowns[(0, hold.target) := now + Seconds(hint)])
  {
    hide Single, Enabled, Apply, OnClock, Eligible;
    var s := h.Last();
    var hold := HoldFrom(s.db.rows[id], now);
    var h1 := RaisedSingle(cfg, h, id, now, hint);
    i := |h1.run.labels|;
    ApplyWork(cfg, h1.Last(), PlanRetry(0.0, now));
    h' := Append(cfg, h1, Worker(0, PlanRetry(0.0, now)), now);
    NextPc(cfg, s, id, now, Raised(hold, Some(hint), ""), Failing(hold, hint, ""));
  }

  /** An attempt outside any cooldown that a 429 with a hint ends at once. */
  lemma HintedAttempt(cfg: Config, h: History, id: RequestId, now: int, hint: nat) returns (h': History, i: nat)
    requires h.Valid(cfg) && h.NotAfter(now) && Single(h.Last(), id, now)
    requires id in h.Last().db.rows && Until(h.Last(), 0, h.Last().db.rows[id].fields.target) <= now
    ensures h'.Valid(cfg) && h'.NotAfter(now) && h.Begins(h') && |h.run.labels| <= i < |h'.run.labels|
    ensures DecidesAt(h'.run, i, 0, id) && DelayAt(h'.run, i, 0) == hint && h'.times[i] == now
    ensures var target := h.Last().db.rows[id].fields.target;
            h'.Last() == FailedState(cfg, h.Last(), id, now, hint, "",
                                     h.Last().cooldowns[(0, target) := now + Seconds(hint)])
  {
    hide Enabled, Apply, OnClock, TakenState, FailedState, Eligible;
    var s := h.Last();
    var h1;
    h1, i := PlannedSingle(cfg, h, id, now, hint);
    var target := s.db.rows[id].fields.target;
    h' := FinishFailing(cfg, h1, s, id, now, hint, "", s.cooldowns[(0, target) := now + Seconds(hint)]);
    SamePast(h1, h', i);
  }

  /** The worker claims `id` inside a cooldown and decides on a deferral. */
  lemma DeferredSingle(cfg: Config, h: History, id: RequestId, now: int, deadline: int) returns (h': History, i: nat)
    requires h.Valid(cfg) && h.NotAfter(now) && Single(h.Last(), id, now)
    requires id in h.Last().db.rows && Until(h.Last(), 0, h.Last().db.rows[id].fields.target) == deadline > now
    ensures h'.Valid(cfg) && h'.NotAfter(now) && h.Begins(h') && h.Last().db.rows[id].id == id
    ensures |h.run.labels| <= i < |h'.run.labels| == |h'.times|
    ensures DefersAt(h'.run, i, 0, id, deadline)
    ensures h'.run.states[i].db
            == Put(h.Last().db, id, Claimed(h.Last().db.rows[id], h.Last().db.rows[id].attemptCount, now))
    ensures var hold := HoldFrom(h.Last().db.rows[id], now);
            h'.Last() == TakenState(cfg, h.Last(), id, now, Failing(hold, DeferSeconds(deadline, now), "cooling down"))
  {
    hide Single, Enabled, Apply, OnClock, Eligible;
    var s := h.Last();
    var hold := HoldFrom(s.db.rows[id], now);
    var h1 := ClaimSingle(cfg, h, id, now);
    ApplyWork(cfg, h1.Last(), CheckCooldown(now));
    var h2 := Append(cfg, h1, Worker(0, CheckCooldown(now)), now);
    NextPc(cfg, s, id, now, Holding(hold), Deferring(hold, deadline));
    i := |h2.run.labels|;
    ApplyWork(cfg, h2.Last(), ComputeDelay(now));
    h' := Append(cfg, h2, Worker(0, ComputeDelay(now)), now);
    NextPc(cfg, s, id, now, Deferring(hold, deadline), Failing(hold, DeferSeconds(deadline, now), "cooling down"));
  }

  /** An attempt inside a cooldown, which defers it. */
  lemma DeferredAttempt(cfg: Config, h: History, id: RequestId, now: int, deadline: int) returns (h': History, i: nat)
    requires h.Valid(cfg) && h.NotAfter(now) && Single(h.Last(), id, now)
    requires id in h.Last().db.rows && Until(h.Last(), 0, h.Last().db.rows[id].fields.target) == deadline > now
    ensures h'.Valid(cfg) && h'.NotAfter(now) && h.Begins(h') && |h.run.labels| <= i < |h'.run.labels|
    ensures DefersAt(h'.run, i, 0, id, deadline)
    ensures Cycle(h'.run.states[i].db, id) == Cycle(h.Last().db, id) == Cycle(h'.Last().db, id)
    ensures h'.Last() == FailedState(cfg, h.Last(), id, now, DeferSeconds(deadline, now), "cooling down",
                                     h.Last().cooldowns)
  {
    hide Enabled, Apply, OnClock, Eligible;
    var s := h.Last();
    var h1;
    h1, i := DeferredSingle(cfg, h, id, now, deadline);
    h' := FinishFailing(cfg, h1, s, id, now, DeferSeconds(deadline, now), "cooling down", s.cooldowns);
    SamePast(h1, h', i);
    FailedCycle(cfg, s, id, now, DeferSeconds(deadline, now), "cooling down", s.cooldowns);
  }

  /** Neither the claim nor the failure of an attempt changes the cycle. */
  lemma FailedCycle(cfg: Config, s: State, id: RequestId, now: int, delay: int, cause: string,
                    cooldowns: map<(ActorId, string), int>)
    requires id in s.db.rows
    ensures Cycle(Put(s.db, id, Claimed(s.db.rows[id], s.db.rows[id].attemptCount, now)), id) == Cycle(s.db, id)
    ensures Cycle(FailedState(cfg, s, id, now, delay, cause, cooldowns).db, id) == Cycle(s.db, id)
  {
    var row := Claimed(s.db.rows[id], s.db.rows[id].attemptCount, now);
    var row' := FailedRow(row, row.attemptCount, row.fields.maxAttempts, cause, delay, now);
    PutCycle(s.db, id, row, id);
    PutCycle(Put(s.db, id, row), id, row', id);
  }

  function RequestWith(budget: nat): AutomationRequest
    requires 1 <= budget <= 10
  {
    RequestFields("p", "t", Api, "", None, budget)
  }

  /** Two actors, no rows, nothing in the broker list. */
  function Start(): History {
    History(Run([State(EMPTY, map[0 := Idle, 1 := Idle], map[], [], {}, {})], []), [])
  }

  lemma StartIsValid(cfg: Config)
    ensures Start().Valid(cfg)
  {
  }

  /** Actor 0 submits one request. */
  lemma SubmitSingle(cfg: Config, h: History, id: RequestId, budget: nat, now: int) returns (h': History)
    requires h.Valid(cfg) && h.NotAfter(now) && 1 <= budget <= 10
    requires Ready(h.Last()) && id !in h.Last().used && DueIds(h.Last(), now) == {}
    ensures h'.Valid(cfg) && h'.NotAfter(now) && h.Begins(h')
    ensures h'.Last() == SubmittedState(cfg, h.Last(), id, RequestWith(budget), now)
    ensures Single(h'.Last(), id, now)
  {
    hide Apply, Enabled, OnClock, Leads;
    ReachableInv(cfg, h.run, |h.run.labels|);
    SubmitPath(cfg, AllAt(now), h.Last(), 0, id, RequestWith(budget), now);
    h' := Follow(cfg, h, now, SubmittedState(cfg, h.Last(), id, RequestWith(budget), now));
  }
}
