/**
 Where the gates end. A replay makes a dead letter claimable at once, whatever delay or cooldown its last
 attempt was given: every run that ends in a quiet dead letter goes on to such a claim, and runs exist in
 which the claim comes before the gate. So the replay cycle in the results of `Gates` cannot be dropped.
 */
module Reopening {
  import opened Models
  import opened Tables
  import opened Protocol
  import opened Invariant
  import opened Effects
  import opened Claims
  import opened Timing
  import opened Gates
  import opened Turns
  import opened Histories
  import opened Attempts
  import Tallies

  // ----- The general half

  lemma ReplayNow(cfg: Config, h: History, operator: ActorId, id: RequestId, now: int) returns (h': History)
    requires h.Valid(cfg) && h.NotAfter(now) && NoLocks(h.Last())
    requires operator in h.Last().actors && h.Last().actors[operator].Idle?
    requires id in h.Last().db.rows && h.Last().db.rows[id].status.DeadLetter?
    ensures h'.Valid(cfg) && h'.NotAfter(now) && h.Begins(h') && h'.Last().actors == h.Last().actors
    ensures id in DueIds(h'.Last(), now) && Cycle(h'.Last().db, id) == Cycle(h.Last().db, id) + 1
  {
    hide Leads, Apply, Cycle, Inv;
    var s := h.Last();
    RowsKnowTheirId(cfg, h, id);
    ReplayPath(cfg, AllAt(now), s, operator, id, now);
    WriteAndCycle(s.db, Requeues(id, now), id);
    h' := Follow(cfg, h, now, Published(cfg, s.(db := Put(s.db, id, RequeuedRow(s.db.rows[id], now))), id));
  }

  /**
   A replay reopens a dead letter at once. Every run that ends without open transactions in a dead letter,
   with an operator and a worker idle, goes on, on the same clock, to a claim of it at that very time, in
   the next replay cycle: no delay, hint or cooldown of its last attempt stands in the way.
   */
  lemma ReplayReopensAtOnce(cfg: Config, h: History, operator: ActorId, worker: ActorId, id: RequestId, now: int)
    returns (h': History, k: nat)
    requires h.Valid(cfg) && h.NotAfter(now) && NoLocks(h.Last())
    requires operator in h.Last().actors && h.Last().actors[operator].Idle?
    requires worker in h.Last().actors && h.Last().actors[worker].Idle?
    requires id in h.Last().db.rows && h.Last().db.rows[id].status.DeadLetter?
    ensures h'.Valid(cfg) && h.Begins(h') && |h.run.labels| <= k < |h'.run.labels|
    ensures ClaimsAt(h'.run, k, id) && EffectOf(h'.run.states[k], h'.run.labels[k]).now == now
    ensures Cycle(h'.run.states[k].db, id) == Cycle(h.Last().db, id) + 1
  {
    hide Leads, Apply, Cycle, Inv, OnClock, RequeuedRow, Until;
    var h1 := ReplayNow(cfg, h, operator, id, now);
    RowsKnowTheirId(cfg, h1, id);
    var h2 := ReachLock(cfg, h1, worker, id, now);
    k := |h2.run.labels|;
    assert h2.Last().actors[worker] == Claiming(h1.Last().db.rows[id], now);
    h' := Append(cfg, h2, Claimer(worker, CommitClaim), now);
  }

  /** So a quiet dead letter whose gate has not passed always extends to a claim before the gate. */
  lemma GatesEndWithTheirCycle(
    cfg: Config, h: History, i: nat, a: ActorId, operator: ActorId, worker: ActorId, id: RequestId, now: int)
    returns (h': History, k: nat)
    requires h.Valid(cfg) && h.NotAfter(now) && NoLocks(h.Last())
    requires operator in h.Last().actors && h.Last().actors[operator].Idle?
    requires worker in h.Last().actors && h.Last().actors[worker].Idle?
    requires id in h.Last().db.rows && h.Last().db.rows[id].status.DeadLetter?
    requires i < |h.run.labels| && DecidesAt(h.run, i, a, id) && now < h.times[i] + Seconds(DelayAt(h.run, i, a))
    ensures h'.Valid(cfg) && h.Begins(h') && i < k < |h'.run.labels|
    ensures DecidesAt(h'.run, i, a, id) && ClaimsAt(h'.run, k, id)
    ensures EffectOf(h'.run.states[k], h'.run.labels[k]).now < h'.times[i] + Seconds(DelayAt(h'.run, i, a))
  {
    h', k := ReplayReopensAtOnce(cfg, h, operator, worker, id, now);
    SamePast(h, h', i);
  }

  // ----- Witnesses

  /** There is a run with a claim before the gate of a decision: one attempt, and a hint of 60 seconds. */
  lemma ClaimBeforeTheGateExists(cfg: Config) returns (h: History, i: nat, k: nat)
    ensures h.Valid(cfg) && i < k < |h.run.labels| && DecidesAt(h.run, i, 0, "a") && ClaimsAt(h.run, k, "a")
    ensures EffectOf(h.run.states[k], h.run.labels[k]).now < h.times[i] + Seconds(DelayAt(h.run, i, 0))
  {
    hide Apply, Enabled, Inv;
    var h1 := SubmitSingle(cfg, Start(), "a", 1, 0);
    var h2;
    h2, i := HintedAttempt(cfg, h1, "a", 0, 60);
    h, k := GatesEndWithTheirCycle(cfg, h2, i, 0, 0, 0, "a", 0);
  }

  /** Only `b` waits, with `n` of two attempts used; its target cools down until two seconds. */
  ghost predicate OnlyBWaits(s: State, n: int, due: int) {
    && Ready(s) && s.db.rows.Keys == {"a", "b"}
    && !s.db.rows["a"].status.Waiting() && s.db.rows["b"].status.Waiting()
    && s.db.rows["b"].fields == RequestWith(2) && s.db.rows["b"].attemptCount == n
    && s.db.rows["b"].nextAttemptAt == Some(due) && Until(s, 0, "t") == 2_000_000
  }

  /** Request `a` is dead after its only attempt, which brought the cooldown. */
  ghost predicate OnlyDeadA(s: State) {
    && Ready(s) && s.used == s.db.rows.Keys == {"a"}
    && s.db.rows["a"].status.DeadLetter? && Until(s, 0, "t") == 2_000_000
  }

  lemma CooldownByA(cfg: Config) returns (h: History)
    ensures h.Valid(cfg) && h.NotAfter(500_000) && OnlyDeadA(h.Last())
  {
    hide Apply, Enabled, Inv, Cycle, OnClock;
    StartIsValid(cfg);
    var h1 := SubmitSingle(cfg, Start(), "a", 1, 0);
    var i;
    h, i := HintedAttempt(cfg, h1, "a", 0, 2);
  }

  lemma CooldownForB(cfg: Config) returns (h: History)
    ensures h.Valid(cfg) && h.NotAfter(500_000) && OnlyBWaits(h.Last(), 0, 500_000)
  {
    hide Apply, Enabled, Inv, Cycle, OnClock;
    var h1 := CooldownByA(cfg);
    h := SubmitSingle(cfg, h1, "b", 2, 500_000);
  }

  lemma DeferB(cfg: Config, h: History, n: int, now: int) returns (h': History, i: nat)
    requires h.Valid(cfg) && h.NotAfter(now) && OnlyBWaits(h.Last(), n, now) && 0 <= n < 2 && now < 2_000_000
    ensures h'.Valid(cfg) && h'.NotAfter(now) && h.Begins(h') && |h.run.labels| <= i < |h'.run.labels|
    ensures DefersAt(h'.run, i, 0, "b", 2_000_000)
    ensures Cycle(h'.run.states[i].db, "b") == Cycle(h.Last().db, "b") == Cycle(h'.Last().db, "b")
    ensures n == 0 ==> OnlyBWaits(h'.Last(), 1, now + Seconds(DeferSeconds(2_000_000, now)))
    ensures n == 1 ==> Ready(h'.Last()) && "b" in h'.Last().db.rows && h'.Last().db.rows["b"].status.DeadLetter?
  {
    hide Apply, Enabled, Inv, Cycle, OnClock;
    assert DueIds(h.Last(), now) == {"b"};
    RowsKnowTheirId(cfg, h, "b");
    h', i := DeferredAttempt(cfg, h, "b", now, 2_000_000);
  }

  /** There is a run to a dead letter that had fewer adapter calls than attempts, two deferrals being its attempts. */
  lemma DeadLetterWithFewerCallsExists(cfg: Config) returns (h: History)
    ensures h.Valid(cfg) && "b" in h.Last().db.rows && h.Last().db.rows["b"].status.DeadLetter?
    ensures var t := Tallies.TallyAt(h.run, |h.run.labels|, "b");
            t.calls < (t.replays + 1) * h.Last().db.rows["b"].fields.maxAttempts
  {
    hide Apply, Enabled, Inv, Cycle, OnClock, Tallies.TallyAt;
    var h0 := CooldownForB(cfg);
    var h1, i := DeferB(cfg, h0, 0, 500_000);
    var j;
    h, j := DeferB(cfg, h1, 1, 1_500_000);
    Tallies.DeferredDeadLettersHadFewerCalls(cfg, h.run, j, |h.run.labels|, 0, "b");
  }

  /**
   There is a run with two deferrals of one request for one deadline, in one cycle, and a claim before that
   deadline: the first request brings a cooldown of two seconds, which the second meets after half a second
   and after one and a half, with two attempts.
   */
  lemma ClaimBeforeTheDeadlineExists(cfg: Config) returns (h: History, i: nat, j: nat, k: nat)
    ensures h.Valid(cfg) && i < j < k < |h.run.labels|
    ensures DefersAt(h.run, i, 0, "b", 2_000_000) && DefersAt(h.run, j, 0, "b", 2_000_000) && ClaimsAt(h.run, k, "b")
    ensures Cycle(h.run.states[i].db, "b") == Cycle(h.run.states[j].db, "b")
    ensures EffectOf(h.run.states[k], h.run.labels[k]).now < 2_000_000
  {
    hide Apply, Enabled, Inv, Cycle;
    var h0 := CooldownForB(cfg);
    var h1, h2;
    h1, i := DeferB(cfg, h0, 0, 500_000);
    h2, j := DeferB(cfg, h1, 1, 1_500_000);
    SamePast(h1, h2, i);
    h, k := ReplayReopensAtOnce(cfg, h2, 0, 0, "b", 1_500_000);
    SamePast(h2, h, i);
    SamePast(h2, h, j);
  }
}
