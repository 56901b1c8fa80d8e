/**
 The retry gate over whole runs. It rests on the stamp that the failing worker writes, so it holds
 however the clocks of the workers disagree; one shared clock only serves to date the decision itself.
 */
module Gates {
  import opened Models
  import opened Tables
  import opened Protocol
  import opened Invariant
  import opened Effects
  import opened Claims
  import opened LogOrder
  import opened Cooldowns
  import opened Timing

  /** Nothing happens to the row before `gate`. */
  predicate RowGated(row: Row, gate: int) {
    && (row.status.Waiting() ==> row.nextAttemptAt.Some? && row.nextAttemptAt.value >= gate)
    && (row.status.Running? ==> row.updatedAt >= gate)
  }

  /** The same for as long as replay cycle `c` lasts. */
  ghost predicate Gated(db: Db, id: RequestId, c: int, gate: int) {
    id in db.rows && Cycle(db, id) >= c && (Cycle(db, id) == c ==> RowGated(db.rows[id], gate))
  }

  lemma WriteKeepsGate(db: Db, e: Effect, id: RequestId, c: int, gate: int)
    requires Consistent(db) && Allowed(db, e) && InTime(db, e) && Gated(db, id, c, gate)
    ensures Gated(Written(db, e), id, c, gate)
  {
    hide Cycle;
    WriteAndCycle(db, e, id);
  }

  /** Step `i` commits a failure of `id`: a retry or a burial. */
  ghost predicate FailsAt(r: Run, i: nat, id: RequestId)
    requires i < |r.labels| && |r.states| == |r.labels| + 1
  {
    EffectOf(r.states[i], r.labels[i]).Fails? && EffectOf(r.states[i], r.labels[i]).id == id
  }

  /** The stamp of that failure plus its delay. */
  ghost function GateOf(r: Run, i: nat, id: RequestId): int
    requires i < |r.labels| && |r.states| == |r.labels| + 1 && FailsAt(r, i, id)
  {
    EffectOf(r.states[i], r.labels[i]).now + Seconds(EffectOf(r.states[i], r.labels[i]).delay)
  }

  ghost predicate SteadyBetween(r: Run, i: nat, j: nat)
    requires i <= j <= |r.labels| && |r.states| == |r.labels| + 1
  {
    forall k {:trigger r.labels[k]} :: i <= k < j ==> Steady(r.states[k], r.labels[k])
  }

  lemma FailureGates(cfg: Config, r: Run, i: nat, id: RequestId)
    requires r.Valid(cfg) && i < |r.labels| && FailsAt(r, i, id)
    ensures id in r.states[i].db.rows
    ensures Cycle(r.states[i + 1].db, id) == Cycle(r.states[i].db, id)
    ensures Gated(r.states[i + 1].db, id, Cycle(r.states[i].db, id), GateOf(r, i, id))
  {
    var s, e := r.states[i], EffectOf(r.states[i], r.labels[i]);
    ReachableInv(cfg, r, i);
    StepIsAllowedWrite(cfg, s, r.labels[i]);
    WriteAndCycle(s.db, e, id);
  }

  lemma {:induction false} StaysGated(cfg: Config, r: Run, i: nat, j: nat, id: RequestId)
    requires r.Valid(cfg) && i < j < |r.states| && FailsAt(r, i, id) && SteadyBetween(r, i, j)
    ensures Gated(r.states[j].db, id, Cycle(r.states[i].db, id), GateOf(r, i, id))
  {
    hide Enabled, Apply, Cycle, Steady;
    FailureGates(cfg, r, i, id);
    if j > i + 1 {
      var s, l := r.states[j - 1], r.labels[j - 1];
      StaysGated(cfg, r, i, j - 1, id);
      ReachableInv(cfg, r, j - 1);
      StepIsAllowedWrite(cfg, s, l);
      SteadyIsInTime(cfg, s, l);
      WriteKeepsGate(s.db, EffectOf(s, l), id, Cycle(r.states[i].db, id), GateOf(r, i, id));
    }
  }

  /**
   The gate theorem: after a failure stamped t with a delay of d seconds no worker claims that request
   in the same replay cycle on a clock reading before t + d, whatever the clocks of the workers.
   */
  lemma NoClaimBeforeTheDelay(cfg: Config, r: Run, i: nat, j: nat, id: RequestId)
    requires r.Valid(cfg) && i < j < |r.labels| && SteadyBetween(r, i, j)
    requires FailsAt(r, i, id) && ClaimsAt(r, j, id)
    requires Cycle(r.states[j].db, id) == Cycle(r.states[i].db, id)
    ensures EffectOf(r.states[j], r.labels[j]).now >= GateOf(r, i, id)
  {
    StaysGated(cfg, r, i, j, id);
    ReachableInv(cfg, r, j);
    StepIsAllowedWrite(cfg, r.states[j], r.labels[j]);
  }

  // ----- From the decision to the failure

  /** Step `i`: worker `a`, holding `id`, decides on a delay; the next state carries it. */
  ghost predicate DecidesAt(r: Run, i: nat, a: ActorId, id: RequestId)
    requires i < |r.labels| && |r.states| == |r.labels| + 1
  {
    && r.labels[i].Worker? && r.labels[i].actor == a
    && (r.labels[i].work.ComputeDelay? || r.labels[i].work.PlanRetry?)
    && a in r.states[i].actors && Holds(r.states[i].actors[a], id)
    && a in r.states[i + 1].actors && r.states[i + 1].actors[a].Failing?
  }

  function DelayAt(r: Run, i: nat, a: ActorId): int
    requires i < |r.labels| && |r.states| == |r.labels| + 1
    requires a in r.states[i + 1].actors && r.states[i + 1].actors[a].Failing?
  {
    r.states[i + 1].actors[a].delay
  }

  /** The worker still carries its decision, or crashed with it. */
  ghost predicate StillDecided(s: State, a: ActorId, id: RequestId, delay: int) {
    && a in s.actors && Holds(s.actors[a], id)
    && (s.actors[a].Crashed? || ((s.actors[a].Failing? || s.actors[a].FailRead?) && s.actors[a].delay == delay))
  }

  /** Step `f` commits the failure with the delay that was decided at step `i`. */
  ghost predicate Lands(r: Run, i: nat, f: nat, a: ActorId, id: RequestId)
    requires i < |r.labels| && f < |r.labels| && |r.states| == |r.labels| + 1 && DecidesAt(r, i, a, id)
  {
    && i < f && FailsAt(r, f, id) && r.labels[f].actor == a
    && EffectOf(r.states[f], r.labels[f]).delay == DelayAt(r, i, a)
  }

  lemma DecisionStaysOrLands(cfg: Config, s: State, l: Label, a: ActorId, id: RequestId, delay: int)
    requires Inv(s) && Enabled(cfg, s, l) && StillDecided(s, a, id, delay)
    ensures var e := EffectOf(s, l);
            || StillDecided(Apply(cfg, s, l), a, id, delay)
            || (!l.Disturb? && l.actor == a && e.Fails? && e.id == id && e.delay == delay)
  {
    assert PcOk(s.db, s.used, s.actors[a]);
    if l.Disturb? || l.actor != a {
      OthersKeepPc(cfg, s, l, a);
    }
  }

  lemma {:induction false} DecisionLands(cfg: Config, r: Run, i: nat, j: nat, a: ActorId, id: RequestId)
    requires r.Valid(cfg) && i < j < |r.states| && DecidesAt(r, i, a, id)
    ensures StillDecided(r.states[j], a, id, DelayAt(r, i, a)) || exists f: nat :: f < j && Lands(r, i, f, a, id)
  {
    if j > i + 1 {
      DecisionLands(cfg, r, i, j - 1, a, id);
      if StillDecided(r.states[j - 1], a, id, DelayAt(r, i, a)) {
        ReachableInv(cfg, r, j - 1);
        DecisionStaysOrLands(cfg, r.states[j - 1], r.labels[j - 1], a, id, DelayAt(r, i, a));
        assert !StillDecided(r.states[j], a, id, DelayAt(r, i, a)) ==> Lands(r, i, j - 1, a, id);
      }
    }
  }

  lemma DeciderHoldsCycle(cfg: Config, r: Run, i: nat, f: nat, j: nat, a: ActorId, id: RequestId)
    requires r.Valid(cfg) && i <= f <= j < |r.labels| && DecidesAt(r, i, a, id)
    requires Cycle(r.states[j].db, id) == Cycle(r.states[i].db, id)
    ensures Cycle(r.states[f].db, id) == Cycle(r.states[i].db, id)
  {
    ReachableInv(cfg, r, i);
    assert PcOk(r.states[i].db, r.states[i].used, r.states[i].actors[a]);
    RunProgress(cfg, r, i, f, id);
    RunProgress(cfg, r, f, j, id);
  }

  /** A claim in the cycle of a decision comes after its failure, and no sooner than that stamp plus the delay. */
  lemma DecidedDelaysAreWaitedOut(cfg: Config, r: Run, i: nat, j: nat, a: ActorId, id: RequestId) returns (f: nat)
    requires r.Valid(cfg) && i < j < |r.labels| && SteadyBetween(r, i, j)
    requires DecidesAt(r, i, a, id) && ClaimsAt(r, j, id)
    requires Cycle(r.states[j].db, id) == Cycle(r.states[i].db, id)
    ensures f < j && Lands(r, i, f, a, id)
    ensures EffectOf(r.states[j], r.labels[j]).now >= GateOf(r, f, id)
  {
    hide Cycle;
    DecisionLands(cfg, r, i, j, a, id);
    ReachableInv(cfg, r, j);
    StepIsAllowedWrite(cfg, r.states[j], r.labels[j]);
    if a in r.states[j].actors {
      assert PcOk(r.states[j].db, r.states[j].used, r.states[j].actors[a]);
    }
    f :| f < j && Lands(r, i, f, a, id);
    DeciderHoldsCycle(cfg, r, i, f, j, a, id);
    NoClaimBeforeTheDelay(cfg, r, f, j, id);
  }

  /** So a server hint h keeps the request itself unclaimed, by any worker, for h from the failure's stamp on. */
  lemma HintGatesTheRequest(cfg: Config, r: Run, i: nat, j: nat, a: ActorId, target: string) returns (f: nat)
    requires r.Valid(cfg) && i < j < |r.labels| && SteadyBetween(r, i, j) && HintedAt(r, i, a, target)
    requires ClaimsAt(r, j, r.states[i].actors[a].hold.id)
    requires Cycle(r.states[j].db, r.states[i].actors[a].hold.id)
             == Cycle(r.states[i].db, r.states[i].actors[a].hold.id)
    ensures i < f < j && FailsAt(r, f, r.states[i].actors[a].hold.id) && r.labels[f].actor == a
    ensures EffectOf(r.states[j], r.labels[j]).now
            >= EffectOf(r.states[f], r.labels[f]).now + Seconds(r.states[i].actors[a].hint.value)
  {
    f := DecidedDelaysAreWaitedOut(cfg, r, i, j, a, r.states[i].actors[a].hold.id);
  }

  // ----- On one shared clock

  lemma ClockIsSteadyBetween(cfg: Config, r: Run, times: seq<int>, i: nat, j: nat)
    requires r.Valid(cfg) && OnClock(r, times) && i <= j <= |r.labels|
    ensures SteadyBetween(r, i, j)
  {
    forall k | i <= k < j ensures Steady(r.states[k], r.labels[k]) {
      ClockIsSteady(cfg, r, times, k);
    }
  }

  /** On one clock, a decision at time t on a delay of d keeps the request unclaimed before t + d. */
  lemma NoClaimBeforeTheDecidedTime(cfg: Config, r: Run, times: seq<int>, i: nat, j: nat, a: ActorId, id: RequestId)
    requires r.Valid(cfg) && OnClock(r, times) && i < j < |r.labels|
    requires DecidesAt(r, i, a, id) && ClaimsAt(r, j, id)
    requires Cycle(r.states[j].db, id) == Cycle(r.states[i].db, id)
    ensures EffectOf(r.states[j], r.labels[j]).now >= times[i] + Seconds(DelayAt(r, i, a))
  {
    ClockIsSteadyBetween(cfg, r, times, i, j);
    var f := DecidedDelaysAreWaitedOut(cfg, r, i, j, a, id);
    assert Reads(r.labels[f], times[f]) && times[i] <= times[f];
  }

  lemma DeferringHold(cfg: Config, r: Run, times: seq<int>, i: nat, a: ActorId)
    requires r.Valid(cfg) && OnClock(r, times) && i < |r.labels|
    requires a in r.states[i].actors && r.states[i].actors[a].Deferring?
    ensures var s, hold := r.states[i], r.states[i].actors[a].hold;
            && HoldOk(s.db, hold) && hold.claimedAt <= times[i] && hold.claimedAt < s.actors[a].until
  {
    ReachableInv(cfg, r, i);
    RunInPast(cfg, r, times, i);
    assert PcOk(r.states[i].db, r.states[i].used, r.states[i].actors[a]);
    assert PcInPast(r.states[i].actors[a], times[i]);
  }

  /** A worker that holds the request again, in the same cycle, has claimed it past the gate of its decision. */
  lemma NextHoldIsLate(cfg: Config, r: Run, times: seq<int>, i: nat, j: nat, a: ActorId, id: RequestId)
    requires r.Valid(cfg) && OnClock(r, times) && i < j < |r.labels| && DecidesAt(r, i, a, id)
    requires a in r.states[j].actors && r.states[j].actors[a].Deferring? && r.states[j].actors[a].hold.id == id
    requires Cycle(r.states[j].db, id) == Cycle(r.states[i].db, id)
    ensures times[i] + Seconds(DelayAt(r, i, a)) <= r.states[j].actors[a].hold.claimedAt <= times[j]
    ensures r.states[j].actors[a].until > r.states[j].actors[a].hold.claimedAt
  {
    hide Cycle, Enabled, Apply, SteadyBetween;
    DecisionLands(cfg, r, i, j, a, id);
    var f: nat :| f < j && Lands(r, i, f, a, id);
    assert Reads(r.labels[f], times[f]) && times[i] <= times[f];
    DeciderHoldsCycle(cfg, r, i, f, j, a, id);
    ClockIsSteadyBetween(cfg, r, times, f, j);
    StaysGated(cfg, r, f, j, id);
    DeferringHold(cfg, r, times, j, a);
  }

  // ----- Cooldown deferrals

  /** Step `i`: worker `a` defers `id` because of the cooldown deadline `deadline`. */
  ghost predicate DefersAt(r: Run, i: nat, a: ActorId, id: RequestId, deadline: int)
    requires i < |r.labels| && |r.states| == |r.labels| + 1
  {
    && r.labels[i].Worker? && r.labels[i].actor == a && r.labels[i].work.ComputeDelay?
    && a in r.states[i].actors && r.states[i].actors[a].Deferring?
    && r.states[i].actors[a].hold.id == id && r.states[i].actors[a].until == deadline
  }

  /** The truncated remaining time falls short of the deadline by less than a second, and is at least a second. */
  lemma DeferralFallsShort(deadline: int, clock: int)
    ensures DeferSeconds(deadline, clock) >= 1
    ensures clock + Seconds(DeferSeconds(deadline, clock)) > deadline - Seconds(1)
  {
  }

  /** After one deferral the request is not claimed again until less than a second before the deadline. */
  lemma SecondDeferralIsLate(
    cfg: Config, r: Run, times: seq<int>, i: nat, j: nat, a: ActorId, id: RequestId, deadline: int)
    requires r.Valid(cfg) && OnClock(r, times) && i < j < |r.labels|
    requires DefersAt(r, i, a, id, deadline) && DefersAt(r, j, a, id, deadline)
    requires Cycle(r.states[j].db, id) == Cycle(r.states[i].db, id)
    ensures times[j] > deadline - Seconds(1)
  {
    DeferralFallsShort(deadline, times[i]);
    NextHoldIsLate(cfg, r, times, i, j, a, id);
  }

  /** The gate of the second of two deferrals lies after the deadline. */
  lemma SecondGateIsAfter(
    cfg: Config, r: Run, times: seq<int>, i: nat, j: nat, k: nat, a: ActorId, id: RequestId, deadline: int)
    requires r.Valid(cfg) && OnClock(r, times) && i < j < k < |r.labels|
    requires DefersAt(r, i, a, id, deadline) && DefersAt(r, j, a, id, deadline)
    requires Cycle(r.states[k].db, id) == Cycle(r.states[i].db, id)
    ensures Cycle(r.states[k].db, id) == Cycle(r.states[j].db, id)
    ensures times[j] + Seconds(DelayAt(r, j, a)) > deadline
  {
    DeciderHoldsCycle(cfg, r, i, j, k, a, id);
    SecondDeferralIsLate(cfg, r, times, i, j, a, id, deadline);
    DeferralFallsShort(deadline, times[j]);
  }

  /**
   A cooldown window costs a request at most two attempts per worker: after two deferrals for one
   deadline, the next claim in the cycle, whoever makes it, is made after the deadline.
   */
  lemma TwoDeferralsReachTheDeadline(
    cfg: Config, r: Run, times: seq<int>, i: nat, j: nat, k: nat, a: ActorId, id: RequestId, deadline: int)
    requires r.Valid(cfg) && OnClock(r, times) && i < j < k < |r.labels|
    requires DefersAt(r, i, a, id, deadline) && DefersAt(r, j, a, id, deadline) && ClaimsAt(r, k, id)
    requires Cycle(r.states[k].db, id) == Cycle(r.states[i].db, id)
    ensures EffectOf(r.states[k], r.labels[k]).now > deadline
  {
    SecondGateIsAfter(cfg, r, times, i, j, k, a, id, deadline);
    NoClaimBeforeTheDecidedTime(cfg, r, times, j, k, a, id);
  }

  /** So within the cycle any further deferral of the request by that worker is for a later deadline. */
  lemma ThirdDeferralIsForALaterDeadline(
    cfg: Config, r: Run, times: seq<int>, i: nat, j: nat, k: nat, a: ActorId, id: RequestId, deadline: int, later: int)
    requires r.Valid(cfg) && OnClock(r, times) && i < j < k < |r.labels|
    requires DefersAt(r, i, a, id, deadline) && DefersAt(r, j, a, id, deadline) && DefersAt(r, k, a, id, later)
    requires Cycle(r.states[k].db, id) == Cycle(r.states[i].db, id)
    ensures later > deadline
  {
    SecondGateIsAfter(cfg, r, times, i, j, k, a, id, deadline);
    NextHoldIsLate(cfg, r, times, j, k, a, id);
  }
}
