/** How long a cycle of plain failures takes before it can end in dead letter. */
module Pacing {
  import opened Models
  import opened Tables
  import opened Protocol
  import opened Invariant
  import opened Effects
  import opened Claims
  import opened LogOrder
  import opened Backoff

  /** The step decides on a retry of `id` by a server hint or by a cooldown instead of by the backoff. */
  ghost predicate Overrides(s: State, l: Label, id: RequestId) {
    && l.Worker? && l.actor in s.actors && Holds(s.actors[l.actor], id)
    && (l.work.ComputeDelay? || (l.work.PlanRetry? && s.actors[l.actor].Raised? && s.actors[l.actor].hint.Some?))
  }

  ghost predicate DelaysPaced(cfg: Config, s: State, id: RequestId)
    requires id in s.db.rows
  {
    forall b {:trigger Holds(s.actors[b], id)} :: b in s.actors && Holds(s.actors[b], id) ==>
      var pc := s.actors[b];
      pc.Failing? || pc.FailRead? ==> pc.delay >= Base(cfg.policy, s.db.rows[id].attemptCount)
  }

  /** Within cycle `c` that began with a claim at `first`, the bases of all finished attempts have passed. */
  ghost predicate RowPaced(p: Policy, db: Db, id: RequestId, c: int, first: Instant) {
    && id in db.rows && Cycle(db, id) >= c
    && (Cycle(db, id) == c ==> Elapsed(p, db.rows[id], first))
  }

  ghost predicate Elapsed(p: Policy, row: Row, first: Instant) {
    && row.attemptCount >= 1
    && (if row.status.Waiting() then
          row.nextAttemptAt.Some? && row.nextAttemptAt.value >= first + Seconds(BaseSum(p, row.attemptCount))
        else
          row.updatedAt >= first + Seconds(BaseSum(p, row.attemptCount - 1)))
  }

  ghost predicate Paced(cfg: Config, s: State, id: RequestId, c: int, first: Instant) {
    && RowPaced(cfg.policy, s.db, id, c, first)
    && (Cycle(s.db, id) == c && s.db.rows[id].status.Running? ==> DelaysPaced(cfg, s, id))
  }

  /** At the level of one row: a write keeps the pace when a failure waits at least the base. */
  lemma WriteKeepsElapsed(p: Policy, db: Db, e: Effect, first: Instant)
    requires Allowed(db, e) && InTime(db, e) && !e.Nothing? && !e.Inserts? && !e.Requeues?
    requires Elapsed(p, db.rows[e.id], first)
    requires e.Fails? ==> e.delay >= Base(p, e.attempt)
    ensures Elapsed(p, RowAfter(db, e), first)
  {
    var n := db.rows[e.id].attemptCount;
    assert BaseSum(p, n) == BaseSum(p, n - 1) + Base(p, n);
  }

  lemma WriteKeepsRowPaced(p: Policy, db: Db, e: Effect, id: RequestId, c: int, first: Instant)
    requires Allowed(db, e) && InTime(db, e)
    requires RowPaced(p, db, id, c, first)
    requires e.Fails? && e.id == id && Cycle(db, id) == c ==> e.delay >= Base(p, e.attempt)
    ensures RowPaced(p, Written(db, e), id, c, first)
  {
    hide Elapsed;
    WriteAndCycle(db, e, id);
    if !e.Nothing? && e.id == id && !e.Requeues? && Cycle(db, id) == c {
      WriteKeepsElapsed(p, db, e, first);
    }
  }

  lemma PlannedByBackoff(cfg: Config, s: State, a: ActorId, random: real)
    requires Inv(s) && a in s.actors && s.actors[a].Raised? && s.actors[a].hint.None?
    requires cfg.policy.NonNegative() && 0.0 <= random < 1.0
    ensures PlannedDelay(cfg, s, s.actors[a], random) >= Base(cfg.policy, s.actors[a].hold.attempt)
  {
    assert PcOk(s.db, s.used, s.actors[a]);
    DelayBounds(cfg.policy, s.actors[a].hold.attempt, random);
  }

  /** The planned delays of holders stay paced through steps that leave the row alone. */
  lemma DelaysStayPaced(cfg: Config, s: State, l: Label, id: RequestId)
    requires Inv(s) && Enabled(cfg, s, l) && cfg.policy.NonNegative()
    requires id in s.db.rows && DelaysPaced(cfg, s, id) && !Overrides(s, l, id)
    requires EffectOf(s, l).Nothing? || EffectOf(s, l).id != id
    ensures id in Apply(cfg, s, l).db.rows && DelaysPaced(cfg, Apply(cfg, s, l), id)
  {
    var s' := Apply(cfg, s, l);
    StepIsAllowedWrite(cfg, s, l);
    forall b | b in s'.actors && Holds(s'.actors[b], id)
      ensures s'.actors[b].Failing? || s'.actors[b].FailRead? ==>
                s'.actors[b].delay >= Base(cfg.policy, s.db.rows[id].attemptCount)
    {
      if l.Disturb? || l.actor != b {
        OthersKeepPc(cfg, s, l, b);
        assert Holds(s.actors[b], id);
      } else if s'.actors[b].Failing? || s'.actors[b].FailRead? {
        OnlyWorkersFail(cfg, s, l);
        OwnDelayIsPaced(cfg, s, l.actor, l.work, id);
      }
    }
  }

  lemma OwnDelayIsPaced(cfg: Config, s: State, a: ActorId, op: WorkOp, id: RequestId)
    requires Inv(s) && a in s.actors && CanWork(s.actors[a], op) && cfg.policy.NonNegative()
    requires id in s.db.rows && DelaysPaced(cfg, s, id) && !Overrides(s, Worker(a, op), id)
    requires var pc' := DoWork(cfg, s, a, s.actors[a], op).actors[a];
             Holds(pc', id) && (pc'.Failing? || pc'.FailRead?)
    ensures DoWork(cfg, s, a, s.actors[a], op).actors[a].delay >= Base(cfg.policy, s.db.rows[id].attemptCount)
  {
    assert Holds(s.actors[a], id);
    if op.PlanRetry? {
      assert PcOk(s.db, s.used, s.actors[a]);
      PlannedByBackoff(cfg, s, a, op.random);
    }
  }

  lemma OnlyWorkersFail(cfg: Config, s: State, l: Label)
    requires Enabled(cfg, s, l) && !l.Disturb?
    requires var pc' := Apply(cfg, s, l).actors[l.actor]; pc'.Failing? || pc'.FailRead?
    ensures l.Worker?
  {
    match l
    case Submitter(a, op) => SubmitShape(cfg, s, a, s.actors[a], op);
    case Operator(a, op) => ReplayShape(cfg, s, a, s.actors[a], op);
    case Claimer(a, op) => ClaimShape(cfg, s, a, s.actors[a], op);
    case _ =>
  }

  lemma FreshHoldIsPaced(cfg: Config, s: State, l: Label, id: RequestId)
    requires Inv(s) && Enabled(cfg, s, l) && EffectOf(s, l).Claims? && EffectOf(s, l).id == id
    ensures id in Apply(cfg, s, l).db.rows && DelaysPaced(cfg, Apply(cfg, s, l), id)
  {
    var s' := Apply(cfg, s, l);
    StepIsAllowedWrite(cfg, s, l);
    forall b | b in s'.actors && b != l.actor ensures !Holds(s'.actors[b], id) {
      OthersKeepPc(cfg, s, l, b);
      NotAlsoHeld(s, l.actor, b, id);
    }
  }

  lemma OtherStepKeepsPaced(cfg: Config, s: State, l: Label, id: RequestId, c: int, first: Instant)
    requires Inv(s) && Enabled(cfg, s, l) && cfg.policy.NonNegative()
    requires Paced(cfg, s, id, c, first) && !Overrides(s, l, id)
    requires EffectOf(s, l).Nothing? || EffectOf(s, l).id != id
    ensures Paced(cfg, Apply(cfg, s, l), id, c, first)
  {
    var e := EffectOf(s, l);
    StepIsAllowedWrite(cfg, s, l);
    WriteAndCycle(s.db, e, id);
    if Cycle(s.db, id) == c && s.db.rows[id].status.Running? {
      DelaysStayPaced(cfg, s, l, id);
    }
  }

  lemma OwnStepKeepsPaced(cfg: Config, s: State, l: Label, id: RequestId, c: int, first: Instant)
    requires Inv(s) && Enabled(cfg, s, l)
    requires Paced(cfg, s, id, c, first) && Steady(s, l)
    requires !EffectOf(s, l).Nothing? && EffectOf(s, l).id == id
    ensures Paced(cfg, Apply(cfg, s, l), id, c, first)
  {
    var e := EffectOf(s, l);
    StepIsAllowedWrite(cfg, s, l);
    SteadyIsInTime(cfg, s, l);
    if e.Fails? {
      assert Holds(s.actors[l.actor], id);
    }
    WriteKeepsRowPaced(cfg.policy, s.db, e, id, c, first);
    if e.Claims? {
      FreshHoldIsPaced(cfg, s, l, id);
    } else {
      assert !Written(s.db, e).rows[id].status.Running?;
    }
  }

  lemma StepKeepsPaced(cfg: Config, s: State, l: Label, id: RequestId, c: int, first: Instant)
    requires Inv(s) && Enabled(cfg, s, l) && cfg.policy.NonNegative()
    requires Paced(cfg, s, id, c, first) && Steady(s, l) && !Overrides(s, l, id)
    ensures Paced(cfg, Apply(cfg, s, l), id, c, first)
  {
    if EffectOf(s, l).Nothing? || EffectOf(s, l).id != id {
      OtherStepKeepsPaced(cfg, s, l, id, c, first);
    } else {
      OwnStepKeepsPaced(cfg, s, l, id, c, first);
    }
  }

  lemma FirstClaimIsPaced(cfg: Config, r: Run, i: nat, id: RequestId)
    requires r.Valid(cfg) && i < |r.labels| && ClaimsAt(r, i, id) && EffectOf(r.states[i], r.labels[i]).seen == 0
    ensures Paced(cfg, r.states[i + 1], id, Cycle(r.states[i].db, id), EffectOf(r.states[i], r.labels[i]).now)
  {
    ReachableInv(cfg, r, i);
    ClaimCounts(cfg, r, i, id);
    FreshHoldIsPaced(cfg, r.states[i], r.labels[i], id);
    ClaimsRespectTheGate(cfg, r, i, id);
    assert BaseSum(cfg.policy, 0) == 0;
  }

  /** From step `i` on finishes are steady, and no hint and no cooldown decides on a retry of `id`. */
  ghost predicate PlainFailures(r: Run, i: nat, j: nat, id: RequestId)
    requires i <= j <= |r.labels| && |r.states| == |r.labels| + 1
  {
    forall k {:trigger r.labels[k]} :: i <= k < j ==>
      Steady(r.states[k], r.labels[k]) && !Overrides(r.states[k], r.labels[k], id)
  }

  lemma {:induction false} StaysPaced(cfg: Config, r: Run, i: nat, j: nat, id: RequestId)
    requires r.Valid(cfg) && cfg.policy.NonNegative() && i < j < |r.states|
    requires ClaimsAt(r, i, id) && EffectOf(r.states[i], r.labels[i]).seen == 0
    requires PlainFailures(r, i, j, id)
    ensures Paced(cfg, r.states[j], id, Cycle(r.states[i].db, id), EffectOf(r.states[i], r.labels[i]).now)
  {
    hide Enabled, Apply, Inv, Paced, Steady, Overrides;
    if j == i + 1 {
      FirstClaimIsPaced(cfg, r, i, id);
    } else {
      StaysPaced(cfg, r, i, j - 1, id);
      ReachableInv(cfg, r, j - 1);
      StepKeepsPaced(cfg, r.states[j - 1], r.labels[j - 1], id, Cycle(r.states[i].db, id),
                     EffectOf(r.states[i], r.labels[i]).now);
    }
  }

  lemma BurialTakesTheBaseSum(cfg: Config, r: Run, i: nat, j: nat, id: RequestId)
    requires r.Valid(cfg) && cfg.policy.NonNegative() && i < j < |r.states|
    requires ClaimsAt(r, i, id) && EffectOf(r.states[i], r.labels[i]).seen == 0
    requires PlainFailures(r, i, j, id)
    requires id in r.states[j].db.rows && r.states[j].db.rows[id].status.DeadLetter?
    requires Cycle(r.states[j].db, id) == Cycle(r.states[i].db, id)
    ensures var row := r.states[j].db.rows[id];
            row.updatedAt >= EffectOf(r.states[i], r.labels[i]).now
                             + Seconds(BaseSum(cfg.policy, row.fields.maxAttempts - 1))
  {
    StaysPaced(cfg, r, i, j, id);
    ReachableInv(cfg, r, j);
    RowBounds(r.states[j].db, id);
  }

  /**
   A cycle of plain failures cannot reach dead letter sooner after its first claim than the sum
   of the bases of all attempts but the last, in closed form.
   */
  lemma BurialTakesTheBackoffSum(cfg: Config, r: Run, i: nat, j: nat, id: RequestId)
    requires r.Valid(cfg) && cfg.policy.NonNegative() && i < j < |r.states|
    requires ClaimsAt(r, i, id) && EffectOf(r.states[i], r.labels[i]).seen == 0
    requires PlainFailures(r, i, j, id)
    requires id in r.states[j].db.rows && r.states[j].db.rows[id].status.DeadLetter?
    requires Cycle(r.states[j].db, id) == Cycle(r.states[i].db, id)
    ensures var p, row := cfg.policy, r.states[j].db.rows[id];
            var waits := row.fields.maxAttempts - 1;
            var below := BelowCap(p, waits);
            row.updatedAt >= EffectOf(r.states[i], r.labels[i]).now
                             + Seconds(p.delay * (Pow2(below) - 1) + (waits - below) * p.cap)
  {
    BurialTakesTheBaseSum(cfg, r, i, j, id);
    BaseSumClosedForm(cfg.policy, r.states[j].db.rows[id].fields.maxAttempts - 1);
  }
}
