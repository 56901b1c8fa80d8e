/** Bounded overtaking: how often workers can take other rows before a waiting one. */
module Fairness {
  import opened Models
  import opened Tables
  import opened Protocol
  import opened Invariant
  import opened Effects
  import opened Claims
  import opened Sums

  function Remaining(row: Row): int {
    row.fields.maxAttempts - row.attemptCount
  }

  /** The attempts a row may still be claimed for before it is finished or replayed. */
  function Left(row: Row): int {
    if row.status.Completed? || row.status.DeadLetter? then 0 else Remaining(row)
  }

  ghost predicate BeingClaimed(s: State, id: RequestId) {
    exists b :: b in s.actors && s.actors[b].Claiming? && s.actors[b].seen.id == id
  }

  /** The attempts of a row that no worker has used or is about to use. */
  ghost function Slack(s: State, id: RequestId): int
    requires id in s.db.rows
  {
    Left(s.db.rows[id]) - if BeingClaimed(s, id) then 1 else 0
  }

  lemma SlackNonNegative(s: State, id: RequestId)
    requires Inv(s) && id in s.db.rows
    ensures 0 <= Slack(s, id) <= Left(s.db.rows[id])
  {
    RowBounds(s.db, id);
    if BeingClaimed(s, id) {
      var b :| b in s.actors && s.actors[b].Claiming? && s.actors[b].seen.id == id;
      assert PcOk(s.db, s.used, s.actors[b]);
    }
  }

  /** A worker is lost in the middle of claiming `id`: the attempt it was about to use is free again. */
  ghost predicate LosesClaim(s: State, l: Label, id: RequestId) {
    l.Crash? && l.actor in s.actors && s.actors[l.actor].Claiming? && s.actors[l.actor].seen.id == id
  }

  lemma StaysBeingClaimed(cfg: Config, s: State, l: Label, id: RequestId)
    requires Inv(s) && Enabled(cfg, s, l) && BeingClaimed(s, id) && !LosesClaim(s, l, id)
    requires !(EffectOf(s, l).Claims? && EffectOf(s, l).id == id)
    ensures BeingClaimed(Apply(cfg, s, l), id)
  {
    var b :| b in s.actors && s.actors[b].Claiming? && s.actors[b].seen.id == id;
    StepIsAllowedWrite(cfg, s, l);
    assert PcOk(s.db, s.used, s.actors[b]);
    if l.Disturb? || l.actor != b {
      OthersKeepPc(cfg, s, l, b);
      assert Apply(cfg, s, l).actors[b].Claiming?;
    }
  }

  /** Claims use up attempts one by one, a finish may give some up, and only a replay restores them, all of them. */
  lemma AttemptsByClaimsOnly(db: Db, e: Effect, id: RequestId)
    requires Consistent(db) && Allowed(db, e) && id in db.rows
    ensures id in Written(db, e).rows
    ensures Left(Written(db, e).rows[id]) <=
            if e.Claims? && e.id == id then Left(db.rows[id]) - 1
            else if e.Requeues? && e.id == id then db.rows[id].fields.maxAttempts
            else Left(db.rows[id])
  {
    RowBounds(db, id);
  }

  /** The attempts that a step gives to a row that is there. */
  ghost function GivenTo(s: State, l: Label, id: RequestId): nat
    requires id in s.db.rows
  {
    if EffectOf(s, l).Requeues? && EffectOf(s, l).id == id then s.db.rows[id].fields.maxAttempts
    else if LosesClaim(s, l, id) then 1
    else 0
  }

  lemma SlackGrowsByGifts(cfg: Config, s: State, l: Label, id: RequestId)
    requires Inv(s) && Enabled(cfg, s, l) && id in s.db.rows
    ensures id in Apply(cfg, s, l).db.rows
    ensures Slack(Apply(cfg, s, l), id) <= Slack(s, id) + GivenTo(s, l, id)
  {
    var e := EffectOf(s, l);
    StepIsAllowedWrite(cfg, s, l);
    AttemptsByClaimsOnly(s.db, e, id);
    if e.Claims? && e.id == id {
      assert s.actors[l.actor].Claiming?;
    } else if BeingClaimed(s, id) && !LosesClaim(s, l, id) {
      StaysBeingClaimed(cfg, s, l, id);
    }
  }

  /** Step `k`: a worker that could have locked `id`, and whose clock reading says it is due, picks another row. */
  ghost predicate Overtakes(s: State, l: Label, id: RequestId) {
    && l.Claimer? && l.claim.Pick? && l.claim.id != id
    && l.actor in s.actors && s.actors[l.actor].Polling?
    && id in s.db.rows && Eligible(s.db.rows[id], s.actors[l.actor].now) && Unlocked(s, l.actor, id)
  }

  /** Only rows that are no younger overtake, and each time one of their attempts is used up. */
  lemma OvertakingCosts(cfg: Config, s: State, l: Label, id: RequestId)
    requires Inv(s) && Enabled(cfg, s, l) && Overtakes(s, l, id)
    ensures var s' := Apply(cfg, s, l);
            && l.claim.id in s.db.rows && l.claim.id in s'.db.rows
            && s.db.rows[l.claim.id].createdAt <= s.db.rows[id].createdAt
            && Slack(s', l.claim.id) < Slack(s, l.claim.id)
  {
    var a, y, s' := l.actor, l.claim.id, Apply(cfg, s, l);
    assert Claimable(s, a, id, s.actors[a].now) && Claimable(s, a, y, s.actors[a].now);
    assert s'.actors[a].Claiming? && s'.actors[a].seen.id == y by {
      assert RowOk(s.db, y);
    }
    assert BeingClaimed(s', y);
    forall b | b in s.actors && s.actors[b].Claiming? ensures s.actors[b].seen.id != y {
      assert LockOf(s.actors[b]) != Some(y);
    }
  }

  // ----- Counting over a run

  ghost function Overtakings(r: Run, i: nat, j: nat, id: RequestId): nat
    requires i <= j <= |r.labels| && |r.states| == |r.labels| + 1
  {
    if i == j then 0
    else Overtakings(r, i, j - 1, id) + if Overtakes(r.states[j - 1], r.labels[j - 1], id) then 1 else 0
  }

  /** The rows that were there first: no younger than `id`, other than `id` itself. */
  ghost function Elders(db: Db, id: RequestId): set<RequestId>
    requires id in db.rows
  {
    set y | y in db.rows && y != id && db.rows[y].createdAt <= db.rows[id].createdAt
  }

  ghost function Slacks(s: State): map<RequestId, int> {
    map y | y in s.db.rows :: Slack(s, y)
  }

  ghost function Budgets(db: Db): map<RequestId, int> {
    map y | y in db.rows :: Left(db.rows[y])
  }

  /**
   The attempts that a step gives to rows no younger than `id`: the budget of a row that is inserted
   with a creation time not after its own, the budget of an elder that is replayed, or the one attempt
   that a worker lost in the middle of claiming an elder leaves to the next.
   */
  ghost function Given(s: State, l: Label, id: RequestId): nat {
    var e := EffectOf(s, l);
    if id !in s.db.rows then 0
    else if e.Inserts? then if e.now <= s.db.rows[id].createdAt then e.request.maxAttempts else 0
    else if e.Requeues? && e.id in Elders(s.db, id) then s.db.rows[e.id].fields.maxAttempts
    else if exists y :: y in Elders(s.db, id) && LosesClaim(s, l, y) then 1
    else 0
  }

  ghost function AllGiven(r: Run, i: nat, j: nat, id: RequestId): nat
    requires i <= j <= |r.labels| && |r.states| == |r.labels| + 1
  {
    if i == j then 0 else AllGiven(r, i, j - 1, id) + Given(r.states[j - 1], r.labels[j - 1], id)
  }

  lemma EldersAfter(cfg: Config, s: State, l: Label, id: RequestId)
    requires Inv(s) && Enabled(cfg, s, l) && id in s.db.rows
    ensures var e, db' := EffectOf(s, l), Apply(cfg, s, l).db;
            && id in db'.rows && (e.Inserts? ==> e.id !in s.db.rows)
            && Elders(db', id) == if e.Inserts? && e.now <= s.db.rows[id].createdAt
                                  then Elders(s.db, id) + {e.id} else Elders(s.db, id)
  {
    var e := EffectOf(s, l);
    assert Apply(cfg, s, l).db == Written(s.db, e) && Allowed(s.db, e) by { StepIsAllowedWrite(cfg, s, l); }
    if !e.Nothing? && e.id in s.db.rows {
      WriteKeepsIdentity(s.db, e);
    }
  }

  /** A new row brings its budget. */
  lemma InsertAndSlack(cfg: Config, s: State, l: Label, id: RequestId)
    requires Inv(s) && Enabled(cfg, s, l) && id in s.db.rows && EffectOf(s, l).Inserts?
    ensures id in Apply(cfg, s, l).db.rows
    ensures Sum(Elders(Apply(cfg, s, l).db, id), Slacks(Apply(cfg, s, l)))
            <= Sum(Elders(s.db, id), Slacks(s)) + Given(s, l, id)
  {
    var e, s', elders := EffectOf(s, l), Apply(cfg, s, l), Elders(s.db, id);
    EldersAfter(cfg, s, l, id);
    StepIsAllowedWrite(cfg, s, l);
    forall y | y in elders ensures y in s'.db.rows && Slacks(s')[y] <= Slacks(s)[y] {
      SlackGrowsByGifts(cfg, s, l, y);
    }
    SumLeq(elders, Slacks(s'), Slacks(s));
    if e.id in Elders(s'.db, id) {
      SumExtract(Elders(s'.db, id), Slacks(s'), e.id);
      assert Elders(s'.db, id) - {e.id} == elders;
      assert Slacks(s')[e.id] <= Left(s'.db.rows[e.id]) == e.request.maxAttempts;
    }
  }

  /** A gift is to one row only, and no pick makes one. */
  lemma OneGift(s: State, l: Label, id: RequestId, y: RequestId)
    requires id in s.db.rows && y in Elders(s.db, id) && !EffectOf(s, l).Inserts? && GivenTo(s, l, y) > 0
    ensures Given(s, l, id) == GivenTo(s, l, y)
    ensures forall x :: x in s.db.rows && x != y ==> GivenTo(s, l, x) == 0
  {
    if !EffectOf(s, l).Requeues? {
      assert LosesClaim(s, l, y);
    }
  }

  lemma PicksGiveNothing(s: State, l: Label, id: RequestId)
    requires Overtakes(s, l, id)
    ensures !EffectOf(s, l).Inserts? && Given(s, l, id) == 0
    ensures forall y :: y in s.db.rows ==> GivenTo(s, l, y) == 0
  {
  }

  lemma SlacksGrowByGifts(cfg: Config, s: State, l: Label, id: RequestId)
    requires Inv(s) && Enabled(cfg, s, l) && id in s.db.rows && !EffectOf(s, l).Inserts?
    ensures var s' := Apply(cfg, s, l);
            && id in s'.db.rows && Elders(s'.db, id) == Elders(s.db, id)
            && forall y :: y in Elders(s.db, id) ==> Slacks(s')[y] <= Slacks(s)[y] + GivenTo(s, l, y)
  {
    EldersAfter(cfg, s, l, id);
    forall y | y in Elders(s.db, id)
      ensures Slacks(Apply(cfg, s, l))[y] <= Slacks(s)[y] + GivenTo(s, l, y)
    {
      SlackGrowsByGifts(cfg, s, l, y);
    }
  }

  /** An overtaking uses up an attempt. */
  lemma OvertakingAndSlack(cfg: Config, s: State, l: Label, id: RequestId)
    requires Inv(s) && Enabled(cfg, s, l) && Overtakes(s, l, id)
    ensures id in Apply(cfg, s, l).db.rows
    ensures 1 + Sum(Elders(Apply(cfg, s, l).db, id), Slacks(Apply(cfg, s, l))) <= Sum(Elders(s.db, id), Slacks(s))
  {
    PicksGiveNothing(s, l, id);
    OvertakingCosts(cfg, s, l, id);
    SlacksGrowByGifts(cfg, s, l, id);
    SumShift(Elders(s.db, id), Slacks(s), Slacks(Apply(cfg, s, l)), l.claim.id, -1);
  }

  /** A step that neither inserts nor overtakes gives attempts to at most one elder. */
  lemma GiftAndSlack(cfg: Config, s: State, l: Label, id: RequestId)
    requires Inv(s) && Enabled(cfg, s, l) && id in s.db.rows && !EffectOf(s, l).Inserts?
    ensures id in Apply(cfg, s, l).db.rows
    ensures Sum(Elders(Apply(cfg, s, l).db, id), Slacks(Apply(cfg, s, l)))
            <= Sum(Elders(s.db, id), Slacks(s)) + Given(s, l, id)
  {
    hide Enabled, Apply, Inv, Slack, Given, GivenTo;
    SlacksGrowByGifts(cfg, s, l, id);
    if y :| y in Elders(s.db, id) && GivenTo(s, l, y) > 0 {
      OneGift(s, l, id, y);
      SumShift(Elders(s.db, id), Slacks(s), Slacks(Apply(cfg, s, l)), y, GivenTo(s, l, y));
    } else {
      SumLeq(Elders(s.db, id), Slacks(Apply(cfg, s, l)), Slacks(s));
    }
  }

  /** In any run each overtaking uses up an attempt that an elder had or was given. */
  lemma {:induction false} OvertakingsUseSlack(cfg: Config, r: Run, i: nat, j: nat, id: RequestId)
    requires r.Valid(cfg) && i <= j <= |r.labels| && id in r.states[i].db.rows
    ensures id in r.states[j].db.rows
    ensures Overtakings(r, i, j, id) + Sum(Elders(r.states[j].db, id), Slacks(r.states[j]))
            <= Sum(Elders(r.states[i].db, id), Slacks(r.states[i])) + AllGiven(r, i, j, id)
  {
    hide Enabled, Apply, Inv, Slack, Overtakes, Given;
    if i < j {
      var s, l := r.states[j - 1], r.labels[j - 1];
      OvertakingsUseSlack(cfg, r, i, j - 1, id);
      ReachableInv(cfg, r, j - 1);
      if Overtakes(s, l, id) {
        OvertakingAndSlack(cfg, s, l, id);
      } else if EffectOf(s, l).Inserts? {
        InsertAndSlack(cfg, s, l, id);
      } else {
        GiftAndSlack(cfg, s, l, id);
      }
    }
  }

  /**
   Bounded overtaking, in every run and between any two moments: workers that see a request due and free
   pick other rows at most as often as the rows no younger than it had attempts left, plus the attempts
   that such rows were given in between.
   */
  lemma OvertakingIsBounded(cfg: Config, r: Run, i: nat, j: nat, id: RequestId)
    requires r.Valid(cfg) && i <= j <= |r.labels| && id in r.states[i].db.rows
    ensures Overtakings(r, i, j, id)
            <= Sum(Elders(r.states[i].db, id), Budgets(r.states[i].db)) + AllGiven(r, i, j, id)
  {
    OvertakingsUseSlack(cfg, r, i, j, id);
    ReachableInv(cfg, r, i);
    ReachableInv(cfg, r, j);
    forall y | y in Elders(r.states[i].db, id) ensures Slacks(r.states[i])[y] <= Budgets(r.states[i].db)[y] {
      SlackNonNegative(r.states[i], y);
    }
    forall y | y in Elders(r.states[j].db, id) ensures Slacks(r.states[j])[y] >= 0 {
      SlackNonNegative(r.states[j], y);
    }
    SumLeq(Elders(r.states[i].db, id), Slacks(r.states[i]), Budgets(r.states[i].db));
    SumNonNegative(Elders(r.states[j].db, id), Slacks(r.states[j]));
  }

  /**
   Once every elder has no attempt left, or only the one that is being claimed, no pick that could take the
   request takes another row.
   */
  lemma NextPickTakesIt(cfg: Config, r: Run, j: nat, id: RequestId)
    requires r.Valid(cfg) && j < |r.labels| && id in r.states[j].db.rows
    requires forall y :: y in Elders(r.states[j].db, id) ==> Slack(r.states[j], y) == 0
    ensures !Overtakes(r.states[j], r.labels[j], id)
  {
    var s, l := r.states[j], r.labels[j];
    ReachableInv(cfg, r, j);
    if Overtakes(s, l, id) {
      OvertakingCosts(cfg, s, l, id);
      ReachableInv(cfg, r, j + 1);
      SlackNonNegative(r.states[j + 1], l.claim.id);
      assert false;
    }
  }

  /** And that is so as soon as the bound is met. */
  lemma MetBoundUsesUp(cfg: Config, r: Run, i: nat, j: nat, id: RequestId)
    requires r.Valid(cfg) && i <= j <= |r.labels| && id in r.states[i].db.rows
    requires Overtakings(r, i, j, id)
             == Sum(Elders(r.states[i].db, id), Budgets(r.states[i].db)) + AllGiven(r, i, j, id)
    ensures id in r.states[j].db.rows
    ensures forall y :: y in Elders(r.states[j].db, id) ==> Slack(r.states[j], y) == 0
  {
    hide Slack, Overtakes, Given, Enabled, Apply;
    var s, t := r.states[i], r.states[j];
    OvertakingsUseSlack(cfg, r, i, j, id);
    ReachableInv(cfg, r, i);
    ReachableInv(cfg, r, j);
    forall y | y in Elders(s.db, id) ensures Slacks(s)[y] <= Budgets(s.db)[y] {
      SlackNonNegative(s, y);
    }
    SumLeq(Elders(s.db, id), Slacks(s), Budgets(s.db));
    forall y | y in Elders(t.db, id) ensures Slacks(t)[y] >= 0 {
      SlackNonNegative(t, y);
    }
    SumZero(Elders(t.db, id), Slacks(t));
    forall y | y in Elders(t.db, id) ensures Slack(t, y) == 0 {
      assert Slacks(t)[y] == 0;
    }
  }
}
