/**
 Counting steps of a run against the tables: how many claims, replays, adapter calls and
 cooldown deferrals a request has seen, and what the attempt counter says about them.
 */
module Tallies {
  import opened Models
  import opened Tables
  import opened Protocol
  import opened Invariant
  import opened Effects
  import opened Claims
  import Lifecycle

  datatype Tally = Tally(claims: nat, replays: nat, calls: nat, deferrals: nat)

  /** The step checks the cooldown of a worker that holds `id`; it leads to a call or to a deferral. */
  ghost predicate Checks(s: State, l: Label, id: RequestId) {
    && l.Worker? && l.work.CheckCooldown? && l.actor in s.actors
    && s.actors[l.actor].Holding? && s.actors[l.actor].hold.id == id
  }

  ghost predicate Deferred(s: State, l: Label)
    requires l.Worker? && l.work.CheckCooldown? && l.actor in s.actors && s.actors[l.actor].Holding?
  {
    Until(s, l.actor, s.actors[l.actor].hold.target) > l.work.clock
  }

  ghost function Tallied(t: Tally, s: State, l: Label, id: RequestId): Tally {
    var e := EffectOf(s, l);
    if e.Claims? && e.id == id then t.(claims := t.claims + 1)
    else if e.Requeues? && e.id == id then t.(replays := t.replays + 1)
    else if Checks(s, l, id) then
      if Deferred(s, l) then t.(deferrals := t.deferrals + 1) else t.(calls := t.calls + 1)
    else t
  }

  ghost function TallyAt(r: Run, i: nat, id: RequestId): Tally
    requires i < |r.states| && |r.states| == |r.labels| + 1
  {
    if i == 0 then Tally(0, 0, 0, 0) else Tallied(TallyAt(r, i - 1, id), r.states[i - 1], r.labels[i - 1], id)
  }

  /** Claims that have not passed the cooldown check yet. */
  function Unchecked(t: Tally): int {
    t.claims - t.calls - t.deferrals
  }

  /** A holder has passed its check, or is about to, or has crashed at one side of it or the other. */
  predicate HolderAgrees(pc: Pc, unchecked: int) {
    if pc.Holding? then unchecked == 1
    else if pc.Crashed? then 0 <= unchecked <= 1
    else unchecked == 0
  }

  ghost predicate Agrees(s: State, t: Tally, id: RequestId) {
    if id !in s.db.rows then t == Tally(0, 0, 0, 0)
    else
      var row := s.db.rows[id];
      && t.replays == Cycle(s.db, id)
      && t.claims == t.replays * row.fields.maxAttempts + row.attemptCount
      && (!row.status.Running? ==> Unchecked(t) == 0)
      && (forall a {:trigger Holds(s.actors[a], id)} :: a in s.actors && Holds(s.actors[a], id) ==>
            HolderAgrees(s.actors[a], Unchecked(t)))
  }

  /** The counter and the cycle follow the writes. */
  lemma WriteKeepsCounts(db: Db, e: Effect, t: Tally, id: RequestId)
    requires Consistent(db) && Allowed(db, e) && id in db.rows
    requires t.replays == Cycle(db, id)
             && t.claims == t.replays * db.rows[id].fields.maxAttempts + db.rows[id].attemptCount
    ensures var db' := Written(db, e);
            var claims' := t.claims + (if e.Claims? && e.id == id then 1 else 0);
            var replays' := t.replays + (if e.Requeues? && e.id == id then 1 else 0);
            && id in db'.rows && replays' == Cycle(db', id)
            && claims' == replays' * db'.rows[id].fields.maxAttempts + db'.rows[id].attemptCount
  {
    hide Cycle;
    WriteAndCycle(db, e, id);
    if !e.Nothing? && e.id == id {
      WriteKeepsIdentity(db, e);
      RowBounds(db, id);
      Lifecycle.Distribute(t.replays, db.rows[id].fields.maxAttempts);
    }
  }

  /** A step of the one holder keeps it in agreement with the checks counted so far. */
  lemma OwnStepAgrees(cfg: Config, s: State, l: Label, t: Tally, id: RequestId)
    requires Enabled(cfg, s, l) && !l.Disturb? && Holds(s.actors[l.actor], id)
    requires HolderAgrees(s.actors[l.actor], Unchecked(t))
    ensures var s' := Apply(cfg, s, l);
            l.actor in s'.actors
            && (Holds(s'.actors[l.actor], id) ==> HolderAgrees(s'.actors[l.actor], Unchecked(Tallied(t, s, l, id))))
  {
  }

  lemma NoClaimNoHold(cfg: Config, s: State, l: Label, id: RequestId)
    requires Enabled(cfg, s, l) && !l.Disturb? && !Holds(s.actors[l.actor], id)
    requires !(EffectOf(s, l).Claims? && EffectOf(s, l).id == id)
    ensures var s' := Apply(cfg, s, l); l.actor in s'.actors && !Holds(s'.actors[l.actor], id)
  {
    match l
    case Submitter(a, op) => SubmitShape(cfg, s, a, s.actors[a], op);
    case Operator(a, op) => ReplayShape(cfg, s, a, s.actors[a], op);
    case _ =>
  }

  /** Every holder agrees after a step that does not claim the request. */
  lemma HoldersAgree(cfg: Config, s: State, l: Label, t: Tally, id: RequestId)
    requires Inv(s) && Enabled(cfg, s, l) && id in s.db.rows && Agrees(s, t, id)
    requires !(EffectOf(s, l).Claims? && EffectOf(s, l).id == id)
    ensures var s' := Apply(cfg, s, l);
            forall a {:trigger Holds(s'.actors[a], id)} :: a in s'.actors && Holds(s'.actors[a], id) ==>
              HolderAgrees(s'.actors[a], Unchecked(Tallied(t, s, l, id)))
  {
    hide Apply, Tallied, EffectOf;
    var s' := Apply(cfg, s, l);
    StepShape(cfg, s, l);
    forall a | a in s'.actors && Holds(s'.actors[a], id)
      ensures HolderAgrees(s'.actors[a], Unchecked(Tallied(t, s, l, id)))
    {
      if !l.Disturb? && l.actor == a {
        if Holds(s.actors[a], id) {
          OwnStepAgrees(cfg, s, l, t, id);
        } else {
          NoClaimNoHold(cfg, s, l, id);
        }
      } else {
        assert Holds(s.actors[a], id);
        OtherStepsDoNotCheck(s, l, t, id, a);
      }
    }
  }

  lemma OtherStepsDoNotCheck(s: State, l: Label, t: Tally, id: RequestId, a: ActorId)
    requires Inv(s) && a in s.actors && Holds(s.actors[a], id) && (l.Disturb? || l.actor != a)
    requires !(EffectOf(s, l).Claims? && EffectOf(s, l).id == id)
    ensures Unchecked(Tallied(t, s, l, id)) == Unchecked(t)
  {
    if !l.Disturb? && l.actor in s.actors {
      NotAlsoHeld(s, a, l.actor, id);
    }
  }

  /** A finish takes the row out of RUNNING only after its check. */
  lemma FinishIsChecked(cfg: Config, s: State, l: Label, t: Tally, id: RequestId)
    requires Inv(s) && Enabled(cfg, s, l) && id in s.db.rows && Agrees(s, t, id)
    requires id in Apply(cfg, s, l).db.rows && !Apply(cfg, s, l).db.rows[id].status.Running?
    ensures Unchecked(Tallied(t, s, l, id)) == 0
  {
    hide Cycle, Consistent, Enabled, Apply;
    StepIsAllowedWrite(cfg, s, l);
    if !l.Disturb? && l.actor in s.actors {
      assert PcOk(s.db, s.used, s.actors[l.actor]);
      assert Holds(s.actors[l.actor], id) ==> HolderAgrees(s.actors[l.actor], Unchecked(t));
    }
  }

  lemma ClaimAgrees(cfg: Config, s: State, l: Label, t: Tally, id: RequestId)
    requires Inv(s) && Enabled(cfg, s, l) && id in s.db.rows && Agrees(s, t, id)
    requires EffectOf(s, l).Claims? && EffectOf(s, l).id == id
    ensures Agrees(Apply(cfg, s, l), Tallied(t, s, l, id), id)
  {
    var s' := Apply(cfg, s, l);
    StepIsAllowedWrite(cfg, s, l);
    WriteKeepsCounts(s.db, EffectOf(s, l), t, id);
    forall a | a in s'.actors && a != l.actor ensures !Holds(s'.actors[a], id) {
      OthersKeepPc(cfg, s, l, a);
      NotAlsoHeld(s, l.actor, a, id);
    }
  }

  lemma StepAgrees(cfg: Config, s: State, l: Label, t: Tally, id: RequestId)
    requires Inv(s) && Enabled(cfg, s, l) && Agrees(s, t, id)
    ensures Agrees(Apply(cfg, s, l), Tallied(t, s, l, id), id)
  {
    var e := EffectOf(s, l);
    if id !in s.db.rows {
      UnknownAgrees(cfg, s, l, t, id);
    } else if e.Claims? && e.id == id {
      ClaimAgrees(cfg, s, l, t, id);
    } else {
      hide Enabled, Apply, Cycle, EffectOf;
      StepIsAllowedWrite(cfg, s, l);
      WriteKeepsCounts(s.db, e, t, id);
      HoldersAgree(cfg, s, l, t, id);
      if !Apply(cfg, s, l).db.rows[id].status.Running? {
        FinishIsChecked(cfg, s, l, t, id);
      }
    }
  }

  lemma ConsistentOrphans(db: Db)
    requires Consistent(db)
    ensures NoOrphans(db)
  {
  }

  /** An insert starts an empty history. */
  lemma InsertAgrees(cfg: Config, s: State, l: Label, id: RequestId)
    requires Inv(s) && Enabled(cfg, s, l) && EffectOf(s, l).Inserts? && EffectOf(s, l).id == id
    ensures Agrees(Apply(cfg, s, l), Tally(0, 0, 0, 0), id)
  {
    hide Enabled, Apply, Consistent;
    var e, s' := EffectOf(s, l), Apply(cfg, s, l);
    assert NoOrphans(s.db) by {
      ConsistentOrphans(s.db);
    }
    StepIsAllowedWrite(cfg, s, l);
    NoLogWithoutRow(s.db.events, id);
    PutLog(s.db, id, RowAfter(s.db, e), id);
    Lifecycle.CountAppend([], EventFor(id, RowAfter(s.db, e)), Queued);
    assert LogOf(s'.db.events, id) == [] + [EventFor(id, RowAfter(s.db, e))];
    StepInv(cfg, s, l);
    forall a | a in s'.actors ensures !Holds(s'.actors[a], id) {
      assert PcOk(s'.db, s'.used, s'.actors[a]);
    }
  }

  lemma InsertIsNotCounted(s: State, l: Label, t: Tally, id: RequestId)
    requires EffectOf(s, l).Inserts?
    ensures Tallied(t, s, l, id) == t
  {
  }

  lemma UnknownIsNotCounted(cfg: Config, s: State, l: Label, t: Tally, id: RequestId)
    requires Inv(s) && Enabled(cfg, s, l) && id !in s.db.rows
    requires !(EffectOf(s, l).Inserts? && EffectOf(s, l).id == id)
    ensures Tallied(t, s, l, id) == t && id !in Apply(cfg, s, l).db.rows
  {
    hide Apply, Enabled, Consistent;
    StepIsAllowedWrite(cfg, s, l);
    if !l.Disturb? && l.actor in s.actors {
      assert PcOk(s.db, s.used, s.actors[l.actor]);
    }
  }

  /** Before its insert a request has no history. */
  lemma UnknownAgrees(cfg: Config, s: State, l: Label, t: Tally, id: RequestId)
    requires Inv(s) && Enabled(cfg, s, l) && id !in s.db.rows && Agrees(s, t, id)
    ensures Agrees(Apply(cfg, s, l), Tallied(t, s, l, id), id)
  {
    hide Apply, Enabled, Cycle, Inv, Tallied, EffectOf;
    if EffectOf(s, l).Inserts? && EffectOf(s, l).id == id {
      InsertIsNotCounted(s, l, t, id);
      InsertAgrees(cfg, s, l, id);
    } else {
      UnknownIsNotCounted(cfg, s, l, t, id);
    }
  }

  lemma NoneAtFirst(s: State, id: RequestId)
    requires Initial(s)
    ensures Agrees(s, Tally(0, 0, 0, 0), id)
  {
  }

  lemma {:induction false} RunAgrees(cfg: Config, r: Run, i: nat, id: RequestId)
    requires r.Valid(cfg) && i < |r.states|
    ensures Agrees(r.states[i], TallyAt(r, i, id), id)
  {
    hide Enabled, Apply, Inv, Tallied, Agrees;
    if i == 0 {
      NoneAtFirst(r.states[0], id);
    }
    if i > 0 {
      RunAgrees(cfg, r, i - 1, id);
      ReachableInv(cfg, r, i - 1);
      StepAgrees(cfg, r.states[i - 1], r.labels[i - 1], TallyAt(r, i - 1, id), id);
    }
  }

  ghost predicate BeingDeferred(s: State, a: ActorId, id: RequestId) {
    a in s.actors && s.actors[a].Deferring? && s.actors[a].hold.id == id
  }

  /** No count ever goes down, and a worker on its way to a deferral has been counted. */
  lemma StepCountsDeferrals(cfg: Config, s: State, l: Label, t: Tally, a: ActorId, id: RequestId)
    requires Enabled(cfg, s, l)
    requires BeingDeferred(s, a, id) ==> t.deferrals > 0
    ensures Tallied(t, s, l, id).deferrals >= t.deferrals
    ensures BeingDeferred(Apply(cfg, s, l), a, id) ==> Tallied(t, s, l, id).deferrals > 0
  {
    if l.Disturb? || l.actor != a {
      StepShape(cfg, s, l);
    } else {
      match l
      case Submitter(_, op) => SubmitShape(cfg, s, a, s.actors[a], op);
      case Operator(_, op) => ReplayShape(cfg, s, a, s.actors[a], op);
      case Claimer(_, op) => ClaimShape(cfg, s, a, s.actors[a], op);
      case _ =>
    }
  }

  lemma {:induction false} DeferralsAreCounted(cfg: Config, r: Run, i: nat, a: ActorId, id: RequestId)
    requires r.Valid(cfg) && i < |r.states| && BeingDeferred(r.states[i], a, id)
    ensures TallyAt(r, i, id).deferrals > 0
  {
    hide Enabled, Apply, Tallied;
    if i > 0 {
      var s, l := r.states[i - 1], r.labels[i - 1];
      if BeingDeferred(s, a, id) {
        DeferralsAreCounted(cfg, r, i - 1, a, id);
      }
      StepCountsDeferrals(cfg, s, l, TallyAt(r, i - 1, id), a, id);
    }
  }

  lemma {:induction false} DeferralsGrow(r: Run, i: nat, j: nat, id: RequestId)
    requires i <= j < |r.states| && |r.states| == |r.labels| + 1
    ensures TallyAt(r, i, id).deferrals <= TallyAt(r, j, id).deferrals
  {
    hide EffectOf, Checks, Deferred;
    if i < j {
      DeferralsGrow(r, i, j - 1, id);
    }
  }

  /** So a dead letter that was ever deferred has had fewer adapter calls than its budgets. */
  lemma DeferredDeadLettersHadFewerCalls(cfg: Config, r: Run, i: nat, j: nat, a: ActorId, id: RequestId)
    requires r.Valid(cfg) && i <= j < |r.states| && BeingDeferred(r.states[i], a, id)
    requires id in r.states[j].db.rows && r.states[j].db.rows[id].status.DeadLetter?
    ensures TallyAt(r, j, id).calls < (TallyAt(r, j, id).replays + 1) * r.states[j].db.rows[id].fields.maxAttempts
  {
    hide TallyAt;
    DeferralsAreCounted(cfg, r, i, a, id);
    DeferralsGrow(r, i, j, id);
    CallsAndDeferralsMakeUpTheAttempts(cfg, r, j, id);
  }

  /**
   The ledger of a request over a whole run: its claims are its replays times the budget plus the
   counter, and every claim whose attempt is over was either an adapter call or a deferral. So a dead
   letter has used up its budget, but not necessarily by calls.
   */
  lemma CallsAndDeferralsMakeUpTheAttempts(cfg: Config, r: Run, i: nat, id: RequestId)
    requires r.Valid(cfg) && i < |r.states| && id in r.states[i].db.rows
    ensures var row, t := r.states[i].db.rows[id], TallyAt(r, i, id);
            && t.claims == t.replays * row.fields.maxAttempts + row.attemptCount
            && t.replays == Lifecycle.CountOf(LogOf(r.states[i].db.events, id), Queued) - 1
            && t.claims == Lifecycle.CountOf(LogOf(r.states[i].db.events, id), Running)
            && (!row.status.Running? ==> t.calls + t.deferrals == t.claims)
            && (row.status.DeadLetter? ==> t.calls == (t.replays + 1) * row.fields.maxAttempts - t.deferrals)
  {
    hide Enabled, Apply, TallyAt, Consistent, Exclusive;
    RunAgrees(cfg, r, i, id);
    ReachableInv(cfg, r, i);
    RowAccounting(r.states[i].db, id);
    RowBounds(r.states[i].db, id);
    Lifecycle.Distribute(TallyAt(r, i, id).replays, r.states[i].db.rows[id].fields.maxAttempts);
  }
}
