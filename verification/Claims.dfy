/** Who holds what: uniqueness of claims and of holders, frozen rows, and replay of dead letters. */
module Claims {
  import opened Models
  import opened Tables
  import opened Protocol
  import opened Invariant
  import opened Effects
  import Lifecycle

  // ----- Holders

  /** Each RUNNING row has exactly one claimer, live or crashed. */
  lemma ExactlyOneHolder(cfg: Config, r: Run, i: nat, id: RequestId)
    requires r.Valid(cfg) && i < |r.states|
    requires id in r.states[i].db.rows
    ensures var s := r.states[i];
            if s.db.rows[id].status.Running? then
              exists a :: a in s.actors && Holds(s.actors[a], id)
                          && forall b :: b in s.actors && Holds(s.actors[b], id) ==> b == a
            else forall b :: b in s.actors ==> !Holds(s.actors[b], id)
  {
    var s := r.states[i];
    ReachableInv(cfg, r, i);
    if s.db.rows[id].status.Running? {
      assert Owned(s.actors, id);
      var a :| a in s.actors && Holds(s.actors[a], id);
      assert Grip(s.actors[a]) == Some(id);
      forall b | b in s.actors && Holds(s.actors[b], id) ensures b == a {
        assert Grip(s.actors[b]) == Some(id);
      }
    } else {
      forall b | b in s.actors ensures !Holds(s.actors[b], id) {
        assert PcOk(s.db, s.used, s.actors[b]);
      }
    }
  }

  /** No step of anyone else, nor of the broker, changes a held row, its log, or what its holder knows. */
  lemma HeldRowIsFrozen(cfg: Config, s: State, l: Label, a: ActorId, id: RequestId)
    requires Inv(s) && Enabled(cfg, s, l)
    requires a in s.actors && Holds(s.actors[a], id)
    requires l.Disturb? || l.actor != a
    ensures var s' := Apply(cfg, s, l);
            && a in s'.actors && s'.actors[a] == s.actors[a]
            && id in s.db.rows && id in s'.db.rows && s'.db.rows[id] == s.db.rows[id]
            && LogOf(s'.db.events, id) == LogOf(s.db.events, id)
  {
    var e := EffectOf(s, l);
    StepIsAllowedWrite(cfg, s, l);
    assert PcOk(s.db, s.used, s.actors[a]);
    assert Grip(s.actors[a]) == Some(id);
    if !e.Nothing? {
      PutLog(s.db, e.id, RowAfter(s.db, e), id);
    }
    OthersKeepPc(cfg, s, l, a);
  }

  lemma OthersKeepPc(cfg: Config, s: State, l: Label, a: ActorId)
    requires Enabled(cfg, s, l) && a in s.actors
    requires l.Disturb? || l.actor != a
    ensures a in Apply(cfg, s, l).actors && Apply(cfg, s, l).actors[a] == s.actors[a]
  {
    hide Enabled, Apply;
    StepShape(cfg, s, l);
  }

  /** Over a whole stretch of a run in which the holder itself takes no step, its row stays as claimed. */
  lemma {:induction false} HeldRowStaysFrozen(cfg: Config, r: Run, i: nat, j: nat, a: ActorId, id: RequestId)
    requires r.Valid(cfg) && i <= j < |r.states|
    requires a in r.states[i].actors && Holds(r.states[i].actors[a], id)
    requires forall k :: i <= k < j ==> r.labels[k].Disturb? || r.labels[k].actor != a
    ensures var s, s' := r.states[i], r.states[j];
            && a in s'.actors && s'.actors[a] == s.actors[a]
            && id in s.db.rows && id in s'.db.rows && s'.db.rows[id] == s.db.rows[id]
            && LogOf(s'.db.events, id) == LogOf(s.db.events, id)
  {
    if i == j {
      ReachableInv(cfg, r, i);
      assert PcOk(r.states[i].db, r.states[i].used, r.states[i].actors[a]);
    } else {
      HeldRowStaysFrozen(cfg, r, i, j - 1, a, id);
      ReachableInv(cfg, r, j - 1);
      HeldRowIsFrozen(cfg, r.states[j - 1], r.labels[j - 1], a, id);
    }
  }

  /**
   The unlocked reads of a holder are exact: the re-read for the backoff and the select of
   `fail_or_retry` both return the claimed attempt, and no branch for a missing row is taken.
   */
  lemma HolderReadsAreExact(cfg: Config, r: Run, i: nat, a: ActorId)
    requires r.Valid(cfg) && i < |r.states| && a in r.states[i].actors
    ensures var s, pc := r.states[i], r.states[i].actors[a];
            && !pc.Broken? && !pc.Rejected?
            && (HoldOf(pc).Some? ==>
                  var hold := HoldOf(pc).value;
                  && hold.id in s.db.rows && s.db.rows[hold.id].status.Running?
                  && s.db.rows[hold.id].attemptCount == hold.attempt
                  && (pc.FailRead? ==>
                        pc.attempt == hold.attempt && pc.budget == s.db.rows[hold.id].fields.maxAttempts))
  {
    ReachableInv(cfg, r, i);
    assert PcOk(r.states[i].db, r.states[i].used, r.states[i].actors[a]);
  }

  // ----- Locks

  /** No two transactions have the same row locked; with the global write lock no two are open at all. */
  ghost predicate LocksExclude(cfg: Config, s: State) {
    forall a, b {:trigger s.actors[a], s.actors[b]} ::
      a in s.actors && b in s.actors && a != b && LockOf(s.actors[a]).Some? && LockOf(s.actors[b]).Some? ==>
        cfg.rowLocks && LockOf(s.actors[a]) != LockOf(s.actors[b])
  }

  /** A step locks at most one row, its own, and only if its transaction may begin and the row is free. */
  lemma LockingNeedsFreedom(cfg: Config, s: State, l: Label)
    requires Inv(s) && Enabled(cfg, s, l) && !l.Disturb?
    ensures var s' := Apply(cfg, s, l);
            && l.actor in s'.actors
            && (LockOf(s'.actors[l.actor]).Some? ==>
                  && MayBegin(cfg, s, l.actor) && Unlocked(s, l.actor, LockOf(s'.actors[l.actor]).value))
  {
    hide Consistent;
    match l
    case Submitter(a, op) => SubmitShape(cfg, s, a, s.actors[a], op);
    case Operator(a, op) =>
      if op.LockLetter? && s.actors[a].id in s.db.rows {
        RowIdOk(s.db, s.actors[a].id);
      }
    case Claimer(a, op) =>
      if op.Pick? {
        RowIdOk(s.db, op.id);
      } else if op.Target? && s.actors[a].id in s.db.rows {
        RowIdOk(s.db, s.actors[a].id);
      }
    case _ =>
  }

  /** In every state of every run. */
  lemma {:induction false} OneHolderPerLock(cfg: Config, r: Run, i: nat)
    requires r.Valid(cfg) && i < |r.states|
    ensures LocksExclude(cfg, r.states[i])
  {
    hide Enabled, Apply, Inv;
    if i > 0 {
      var s, l, s' := r.states[i - 1], r.labels[i - 1], r.states[i];
      OneHolderPerLock(cfg, r, i - 1);
      ReachableInv(cfg, r, i - 1);
      StepShape(cfg, s, l);
      if !l.Disturb? {
        LockingNeedsFreedom(cfg, s, l);
      }
    }
  }

  // ----- Progress of a row: replay cycle first, then attempt

  /** A row is never deleted nor rewritten; its cycle never decreases, nor its counter within a cycle. */
  ghost predicate Forward(db: Db, db': Db, id: RequestId)
    requires id in db.rows
  {
    && id in db'.rows && db'.rows[id].fields == db.rows[id].fields
    && db'.rows[id].createdAt == db.rows[id].createdAt
    && Cycle(db', id) >= Cycle(db, id)
    && (Cycle(db', id) == Cycle(db, id) ==> db'.rows[id].attemptCount >= db.rows[id].attemptCount)
  }

  lemma StepProgress(cfg: Config, s: State, l: Label, id: RequestId)
    requires Inv(s) && Enabled(cfg, s, l) && id in s.db.rows
    ensures Forward(s.db, Apply(cfg, s, l).db, id)
  {
    hide Cycle;
    var e := EffectOf(s, l);
    StepIsAllowedWrite(cfg, s, l);
    WriteAndCycle(s.db, e, id);
    if !e.Nothing? && e.id == id {
      WriteKeepsIdentity(s.db, e);
    }
  }

  lemma {:induction false} RunProgress(cfg: Config, r: Run, i: nat, j: nat, id: RequestId)
    requires r.Valid(cfg) && i <= j < |r.states|
    requires id in r.states[i].db.rows
    ensures Forward(r.states[i].db, r.states[j].db, id)
  {
    hide Enabled, Apply, Inv, Cycle;
    if i < j {
      RunProgress(cfg, r, i, j - 1, id);
      ReachableInv(cfg, r, j - 1);
      StepProgress(cfg, r.states[j - 1], r.labels[j - 1], id);
      ForwardTransitive(r.states[i].db, r.states[j - 1].db, r.states[j].db, id);
    }
  }

  lemma ForwardTransitive(db: Db, mid: Db, db': Db, id: RequestId)
    requires id in db.rows && Forward(db, mid, id) && Forward(mid, db', id)
    ensures Forward(db, db', id)
  {
  }

  // ----- Claims

  /** Step `i` of the run commits a claim of `id`. */
  ghost predicate ClaimsAt(r: Run, i: nat, id: RequestId)
    requires i < |r.labels| && |r.states| == |r.labels| + 1
  {
    EffectOf(r.states[i], r.labels[i]).Claims? && EffectOf(r.states[i], r.labels[i]).id == id
  }

  /** What a committed claim says: the attempt it starts is the row's counter plus one, in an unchanged cycle. */
  lemma ClaimCounts(cfg: Config, r: Run, i: nat, id: RequestId)
    requires r.Valid(cfg) && i < |r.labels| && ClaimsAt(r, i, id)
    ensures var s, s' := r.states[i], r.states[i + 1];
            var seen := EffectOf(s, r.labels[i]).seen;
            && id in s.db.rows && id in s'.db.rows
            && s.db.rows[id].attemptCount == seen
            && s'.db.rows[id].attemptCount == seen + 1
            && s'.db.rows[id].status.Running?
            && Cycle(s'.db, id) == Cycle(s.db, id)
  {
    ReachableInv(cfg, r, i);
    StepIsAllowedWrite(cfg, r.states[i], r.labels[i]);
    WriteAndCycle(r.states[i].db, EffectOf(r.states[i], r.labels[i]), id);
  }

  /**
   Single claim: over every interleaving, under either lock discipline and with crashes, no
   (request, replay cycle, attempt) is claimed twice; later claims are later in that order.
   */
  lemma NoDoubleClaim(cfg: Config, r: Run, i: nat, j: nat, id: RequestId)
    requires r.Valid(cfg) && i < j < |r.labels|
    requires ClaimsAt(r, i, id) && ClaimsAt(r, j, id)
    ensures var first, second := EffectOf(r.states[i], r.labels[i]).seen, EffectOf(r.states[j], r.labels[j]).seen;
            var c, c' := Cycle(r.states[i].db, id), Cycle(r.states[j].db, id);
            c < c' || (c == c' && first + 1 < second + 1)
  {
    hide Enabled, Apply, Inv;
    ClaimCounts(cfg, r, i, id);
    ClaimCounts(cfg, r, j, id);
    RunProgress(cfg, r, i + 1, j, id);
  }

  // ----- Replays

  ghost predicate ReplaysAt(r: Run, i: nat, id: RequestId)
    requires i < |r.labels| && |r.states| == |r.labels| + 1
  {
    EffectOf(r.states[i], r.labels[i]).Requeues? && EffectOf(r.states[i], r.labels[i]).id == id
  }

  ghost function DeadLetters(s: State, id: RequestId): nat {
    Lifecycle.CountOf(LogOf(s.db.events, id), DeadLetter)
  }

  /** Of any number of concurrent replays of one dead letter at most one succeeds: a second needs a new burial. */
  lemma EachReplayNeedsItsOwnDeadLetter(cfg: Config, r: Run, i: nat, j: nat, id: RequestId)
    requires r.Valid(cfg) && i < j < |r.labels|
    requires ReplaysAt(r, i, id) && ReplaysAt(r, j, id)
    ensures DeadLetters(r.states[j], id) > DeadLetters(r.states[i], id)
  {
    var s, t := r.states[i], r.states[j];
    ReachableInv(cfg, r, i);
    StepIsAllowedWrite(cfg, s, r.labels[i]);
    WriteAndCycle(s.db, EffectOf(s, r.labels[i]), id);
    RowAccounting(s.db, id);
    RunProgress(cfg, r, i + 1, j, id);
    ReachableInv(cfg, r, j);
    StepIsAllowedWrite(cfg, t, r.labels[j]);
    RowAccounting(t.db, id);
  }
}
