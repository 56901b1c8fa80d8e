/** Idempotent submission under races, and what the broker list can contain. */
module Submissions {
  import opened Models
  import opened Tables
  import opened Protocol
  import opened Invariant
  import opened Effects
  import opened Claims

  /** Two submissions with one key, finished at any two moments of a run by any actors, return the same id. */
  lemma SameKeySameId(cfg: Config, r: Run, i: nat, j: nat, a: ActorId, b: ActorId)
    requires r.Valid(cfg) && i <= j < |r.states|
    requires a in r.states[i].actors && r.states[i].actors[a].Stored?
    requires b in r.states[j].actors && r.states[j].actors[b].Stored?
    requires var first, second := r.states[i].actors[a].request, r.states[j].actors[b].request;
             first.idempotencyKey.Some? && first.idempotencyKey == second.idempotencyKey
    ensures r.states[i].actors[a].id == r.states[j].actors[b].id
  {
    var s, t := r.states[i], r.states[j];
    ReachableInv(cfg, r, i);
    ReachableInv(cfg, r, j);
    assert PcOk(s.db, s.used, s.actors[a]);
    assert PcOk(t.db, t.used, t.actors[b]);
    RunProgress(cfg, r, i, j, s.actors[a].id);
    assert SameKey(t.db.rows[s.actors[a].id], t.db.rows[t.actors[b].id]);
  }

  /** The fields of a row are those of the submission that created it, for ever: a later submission changes none. */
  lemma FirstSubmissionIsKept(cfg: Config, r: Run, i: nat, j: nat, id: RequestId)
    requires r.Valid(cfg) && i < j < |r.states|
    requires EffectOf(r.states[i], r.labels[i]).Inserts? && EffectOf(r.states[i], r.labels[i]).id == id
    ensures id !in r.states[i].db.rows
    ensures id in r.states[j].db.rows
    ensures r.states[j].db.rows[id].fields == EffectOf(r.states[i], r.labels[i]).request
    ensures r.states[j].db.rows[id].createdAt == EffectOf(r.states[i], r.labels[i]).now
  {
    ReachableInv(cfg, r, i);
    StepIsAllowedWrite(cfg, r.states[i], r.labels[i]);
    RunProgress(cfg, r, i + 1, j, id);
  }

  /** At most one insert ever succeeds for a key, and for an id. */
  lemma OneInsertPerKey(cfg: Config, r: Run, i: nat, j: nat)
    requires r.Valid(cfg) && i < j < |r.labels|
    requires EffectOf(r.states[i], r.labels[i]).Inserts? && EffectOf(r.states[j], r.labels[j]).Inserts?
    ensures var first, second := EffectOf(r.states[i], r.labels[i]), EffectOf(r.states[j], r.labels[j]);
            && first.id != second.id
            && (first.request.idempotencyKey.Some? ==> first.request.idempotencyKey != second.request.idempotencyKey)
  {
    var first := EffectOf(r.states[i], r.labels[i]);
    FirstSubmissionIsKept(cfg, r, i, j, first.id);
    ReachableInv(cfg, r, j);
    StepIsAllowedWrite(cfg, r.states[j], r.labels[j]);
  }

  /** A losing insert leaves nothing behind in the tables and goes on to find the winner's row. */
  lemma LosingInsertLeavesNothing(cfg: Config, s: State, a: ActorId)
    requires Inv(s) && a in s.actors && s.actors[a].Inserting?
    requires Violates(s.db.rows, s.actors[a].candidate, s.actors[a].request)
    ensures var s' := Apply(cfg, s, Submitter(a, InsertRow));
            && s'.db == s.db
            && s'.actors[a] == LookingAgain(s.actors[a].request)
            && forall found :: Enabled(cfg, s', Submitter(a, LookAgain(found))) ==>
                 && found.Some? && found.value in s.db.rows
                 && s.db.rows[found.value].fields.idempotencyKey == s.actors[a].request.idempotencyKey
  {
    assert PcOk(s.db, s.used, s.actors[a]);
  }

  /** No submission ends in an exception, whatever the interleaving: neither the re-raise nor the failed read-back. */
  lemma SubmissionsNeverFail(cfg: Config, r: Run, i: nat, a: ActorId)
    requires r.Valid(cfg) && i < |r.states| && a in r.states[i].actors
    ensures !r.states[i].actors[a].Rejected?
  {
    ReachableInv(cfg, r, i);
    assert PcOk(r.states[i].db, r.states[i].used, r.states[i].actors[a]);
  }

  /** Persist before publish: every id that the service ever published is a row. */
  lemma PublishedIsPersisted(cfg: Config, r: Run, i: nat, id: RequestId)
    requires r.Valid(cfg) && i < |r.states|
    ensures id in r.states[i].published ==> id in r.states[i].db.rows
  {
    ReachableInv(cfg, r, i);
  }

  /** Every publication puts its id at the end of the list, and nothing else in the service does. */
  lemma PublicationsReachTheBroker(cfg: Config, s: State, l: Label)
    requires Enabled(cfg, s, l) && !l.Disturb?
    ensures var s', pc := Apply(cfg, s, l), s.actors[l.actor];
            var publishes := cfg.brokered && (l == Submitter(l.actor, Publish) || l == Operator(l.actor, Republish));
            if publishes then
              && (pc.Stored? || pc.Requeued?)
              && s'.broker == s.broker + [pc.id] && s'.published == s.published + {pc.id}
            else
              && s'.published == s.published
              && (s'.broker == s.broker
                  || (s.broker != [] && s'.broker == s.broker[1..] && s'.actors[l.actor].Targeting?))
  {
  }

  /** With a broker, a submission that reads its row back has published it. */
  lemma {:induction false} AnnouncedIsPublished(cfg: Config, r: Run, i: nat, a: ActorId)
    requires r.Valid(cfg) && cfg.brokered && i < |r.states|
    requires a in r.states[i].actors && r.states[i].actors[a].Announced?
    ensures r.states[i].actors[a].id in r.states[i].published
  {
    if i > 0 {
      var s, l := r.states[i - 1], r.labels[i - 1];
      if !l.Disturb? {
        PublicationsReachTheBroker(cfg, s, l);
      }
      if l.Disturb? || l.actor != a {
        OthersKeepPc(cfg, s, l, a);
        AnnouncedIsPublished(cfg, r, i - 1, a);
      } else {
        OnlyPublishingAnnounces(cfg, s, l);
      }
    }
  }

  lemma OnlyPublishingAnnounces(cfg: Config, s: State, l: Label)
    requires Enabled(cfg, s, l) && !l.Disturb? && Apply(cfg, s, l).actors[l.actor].Announced?
    ensures l == Submitter(l.actor, Publish) && s.actors[l.actor].Stored?
    ensures Apply(cfg, s, l).actors[l.actor].id == s.actors[l.actor].id
  {
    match l
    case Operator(a, op) => ReplayShape(cfg, s, a, s.actors[a], op);
    case Claimer(a, op) => ClaimShape(cfg, s, a, s.actors[a], op);
    case _ =>
  }

  /** A submission whose key is known when it looks is answered with the owner and never tries to insert. */
  lemma KnownKeyIsNotInserted(cfg: Config, s: State, a: ActorId, l: Label)
    requires Enabled(cfg, s, l) && l.Submitter? && l.actor == a
    ensures l.submit.Begin? ==>
              (Apply(cfg, s, l).actors[a].Inserting? <==> l.submit.request.idempotencyKey.None?)
    ensures l.submit.LookUp? && s.actors[a].request.idempotencyKey.Some?
            && KeyTaken(s.db.rows, s.actors[a].request.idempotencyKey.value) ==>
              && Apply(cfg, s, l).actors[a].Stored?
              && Apply(cfg, s, l).actors[a].id in s.db.rows
              && s.db.rows[Apply(cfg, s, l).actors[a].id].fields.idempotencyKey == s.actors[a].request.idempotencyKey
  {
  }

  /** The disturbances that lose, duplicate or reorder messages but do not invent them. */
  ghost predicate Honest(s: State, l: Label) {
    l.Disturb? ==> forall id :: id in l.items ==> id in s.broker
  }

  /** With such a broker every message in the list is a persisted row; stale, perhaps, but never unknown. */
  lemma {:induction false} BrokerHoldsPersistedIds(cfg: Config, r: Run, i: nat)
    requires r.Valid(cfg) && i < |r.states|
    requires r.states[0].broker == []
    requires forall k :: 0 <= k < i ==> Honest(r.states[k], r.labels[k])
    ensures forall id :: id in r.states[i].broker ==> id in r.states[i].published && id in r.states[i].db.rows
  {
    if i > 0 {
      var s, l := r.states[i - 1], r.labels[i - 1];
      BrokerHoldsPersistedIds(cfg, r, i - 1);
      BrokerGrowsByPublishing(cfg, s, l);
      ReachableInv(cfg, r, i);
    }
  }

  lemma BrokerGrowsByPublishing(cfg: Config, s: State, l: Label)
    requires Enabled(cfg, s, l) && Honest(s, l)
    ensures s.published <= Apply(cfg, s, l).published
    ensures forall id :: id in Apply(cfg, s, l).broker ==> id in s.broker || id in Apply(cfg, s, l).published
  {
  }

  // ----- Turns that find nothing

  /** The reading on which a worker that polls looks for rows, if this is the step that takes it. */
  function PollReading(l: Label): Option<Instant> {
    match l
    case Claimer(_, Consume(now)) => Some(now)
    case Claimer(_, Poll(now)) => Some(now)
    case _ => None
  }

  /** Step `i` takes an idle worker to its broker message, or to polling. */
  ghost predicate StartsTurn(r: Run, i: nat, a: ActorId)
    requires i < |r.labels| && |r.states| == |r.labels| + 1
  {
    && a in r.states[i].actors && r.states[i].actors[a].Idle?
    && r.labels[i].Claimer? && r.labels[i].actor == a && (r.labels[i].claim.Consume? || r.labels[i].claim.Poll?)
  }

  /** Worker `a` is on its way through a turn that began at step `i` and has claimed nothing. */
  ghost predicate Searching(r: Run, i: nat, j: nat, a: ActorId)
    requires i < j < |r.states| && |r.states| == |r.labels| + 1
  {
    && a in r.states[j].actors
    && var pc := r.states[j].actors[a];
       || pc.Claiming? || pc.Crashed?
       || (pc.Targeting? && MessageAt(r, i, a, pc.id, pc.now))
       || (pc.Missed? && MessageTried(r, i, j, a))
       || (pc.Polling? && exists p: nat :: i <= p < j && PollsAt(r, i, p, a, pc.now))
  }

  /** Step `i` takes the message `id` off the broker list. */
  ghost predicate MessageAt(r: Run, i: nat, a: ActorId, id: RequestId, now: Instant)
    requires i < |r.labels| && |r.states| == |r.labels| + 1
  {
    r.labels[i] == Claimer(a, Consume(now)) && r.states[i].broker != [] && id == r.states[i].broker[0]
  }

  /** Step `q` tries the row that the message of step `i` names, on the reading of that step, and cannot claim it. */
  ghost predicate MissesAt(r: Run, i: nat, q: nat, a: ActorId)
    requires i < |r.labels| && q < |r.labels| && |r.states| == |r.labels| + 1
  {
    && r.labels[q] == Claimer(a, Target)
    && r.labels[i].Claimer? && r.labels[i].claim.Consume?
    && r.states[i].broker != []
    && !Claimable(r.states[q], a, r.states[i].broker[0], r.labels[i].claim.now)
  }

  ghost predicate MessageTried(r: Run, i: nat, p: nat, a: ActorId)
    requires i < |r.labels| && p <= |r.labels| && |r.states| == |r.labels| + 1
  {
    exists q: nat :: i < q < p && MissesAt(r, i, q, a)
  }

  /**
   Step `p` turns the worker to polling on the reading `now`: the first step of the turn, if there was no
   message, or a later one, after the row of the message was tried and could not be claimed.
   */
  ghost predicate PollsAt(r: Run, i: nat, p: nat, a: ActorId, now: Instant)
    requires i < |r.labels| && p < |r.labels| && |r.states| == |r.labels| + 1
  {
    && r.labels[p].Claimer? && r.labels[p].actor == a && PollReading(r.labels[p]) == Some(now)
    && if p == i then r.labels[p].claim.Poll? || r.states[i].broker == []
       else r.labels[p].claim.Poll? && MessageTried(r, i, p, a)
  }

  /** No step of `a` after the first of its turn commits a claim or ends the turn. */
  ghost predicate TurnGoesOn(r: Run, i: nat, j: nat, a: ActorId)
    requires i < j <= |r.labels| && |r.states| == |r.labels| + 1
  {
    forall k {:trigger r.labels[k]} :: i < k < j ==>
      r.labels[k] != Claimer(a, CommitClaim) && r.labels[k] != Claimer(a, FindNothing)
  }

  lemma OwnSearchGoesOn(cfg: Config, r: Run, i: nat, j: nat, a: ActorId)
    requires r.Steps(cfg) && i < j < |r.labels| && Searching(r, i, j, a)
    requires !r.labels[j].Disturb? && r.labels[j].actor == a
    requires r.labels[j] != Claimer(a, CommitClaim) && r.labels[j] != Claimer(a, FindNothing)
    ensures Searching(r, i, j + 1, a)
  {
    var s, l := r.states[j], r.labels[j];
    var pc := s.actors[a];
    if pc.Targeting? && l.Claimer? && !Claimable(s, a, pc.id, pc.now) {
      assert i < j < j + 1 && MissesAt(r, i, j, a);
    } else if pc.Missed? && l.Claimer? {
      assert i <= j < j + 1 && PollsAt(r, i, j, a, l.claim.now);
    }
  }

  lemma SearchGoesOn(cfg: Config, r: Run, i: nat, j: nat, a: ActorId)
    requires r.Steps(cfg) && i < j < |r.labels| && Searching(r, i, j, a)
    requires r.labels[j] != Claimer(a, CommitClaim) && r.labels[j] != Claimer(a, FindNothing)
    ensures Searching(r, i, j + 1, a)
  {
    var s, l := r.states[j], r.labels[j];
    var pc := s.actors[a];
    if l.Disturb? || l.actor != a {
      OthersKeepPc(cfg, s, l, a);
      if pc.Polling? {
        var p: nat :| i <= p < j && PollsAt(r, i, p, a, pc.now);
        assert i <= p < j + 1 && PollsAt(r, i, p, a, pc.now);
      } else if pc.Missed? {
        var q: nat :| i < q < j && MissesAt(r, i, q, a);
        assert i < q < j + 1 && MissesAt(r, i, q, a);
      }
    } else {
      OwnSearchGoesOn(cfg, r, i, j, a);
    }
  }

  lemma SearchStarts(cfg: Config, r: Run, i: nat, a: ActorId)
    requires r.Steps(cfg) && i < |r.labels|
    requires StartsTurn(r, i, a)
    ensures Searching(r, i, i + 1, a)
  {
    if r.states[i + 1].actors[a].Polling? {
      assert i <= i < i + 1 && PollsAt(r, i, i, a, r.states[i + 1].actors[a].now);
    }
  }

  lemma {:induction false} SearchLasts(cfg: Config, r: Run, i: nat, j: nat, a: ActorId)
    requires r.Steps(cfg) && i < j <= |r.labels| && TurnGoesOn(r, i, j, a)
    requires StartsTurn(r, i, a)
    ensures Searching(r, i, j, a)
  {
    hide Enabled, Apply, Searching;
    if j == i + 1 {
      SearchStarts(cfg, r, i, a);
    } else {
      SearchLasts(cfg, r, i, j - 1, a);
      SearchGoesOn(cfg, r, i, j - 1, a);
    }
  }

  /**
   A whole turn without work, from its first step to its end with no claim in between, however others
   interfere: at the end every row due on the turn's poll reading was locked by another transaction, and
   the row that the broker named, if it named one, could not be claimed when the worker tried it.
   */
  lemma EmptyTurnMeansNothingFree(cfg: Config, r: Run, i: nat, j: nat, a: ActorId) returns (p: nat)
    requires r.Valid(cfg) && i < j < |r.labels| && TurnGoesOn(r, i, j, a)
    requires StartsTurn(r, i, a)
    requires a in r.states[j + 1].actors && r.states[j + 1].actors[a].Idle?
    requires r.labels[j].Claimer? && r.labels[j].actor == a
    ensures i <= p < j && PollReading(r.labels[p]).Some? && PollsAt(r, i, p, a, PollReading(r.labels[p]).value)
    ensures r.labels[i].claim.Consume? && r.states[i].broker != [] ==> MessageTried(r, i, p, a)
    ensures forall id :: id in r.states[j].db.rows
                         && Eligible(r.states[j].db.rows[id], PollReading(r.labels[p]).value) ==>
              exists b :: b in r.states[j].actors && b != a && LockOf(r.states[j].actors[b]) == Some(id)
  {
    var s := r.states[j];
    SearchLasts(cfg, r, i, j, a);
    p :| i <= p < j && PollsAt(r, i, p, a, s.actors[a].now);
    forall id | id in s.db.rows && Eligible(s.db.rows[id], s.actors[a].now)
      ensures exists b :: b in s.actors && b != a && LockOf(s.actors[b]) == Some(id)
    {
      assert !Claimable(s, a, id, s.actors[a].now);
    }
  }

  /** Conversely a worker that looks for work with an eligible, unlocked row in the table can take one as old. */
  lemma EligibleWorkIsFound(cfg: Config, s: State, a: ActorId, id: RequestId) returns (oldest: RequestId)
    requires a in s.actors && s.actors[a].Polling? && MayBegin(cfg, s, a)
    requires Claimable(s, a, id, s.actors[a].now)
    ensures Enabled(cfg, s, Claimer(a, Pick(oldest)))
    ensures s.db.rows[oldest].createdAt <= s.db.rows[id].createdAt
  {
    FirstExists(s.db.rows, LockedByOthers(s, a), id, s.actors[a].now);
    oldest :| oldest in s.db.rows && First(s.db.rows, LockedByOthers(s, a), oldest, s.actors[a].now);
    assert Claimable(s, a, id, s.actors[a].now) && Oldest(s, a, oldest, s.actors[a].now);
  }
}
