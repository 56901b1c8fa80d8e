/** The inductive invariant of the protocol and its preservation by every step. */
module Invariant {
  import opened Models
  import opened Tables
  import opened Protocol

  /** The request an actor has exclusive business with: a fresh id, a locked row or a held claim. */
  function Grip(pc: Pc): Option<RequestId> {
    if pc.LookingUp? || pc.Inserting? then Some(pc.candidate)
    else if HoldOf(pc).Some? then Some(HoldOf(pc).value.id)
    else LockOf(pc)
  }

  ghost predicate HoldOk(db: Db, hold: Hold) {
    && hold.id in db.rows
    && db.rows[hold.id].status.Running?
    && db.rows[hold.id].attemptCount == hold.attempt
    && db.rows[hold.id].updatedAt == hold.claimedAt
    && db.rows[hold.id].fields.target == hold.target
  }

  /** What is true of the tables at each program counter. The error branches are never reached. */
  ghost predicate PcOk(db: Db, used: set<RequestId>, pc: Pc) {
    && (HoldOf(pc).Some? ==> HoldOk(db, HoldOf(pc).value))
    && match pc
       case LookingUp(candidate, request, _) =>
         candidate in used && candidate !in db.rows && request.idempotencyKey.Some?
       case Inserting(candidate, request, _) => candidate in used && candidate !in db.rows
       case LookingAgain(request) =>
         request.idempotencyKey.Some? && KeyTaken(db.rows, request.idempotencyKey.value)
       case Stored(id, request) =>
         && id in db.rows
         && (request.idempotencyKey.Some? ==> db.rows[id].fields.idempotencyKey == request.idempotencyKey)
       case Announced(id) => id in db.rows
       case Requeued(id) => id in db.rows
       case Replaying(seen, _) =>
         seen.id in db.rows && db.rows[seen.id] == seen && seen.status.DeadLetter?
       case Claiming(seen, now) =>
         seen.id in db.rows && db.rows[seen.id] == seen && Eligible(seen, now)
       case Failing(_, delay, _) => delay >= 0
       case FailRead(hold, delay, _, attempt, budget) =>
         delay >= 0 && attempt == hold.attempt && budget == db.rows[hold.id].fields.maxAttempts
       case Rejected => false
       case Broken => false
       case _ => true
  }

  ghost predicate Exclusive(actors: map<ActorId, Pc>) {
    forall a, b {:trigger Grip(actors[a]), Grip(actors[b])} ::
      a in actors && b in actors && a != b && Grip(actors[a]).Some? ==> Grip(actors[a]) != Grip(actors[b])
  }

  ghost predicate Owned(actors: map<ActorId, Pc>, id: RequestId) {
    exists a :: a in actors && Holds(actors[a], id)
  }

  ghost predicate Inv(s: State) {
    && Consistent(s.db)
    && s.db.rows.Keys <= s.used
    && s.published <= s.db.rows.Keys
    && (forall a {:trigger PcOk(s.db, s.used, s.actors[a])} :: a in s.actors ==> PcOk(s.db, s.used, s.actors[a]))
    && Exclusive(s.actors)
    && (forall id {:trigger Owned(s.actors, id)} ::
          id in s.db.rows && s.db.rows[id].status.Running? ==> Owned(s.actors, id))
  }

  lemma InitialInv(s: State)
    requires Initial(s)
    ensures Inv(s)
  {
  }

  // ----- Two shapes of steps

  /** A step of actor `a` that leaves the tables alone. */
  lemma LocalStep(s: State, s': State, a: ActorId, pc: Pc)
    requires Inv(s) && a in s.actors
    requires s'.db == s.db && s'.actors == s.actors[a := pc]
    requires s.used <= s'.used && s'.published <= s.db.rows.Keys
    requires PcOk(s.db, s'.used, pc)
    requires HoldOf(s.actors[a]).Some? ==> HoldOf(pc) == HoldOf(s.actors[a])
    requires Grip(pc).None? || Grip(pc) == Grip(s.actors[a])
             || forall b :: b in s.actors && b != a ==> Grip(s.actors[b]) != Grip(pc)
    ensures Inv(s')
  {
    forall id | id in s.db.rows && s.db.rows[id].status.Running? ensures Owned(s'.actors, id) {
      assert Owned(s.actors, id);
      var b :| b in s.actors && Holds(s.actors[b], id);
      assert Holds(s'.actors[b], id);
    }
    forall b | b in s'.actors ensures PcOk(s'.db, s'.used, s'.actors[b]) {
      assert b != a ==> PcOk(s.db, s.used, s.actors[b]);
    }
  }

  lemma PcFrame(db: Db, used: set<RequestId>, id: RequestId, row: Row, pc: Pc)
    requires PcOk(db, used, pc) && Grip(pc) != Some(id)
    requires id in db.rows ==> row.fields == db.rows[id].fields
    ensures PcOk(Put(db, id, row), used, pc)
  {
    if pc.LookingAgain? {
      var i :| i in db.rows && db.rows[i].fields.idempotencyKey == Some(pc.request.idempotencyKey.value);
      assert Put(db, id, row).rows[i].fields.idempotencyKey == Some(pc.request.idempotencyKey.value);
    }
  }

  lemma WriteKeepsOwners(s: State, a: ActorId, pc: Pc, id: RequestId, row: Row)
    requires a in s.actors && Grip(s.actors[a]) == Some(id)
    requires forall i {:trigger Owned(s.actors, i)} ::
               i in s.db.rows && s.db.rows[i].status.Running? ==> Owned(s.actors, i)
    requires row.status.Running? ==> Holds(pc, id)
    ensures var actors', rows' := s.actors[a := pc], s.db.rows[id := row];
            forall i {:trigger Owned(actors', i)} :: i in rows' && rows'[i].status.Running? ==> Owned(actors', i)
  {
    var actors', rows' := s.actors[a := pc], s.db.rows[id := row];
    forall i | i in rows' && rows'[i].status.Running? ensures Owned(actors', i) {
      if i == id {
        assert Holds(actors'[a], id);
      } else {
        assert Owned(s.actors, i);
        var b :| b in s.actors && Holds(s.actors[b], i);
        assert Holds(actors'[b], i);
      }
    }
  }

  lemma GripsStayExclusive(actors: map<ActorId, Pc>, a: ActorId, pc: Pc)
    requires Exclusive(actors) && a in actors
    requires Grip(pc).None? || Grip(pc) == Grip(actors[a])
    ensures Exclusive(actors[a := pc])
  {
  }

  /** A step of actor `a` that writes the row it has a grip on. */
  lemma WriteStep(s: State, a: ActorId, pc: Pc, id: RequestId, row: Row)
    requires Inv(s) && a in s.actors && Grip(s.actors[a]) == Some(id)
    requires Consistent(Put(s.db, id, row)) && id in s.used
    requires id in s.db.rows ==> row.fields == s.db.rows[id].fields
    requires PcOk(Put(s.db, id, row), s.used, pc) && (Grip(pc).None? || Grip(pc) == Some(id))
    requires row.status.Running? ==> Holds(pc, id)
    ensures Inv(With(s, a, pc).(db := Put(s.db, id, row)))
  {
    var s' := With(s, a, pc).(db := Put(s.db, id, row));
    forall b | b in s'.actors ensures PcOk(s'.db, s'.used, s'.actors[b]) {
      if b != a {
        PcFrame(s.db, s.used, id, row, s.actors[b]);
      }
    }
    WriteKeepsOwners(s, a, pc, id, row);
    GripsStayExclusive(s.actors, a, pc);
  }

  // ----- Steps by role

  lemma SubmitStep(cfg: Config, s: State, a: ActorId, op: SubmitOp)
    requires Inv(s) && a in s.actors && CanSubmit(s, s.actors[a], op)
    ensures Inv(DoSubmit(cfg, s, a, s.actors[a], op))
  {
    var pc, s' := s.actors[a], DoSubmit(cfg, s, a, s.actors[a], op);
    assert PcOk(s.db, s.used, pc);
    if op.Begin? {
      forall b | b in s.actors && b != a ensures Grip(s.actors[b]) != Some(op.candidate) {
        assert PcOk(s.db, s.used, s.actors[b]);
      }
    }
    if op.InsertRow? && !Violates(s.db.rows, pc.candidate, pc.request) {
      InsertKeepsConsistent(s.db, pc.candidate, pc.request, pc.now);
      WriteStep(s, a, Stored(pc.candidate, pc.request), pc.candidate, NewRow(pc.candidate, pc.request, pc.now));
    } else {
      LocalStep(s, s', a, s'.actors[a]);
    }
  }

  lemma NotAlsoHeld(s: State, a: ActorId, b: ActorId, id: RequestId)
    requires Inv(s) && a in s.actors && b in s.actors && a != b && Grip(s.actors[a]) == Some(id)
    ensures Grip(s.actors[b]) != Some(id) && !Holds(s.actors[b], id)
  {
    assert Grip(s.actors[b]) != Grip(s.actors[a]);
  }

  /** A row locked by one transaction is not in the grip of anyone else. */
  lemma FreeRow(s: State, a: ActorId, id: RequestId)
    requires Inv(s) && a in s.actors && id in s.db.rows && !s.db.rows[id].status.Running?
    requires Unlocked(s, a, id)
    ensures forall b :: b in s.actors && b != a ==> Grip(s.actors[b]) != Some(id)
  {
    forall b | b in s.actors && b != a ensures Grip(s.actors[b]) != Some(id) {
      assert PcOk(s.db, s.used, s.actors[b]);
    }
  }

  lemma ReplayStep(cfg: Config, s: State, a: ActorId, op: ReplayOp)
    requires Inv(s) && a in s.actors && CanReplay(cfg, s, a, s.actors[a], op)
    ensures Inv(DoReplay(cfg, s, a, s.actors[a], op))
  {
    var pc, s' := s.actors[a], DoReplay(cfg, s, a, s.actors[a], op);
    assert PcOk(s.db, s.used, pc);
    if op.CommitReplay? {
      RequeueConsistentIff(s.db, pc.seen.id, pc.now);
      WriteStep(s, a, Requeued(pc.seen.id), pc.seen.id, RequeuedRow(pc.seen, pc.now));
    } else {
      if s'.actors[a].Replaying? {
        assert RowOk(s.db, pc.id);
        FreeRow(s, a, pc.id);
      }
      LocalStep(s, s', a, s'.actors[a]);
    }
  }

  lemma CommitClaimStep(cfg: Config, s: State, a: ActorId)
    requires Inv(s) && a in s.actors && s.actors[a].Claiming?
    ensures Inv(DoClaim(cfg, s, a, s.actors[a], CommitClaim))
  {
    var pc := s.actors[a];
    assert PcOk(s.db, s.used, pc);
    ClaimConsistentIff(s.db, pc.seen.id, pc.now);
    WriteStep(s, a, Holding(HoldFrom(pc.seen, pc.now)), pc.seen.id, Claimed(pc.seen, pc.seen.attemptCount, pc.now));
  }

  lemma ClaimStep(cfg: Config, s: State, a: ActorId, op: ClaimOp)
    requires Inv(s) && a in s.actors && CanClaim(cfg, s, a, s.actors[a], op)
    ensures Inv(DoClaim(cfg, s, a, s.actors[a], op))
  {
    hide Consistent;
    if op.CommitClaim? {
      CommitClaimStep(cfg, s, a);
    } else {
      var pc, s' := s.actors[a], DoClaim(cfg, s, a, s.actors[a], op);
      if s'.actors[a].Claiming? {
        var id := if op.Pick? then op.id else pc.id;
        assert s'.actors[a] == Claiming(s.db.rows[id], pc.now);
        RowIdOk(s.db, id);
        FreeRow(s, a, id);
      }
      LocalStep(s, s', a, s'.actors[a]);
    }
  }

  lemma RowIdOk(db: Db, id: RequestId)
    requires Consistent(db) && id in db.rows
    ensures db.rows[id].id == id
  {
    assert RowOk(db, id);
  }

  lemma FinishStep(cfg: Config, s: State, a: ActorId, op: WorkOp)
    requires Inv(s) && a in s.actors && CanWork(s.actors[a], op)
    requires op.CommitSuccess? || op.CommitFailure?
    ensures Inv(DoWork(cfg, s, a, s.actors[a], op))
  {
    var pc := s.actors[a];
    assert PcOk(s.db, s.used, pc);
    var id, row := pc.hold.id, s.db.rows[pc.hold.id];
    if op.CommitSuccess? {
      CompleteConsistentIff(s.db, id, Outcome(pc.text), op.now);
      WriteStep(s, a, Idle, id, WithStatus(row, Completed, Outcome(pc.text), op.now));
    } else {
      FailConsistentIff(s.db, id, pc.cause, pc.delay, op.now);
      WriteStep(s, a, Idle, id, FailedRow(row, pc.attempt, pc.budget, pc.cause, pc.delay, op.now));
    }
  }

  predicate KeepsTables(s: State, s': State) {
    s'.db == s.db && s'.used == s.used && s'.published == s.published
  }

  /** A worker on its way keeps its claim and leaves the tables alone. */
  lemma ExecuteKeepsHold(cfg: Config, s: State, a: ActorId, op: WorkOp)
    requires a in s.actors && PcOk(s.db, s.used, s.actors[a]) && CanWork(s.actors[a], op)
    requires op.CheckCooldown? || op.ComputeDelay? || op.Succeed? || op.Raise?
    ensures var s' := DoWork(cfg, s, a, s.actors[a], op);
            && KeepsTables(s, s') && a in s'.actors && PcOk(s.db, s.used, s'.actors[a])
            && HoldOf(s.actors[a]).Some? && HoldOf(s'.actors[a]) == HoldOf(s.actors[a])
  {
    hide HoldOk;
  }

  lemma RetryKeepsHold(cfg: Config, s: State, a: ActorId, op: WorkOp)
    requires a in s.actors && PcOk(s.db, s.used, s.actors[a]) && CanWork(s.actors[a], op)
    requires op.PlanRetry? || op.ReadAttempts?
    ensures var s' := DoWork(cfg, s, a, s.actors[a], op);
            && KeepsTables(s, s') && a in s'.actors && PcOk(s.db, s.used, s'.actors[a])
            && HoldOf(s.actors[a]).Some? && HoldOf(s'.actors[a]) == HoldOf(s.actors[a])
  {
  }

  lemma WorkStep(cfg: Config, s: State, a: ActorId, op: WorkOp)
    requires Inv(s) && a in s.actors && CanWork(s.actors[a], op)
    ensures Inv(DoWork(cfg, s, a, s.actors[a], op))
  {
    hide Consistent, DoWork, HoldOk;
    if op.CommitSuccess? || op.CommitFailure? {
      FinishStep(cfg, s, a, op);
    } else {
      var s' := DoWork(cfg, s, a, s.actors[a], op);
      assert PcOk(s.db, s.used, s.actors[a]);
      if op.PlanRetry? || op.ReadAttempts? {
        RetryKeepsHold(cfg, s, a, op);
      } else {
        ExecuteKeepsHold(cfg, s, a, op);
      }
      WorkShape(cfg, s, a, s.actors[a], op);
      LocalStep(s, s', a, s'.actors[a]);
    }
  }

  lemma CrashStep(s: State, a: ActorId)
    requires Inv(s) && a in s.actors
    ensures Inv(With(s, a, Crashed(HoldOf(s.actors[a]))))
  {
    assert PcOk(s.db, s.used, s.actors[a]);
    LocalStep(s, With(s, a, Crashed(HoldOf(s.actors[a]))), a, Crashed(HoldOf(s.actors[a])));
  }

  /** Every step of every actor, and every disturbance of the broker, preserves the invariant. */
  lemma StepInv(cfg: Config, s: State, l: Label)
    requires Inv(s) && Enabled(cfg, s, l)
    ensures Inv(Apply(cfg, s, l))
  {
    match l
    case Submitter(a, op) => SubmitStep(cfg, s, a, op);
    case Operator(a, op) => ReplayStep(cfg, s, a, op);
    case Claimer(a, op) => ClaimStep(cfg, s, a, op);
    case Worker(a, op) => WorkStep(cfg, s, a, op);
    case Crash(a) => CrashStep(s, a);
    case Disturb(_) =>
  }

  /** The invariant holds in every state of every run. */
  lemma {:induction false} ReachableInv(cfg: Config, r: Run, i: nat)
    requires r.Valid(cfg) && i < |r.states|
    ensures Inv(r.states[i])
  {
    if i == 0 {
      InitialInv(r.states[0]);
    } else {
      ReachableInv(cfg, r, i - 1);
      StepInv(cfg, r.states[i - 1], r.labels[i - 1]);
    }
  }
}
