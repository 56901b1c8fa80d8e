/**
 Concrete paths through the protocol: a submission, a replay, and one worker's undisturbed turn, which
 ties the imperative worker to the state machine.
 */
module Turns {
  import opened Models
  import opened Tables
  import opened Protocol
  import opened Timing
  import opened Adapters
  import W = Worker
  import Backoff

  /** Some run of the protocol starts in `s` and ends in `s'` and keeps to the script. */
  ghost predicate Leads(cfg: Config, script: Script, s: State, s': State) {
    exists r: Run :: IsPath(cfg, script, r, s, s')
  }

  ghost predicate IsPath(cfg: Config, script: Script, r: Run, s: State, s': State) {
    && r.Steps(cfg) && r.states[0] == s && r.states[|r.labels|] == s'
    && forall i {:trigger r.labels[i]} :: 0 <= i < |r.labels| ==> Follows(r.labels[i], script)
  }

  /** What the labels of a path may say: anything, one clock reading throughout, or only what a turn says. */
  datatype Script = Anything | AllAt(now: int) | TurnOf(actor: ActorId, turn: W.Turn)

  predicate Follows(l: Label, script: Script) {
    match script
    case Anything => true
    case AllAt(now) => Reads(l, now)
    case TurnOf(a, turn) => IsOfTurn(l, a, turn)
  }

  /** A step of worker `a` with the clock readings, the draw and the adapter's answer that the turn has for it. */
  predicate IsOfTurn(l: Label, a: ActorId, turn: W.Turn) {
    match l
    case Claimer(b, Consume(now)) => b == a && (now == turn.targetNow || now == turn.pollNow)
    case Claimer(b, Poll(now)) => b == a && now == turn.pollNow
    case Claimer(b, _) => b == a
    case Worker(b, CheckCooldown(clock)) => b == a && clock == turn.checkClock
    case Worker(b, ComputeDelay(clock)) => b == a && clock == turn.delayClock
    case Worker(b, Succeed(text)) => b == a && turn.outcome == Success(text)
    case Worker(b, Raise(hint, cause)) => b == a && turn.outcome == Failure(hint, cause)
    case Worker(b, PlanRetry(random, clock)) => b == a && random == turn.random && clock == turn.planClock
    case Worker(b, ReadAttempts) => b == a
    case Worker(b, CommitSuccess(now)) => b == a && now == turn.finishNow
    case Worker(b, CommitFailure(now)) => b == a && now == turn.finishNow
    case _ => false
  }

  ghost predicate Permits(script: Script, a: ActorId, turn: W.Turn) {
    forall l {:trigger Follows(l, script)} :: IsOfTurn(l, a, turn) ==> Follows(l, script)
  }

  predicate Shows(script: Script, now: int) {
    script.Anything? || script == AllAt(now)
  }

  lemma Stay(cfg: Config, script: Script, s: State)
    ensures Leads(cfg, script, s, s)
  {
    assert IsPath(cfg, script, Run([s], []), s, s);
  }

  /** One more step at the end of a path. */
  lemma Move(cfg: Config, script: Script, s0: State, s: State, l: Label)
    requires Leads(cfg, script, s0, s) && Enabled(cfg, s, l) && Follows(l, script)
    ensures Leads(cfg, script, s0, Apply(cfg, s, l))
  {
    var r: Run :| IsPath(cfg, script, r, s0, s);
    var longer := Run(r.states + [Apply(cfg, s, l)], r.labels + [l]);
    forall i | 0 <= i < |longer.labels|
      ensures Follows(longer.labels[i], script) && Enabled(cfg, longer.states[i], longer.labels[i])
              && longer.states[i + 1] == Apply(cfg, longer.states[i], longer.labels[i])
    {
      if i < |r.labels| {
        assert longer.labels[i] == r.labels[i] && longer.states[i] == r.states[i]
               && longer.states[i + 1] == r.states[i + 1];
      }
    }
    assert IsPath(cfg, script, longer, s0, Apply(cfg, s, l));
  }

  lemma {:induction false} JoinTo(cfg: Config, script: Script, s0: State, s1: State, r: Run, i: nat)
    requires Leads(cfg, script, s0, s1) && i <= |r.labels| && |r.states| == |r.labels| + 1
    requires IsPath(cfg, script, r, s1, r.states[|r.labels|])
    ensures Leads(cfg, script, s0, r.states[i])
  {
    hide Leads;
    if i > 0 {
      JoinTo(cfg, script, s0, s1, r, i - 1);
      assert Follows(r.labels[i - 1], script);
      Move(cfg, script, s0, r.states[i - 1], r.labels[i - 1]);
    }
  }

  lemma Join(cfg: Config, script: Script, s0: State, s1: State, s2: State)
    requires Leads(cfg, script, s0, s1) && Leads(cfg, script, s1, s2)
    ensures Leads(cfg, script, s0, s2)
  {
    var r: Run :| IsPath(cfg, script, r, s1, s2);
    JoinTo(cfg, script, s0, s1, r, |r.labels|);
  }

  /** No transaction of anyone else holds a lock. */
  ghost predicate Quiet(s: State, a: ActorId) {
    forall b :: b in s.actors && b != a ==> LockOf(s.actors[b]).None?
  }

  /** What a turn of worker `a` may claim when no one holds a lock: see `Worker.Takes`. */
  ghost predicate Takes(cfg: Config, s: State, id: RequestId, at: Instant, turn: W.Turn) {
    W.Takes(cfg.brokered, s.broker, s.db.rows, id, at, turn) && s.db.rows[id].id == id
  }

  function Popped(cfg: Config, s: State): State {
    s.(broker := W.Popped(cfg.brokered, s.broker))
  }

  /** The state of a worker that has just claimed `id`. */
  ghost function ClaimedState(cfg: Config, s: State, a: ActorId, id: RequestId, at: Instant): State
    requires id in s.db.rows
  {
    var row := s.db.rows[id];
    With(Popped(cfg, s), a, Holding(HoldFrom(row, at))).(db := Put(s.db, id, Claimed(row, row.attemptCount, at)))
  }

  /** The start of a turn: a message whose row can be claimed leads to its claim, anything else to polling. */
  lemma StartPath(cfg: Config, script: Script, s0: State, s: State, a: ActorId, turn: W.Turn)
    requires Permits(script, a, turn)
    requires Leads(cfg, script, s0, s) && a in s.actors && s.actors[a].Idle? && Quiet(s, a)
    ensures var s' := Popped(cfg, s);
            if cfg.brokered && s.broker != [] && Takeable(s.db.rows, {}, s.broker[0], turn.targetNow)
            then Leads(cfg, script, s0, With(s', a, Claiming(s.db.rows[s.broker[0]], turn.targetNow)))
            else Leads(cfg, script, s0, With(s', a, Polling(turn.pollNow)))
  {
    hide Leads;
    var s' := Popped(cfg, s);
    if !cfg.brokered {
      Move(cfg, script, s0, s, Claimer(a, Poll(turn.pollNow)));
    } else if s.broker == [] {
      Move(cfg, script, s0, s, Claimer(a, Consume(turn.pollNow)));
    } else {
      Move(cfg, script, s0, s, Claimer(a, Consume(turn.targetNow)));
      var targeting := With(s', a, Targeting(s.broker[0], turn.targetNow));
      assert Apply(cfg, s, Claimer(a, Consume(turn.targetNow))) == targeting;
      assert LockedByOthers(targeting, a) == {};
      Move(cfg, script, s0, targeting, Claimer(a, Target));
      if !Takeable(s.db.rows, {}, s.broker[0], turn.targetNow) {
        var missed := With(s', a, Missed);
        assert targeting.actors[a := Missed] == missed.actors;
        Move(cfg, script, s0, missed, Claimer(a, Poll(turn.pollNow)));
        assert missed.actors[a := Polling(turn.pollNow)] == s.actors[a := Polling(turn.pollNow)];
      }
      assert forall row :: targeting.actors[a := Claiming(row, turn.targetNow)]
                           == s.actors[a := Claiming(row, turn.targetNow)];
    }
  }

  /** Consume or poll, then lock the row. */
  lemma LockPath(
    cfg: Config, script: Script, s0: State, s: State, a: ActorId, id: RequestId, at: Instant, turn: W.Turn)
    requires Permits(script, a, turn)
    requires Leads(cfg, script, s0, s) && a in s.actors && s.actors[a].Idle? && Quiet(s, a)
             && Takes(cfg, s, id, at, turn)
    ensures Leads(cfg, script, s0, With(Popped(cfg, s), a, Claiming(s.db.rows[id], at)))
  {
    hide Leads;
    StartPath(cfg, script, s0, s, a, turn);
    var s' := Popped(cfg, s);
    if !(cfg.brokered && s.broker != [] && Takeable(s.db.rows, {}, s.broker[0], turn.targetNow)) {
      var polling := With(s', a, Polling(at));
      assert LockedByOthers(polling, a) == {};
      Move(cfg, script, s0, polling, Claimer(a, Pick(id)));
      assert polling.actors[a := Claiming(s.db.rows[id], at)] == s.actors[a := Claiming(s.db.rows[id], at)];
    }
  }

  /** The same, and commit the claim. */
  lemma ClaimPath(
    cfg: Config, script: Script, s0: State, s: State, a: ActorId, id: RequestId, at: Instant, turn: W.Turn)
    requires Permits(script, a, turn)
    requires Leads(cfg, script, s0, s) && a in s.actors && s.actors[a].Idle? && Quiet(s, a)
             && Takes(cfg, s, id, at, turn)
    ensures Leads(cfg, script, s0, ClaimedState(cfg, s, a, id, at))
  {
    hide Leads;
    LockPath(cfg, script, s0, s, a, id, at, turn);
    var claiming := With(Popped(cfg, s), a, Claiming(s.db.rows[id], at));
    Move(cfg, script, s0, claiming, Claimer(a, CommitClaim));
    assert claiming.actors[a := Holding(HoldFrom(s.db.rows[id], at))] == ClaimedState(cfg, s, a, id, at).actors;
  }

  /** The state after a turn's finish: the worker idle, the held row rewritten, the cooldowns as given. */
  function FinishedState(s: State, a: ActorId, row: Row, cooldowns: map<(ActorId, string), int>): State {
    With(s, a, Idle).(db := Put(s.db, row.id, row), cooldowns := cooldowns)
  }

  /** The two steps of `fail_or_retry` on the row the worker holds. */
  lemma FailPath(
    cfg: Config, script: Script, s0: State, s: State, a: ActorId, hold: Hold, delay: int, cause: string,
    now: Instant)
    requires Follows(Worker(a, ReadAttempts), script) && Follows(Worker(a, CommitFailure(now)), script)
    requires Leads(cfg, script, s0, s) && a in s.actors && s.actors[a] == Failing(hold, delay, cause)
    requires hold.id in s.db.rows && s.db.rows[hold.id].id == hold.id
    ensures var row := s.db.rows[hold.id];
            var row' := FailedRow(row, row.attemptCount, row.fields.maxAttempts, cause, delay, now);
            Leads(cfg, script, s0, FinishedState(s, a, row', s.cooldowns))
  {
    hide Leads;
    var row := s.db.rows[hold.id];
    Move(cfg, script, s0, s, Worker(a, ReadAttempts));
    var read := With(s, a, FailRead(hold, delay, cause, row.attemptCount, row.fields.maxAttempts));
    Move(cfg, script, s0, read, Worker(a, CommitFailure(now)));
    assert read.actors[a := Idle] == s.actors[a := Idle];
  }

  /** The worker's own view of its cooldown map is the protocol's map at its own key. */
  ghost predicate SameCooldowns(s: State, a: ActorId, cooldowns: W.Cooldowns) {
    forall target :: Until(s, a, target) == W.DeadlineOf(cooldowns, target)
  }

  /** From a claim to the end of the turn, in the protocol's terms. */
  ghost function CooledState(s: State, a: ActorId, hold: Hold, turn: W.Turn): map<(ActorId, string), int> {
    if Until(s, a, hold.target) > turn.checkClock then s.cooldowns
    else
      match turn.outcome
      case Success(_) => s.cooldowns - {(a, hold.target)}
      case Failure(hint, _) =>
        if hint.Some? then s.cooldowns[(a, hold.target) := turn.planClock + Seconds(hint.value)] else s.cooldowns
  }

  lemma DeferralPath(
    cfg: Config, script: Script, s0: State, s: State, a: ActorId, hold: Hold, turn: W.Turn, until: int)
    requires Permits(script, a, turn)
    requires Leads(cfg, script, s0, s) && a in s.actors && s.actors[a] == Deferring(hold, until)
    requires hold.id in s.db.rows && s.db.rows[hold.id].id == hold.id
    ensures var row := s.db.rows[hold.id];
            var row' := FailedRow(row, row.attemptCount, row.fields.maxAttempts, "cooling down",
                                  DeferSeconds(until, turn.delayClock), turn.finishNow);
            Leads(cfg, script, s0, FinishedState(s, a, row', s.cooldowns))
  {
    hide Leads;
    var failing := With(s, a, Failing(hold, DeferSeconds(until, turn.delayClock), "cooling down"));
    Move(cfg, script, s0, s, Worker(a, ComputeDelay(turn.delayClock)));
    FailPath(cfg, script, s0, failing, a, hold, DeferSeconds(until, turn.delayClock), "cooling down", turn.finishNow);
    assert failing.actors[a := Idle] == s.actors[a := Idle];
  }

  lemma SuccessPath(
    cfg: Config, script: Script, s0: State, s: State, a: ActorId, hold: Hold, turn: W.Turn, text: string)
    requires Permits(script, a, turn) && turn.outcome == Success(text)
    requires Leads(cfg, script, s0, s) && a in s.actors && s.actors[a] == Executing(hold)
    requires hold.id in s.db.rows && s.db.rows[hold.id].id == hold.id
    ensures var row' := WithStatus(s.db.rows[hold.id], Completed, Outcome(text), turn.finishNow);
            Leads(cfg, script, s0, FinishedState(s, a, row',
                                         s.cooldowns - {(a, hold.target)}))
  {
    hide Leads;
    Move(cfg, script, s0, s, Worker(a, Succeed(text)));
    var succeeding := With(s, a, Succeeding(hold, text)).(cooldowns := s.cooldowns - {(a, hold.target)});
    Move(cfg, script, s0, succeeding, Worker(a, CommitSuccess(turn.finishNow)));
    assert succeeding.actors[a := Idle] == s.actors[a := Idle];
  }

  /** The state in which the delay of a failed call is decided. */
  ghost function PlannedState(
    cfg: Config, s: State, a: ActorId, hold: Hold, turn: W.Turn, hint: Option<nat>, cause: string)
    : State
    requires hold.id in s.db.rows
  {
    var attempt := s.db.rows[hold.id].attemptCount;
    var delay := if hint.Some? then hint.value else Backoff.Delay(cfg.policy, attempt, turn.random);
    With(s, a, Failing(hold, delay, cause)).(cooldowns :=
      if hint.Some? then s.cooldowns[(a, hold.target) := turn.planClock + Seconds(hint.value)] else s.cooldowns)
  }

  lemma PlanPath(
    cfg: Config, script: Script, s0: State, s: State, a: ActorId, hold: Hold, turn: W.Turn,
    hint: Option<nat>, cause: string)
    requires Permits(script, a, turn) && turn.outcome == Failure(hint, cause)
    requires Leads(cfg, script, s0, s) && a in s.actors && s.actors[a] == Executing(hold)
    requires hold.id in s.db.rows && 0.0 <= turn.random < 1.0
    ensures Leads(cfg, script, s0, PlannedState(cfg, s, a, hold, turn, hint, cause))
  {
    hide Leads, Backoff.Delay;
    Move(cfg, script, s0, s, Worker(a, Raise(hint, cause)));
    var raised, planned := With(s, a, Raised(hold, hint, cause)), PlannedState(cfg, s, a, hold, turn, hint, cause);
    assert raised.actors[a := planned.actors[a]] == planned.actors;
    Move(cfg, script, s0, raised, Worker(a, PlanRetry(turn.random, turn.planClock)));
  }

  lemma FailurePath(
    cfg: Config, script: Script, s0: State, s: State, a: ActorId, hold: Hold, turn: W.Turn,
    hint: Option<nat>, cause: string)
    requires Permits(script, a, turn) && turn.outcome == Failure(hint, cause)
    requires Leads(cfg, script, s0, s) && a in s.actors && s.actors[a] == Executing(hold)
    requires hold.id in s.db.rows && s.db.rows[hold.id].id == hold.id && 0.0 <= turn.random < 1.0
    ensures var row, planned := s.db.rows[hold.id], PlannedState(cfg, s, a, hold, turn, hint, cause);
            var row' := FailedRow(row, row.attemptCount, row.fields.maxAttempts, cause,
                                  planned.actors[a].delay, turn.finishNow);
            Leads(cfg, script, s0, FinishedState(s, a, row', planned.cooldowns))
  {
    hide Leads, Backoff.Delay, Enabled, Apply;
    var planned := PlannedState(cfg, s, a, hold, turn, hint, cause);
    PlanPath(cfg, script, s0, s, a, hold, turn, hint, cause);
    FailPath(cfg, script, s0, planned, a, hold, planned.actors[a].delay, cause, turn.finishNow);
    assert planned.actors[a := Idle] == s.actors[a := Idle];
  }

  lemma FinishPath(
    cfg: Config, script: Script, s0: State, s: State, a: ActorId, hold: Hold, cooldowns: W.Cooldowns, turn: W.Turn)
    requires Permits(script, a, turn)
    requires Leads(cfg, script, s0, s) && a in s.actors && s.actors[a] == Holding(hold)
    requires hold.id in s.db.rows && s.db.rows[hold.id].id == hold.id && hold.target == s.db.rows[hold.id].fields.target
    requires SameCooldowns(s, a, cooldowns) && 0.0 <= turn.random < 1.0
    ensures var row' := W.Finished(cfg.policy, cooldowns, s.db.rows[hold.id], turn);
            Leads(cfg, script, s0, FinishedState(s, a, row', CooledState(s, a, hold, turn)))
  {
    hide Leads;
    var until := Until(s, a, hold.target);
    assert until == W.DeadlineOf(cooldowns, hold.target);
    Move(cfg, script, s0, s, Worker(a, CheckCooldown(turn.checkClock)));
    if until > turn.checkClock {
      var deferring := With(s, a, Deferring(hold, until));
      DeferralPath(cfg, script, s0, deferring, a, hold, turn, until);
      assert deferring.actors[a := Idle] == s.actors[a := Idle];
    } else {
      var executing := With(s, a, Executing(hold));
      assert executing.actors[a := Idle] == s.actors[a := Idle];
      match turn.outcome
      case Success(text) => SuccessPath(cfg, script, s0, executing, a, hold, turn, text);
      case Failure(hint, cause) => FailurePath(cfg, script, s0, executing, a, hold, turn, hint, cause);
    }
  }

  lemma CooledAlike(s: State, s': State, a: ActorId, hold: Hold, cooldowns: W.Cooldowns, turn: W.Turn)
    requires SameCooldowns(s, a, cooldowns) && s'.cooldowns == CooledState(s, a, hold, turn)
    ensures SameCooldowns(s', a, W.Cooled(cooldowns, hold.target, turn))
  {
    assert Until(s, a, hold.target) == W.DeadlineOf(cooldowns, hold.target);
    forall target ensures Until(s', a, target) == W.DeadlineOf(W.Cooled(cooldowns, hold.target, turn), target) {
      assert Until(s, a, target) == W.DeadlineOf(cooldowns, target);
    }
  }

  /** The path of a turn, for any script that permits its steps. */
  lemma TurnPath(
    cfg: Config, script: Script, s: State, a: ActorId, id: RequestId, at: Instant, cooldowns: W.Cooldowns,
    turn: W.Turn)
    returns (s': State)
    requires Permits(script, a, turn)
    requires a in s.actors && s.actors[a].Idle? && Quiet(s, a) && Takes(cfg, s, id, at, turn)
    requires SameCooldowns(s, a, cooldowns) && 0.0 <= turn.random < 1.0
    ensures Leads(cfg, script, s, s') && s'.actors == s.actors
    ensures s'.db == W.AfterTurn(cfg.policy, cooldowns, s.db, id, at, turn)
    ensures SameCooldowns(s', a, W.Cooled(cooldowns, s.db.rows[id].fields.target, turn))
    ensures s'.broker == W.Popped(cfg.brokered, s.broker)
  {
    hide Leads;
    var held := ClaimedState(cfg, s, a, id, at);
    var hold := HoldFrom(s.db.rows[id], at);
    Stay(cfg, script, s);
    ClaimPath(cfg, script, s, s, a, id, at, turn);
    forall target ensures Until(held, a, target) == W.DeadlineOf(cooldowns, target) {
      assert Until(s, a, target) == W.DeadlineOf(cooldowns, target);
    }
    FinishPath(cfg, script, s, held, a, hold, cooldowns, turn);
    s' := FinishedState(held, a, W.Finished(cfg.policy, cooldowns, held.db.rows[id], turn),
                        CooledState(held, a, hold, turn));
    CooledAlike(held, s', a, hold, cooldowns, turn);
    assert held.actors[a := Idle] == s.actors;
  }

  lemma PathOf(cfg: Config, script: Script, s: State, s': State) returns (r: Run)
    requires Leads(cfg, script, s, s')
    ensures IsPath(cfg, script, r, s, s')
  {
    r :| IsPath(cfg, script, r, s, s');
  }

  /**
   The imperative turn is a path of the protocol, under either lock discipline and either dispatch: an
   idle worker that no open transaction blocks can take the steps of its turn, each with the readings, the
   draw and the answer that the turn has for it, and ends with exactly the tables, cooldowns and broker
   list of `RunOnce`.
   */
  lemma TurnIsAPath(
    cfg: Config, s: State, a: ActorId, id: RequestId, at: Instant, cooldowns: W.Cooldowns, turn: W.Turn)
    returns (r: Run)
    requires a in s.actors && s.actors[a].Idle? && Quiet(s, a) && Takes(cfg, s, id, at, turn)
    requires SameCooldowns(s, a, cooldowns) && 0.0 <= turn.random < 1.0
    ensures r.Steps(cfg) && r.states[0] == s
    ensures forall i {:trigger r.labels[i]} :: 0 <= i < |r.labels| ==> IsOfTurn(r.labels[i], a, turn)
    ensures var s' := r.states[|r.labels|];
            && s'.actors == s.actors
            && s'.db == W.AfterTurn(cfg.policy, cooldowns, s.db, id, at, turn)
            && SameCooldowns(s', a, W.Cooled(cooldowns, s.db.rows[id].fields.target, turn))
            && s'.broker == W.Popped(cfg.brokered, s.broker)
  {
    hide Leads, Permits, W.AfterTurn, W.Cooled;
    PermitsItself(a, turn);
    var s' := TurnPath(cfg, TurnOf(a, turn), s, a, id, at, cooldowns, turn);
    r := PathOf(cfg, TurnOf(a, turn), s, s');
    assert forall i {:trigger r.labels[i]} :: 0 <= i < |r.labels| ==> Follows(r.labels[i], TurnOf(a, turn));
  }

  lemma PermitsItself(a: ActorId, turn: W.Turn)
    ensures Permits(TurnOf(a, turn), a, turn)
  {
  }

  /** A turn without work is a path too: it ends where it began, less the message it consumed. */
  lemma IdleTurnIsAPath(cfg: Config, script: Script, s: State, a: ActorId, turn: W.Turn)
    requires Permits(script, a, turn)
    requires a in s.actors && s.actors[a].Idle? && Quiet(s, a)
    requires forall id, at :: !W.Takes(cfg.brokered, s.broker, s.db.rows, id, at, turn)
    ensures Leads(cfg, script, s, Popped(cfg, s))
  {
    hide Leads;
    Stay(cfg, script, s);
    StartPath(cfg, script, s, s, a, turn);
    var s' := Popped(cfg, s);
    var polling := With(s', a, Polling(turn.pollNow));
    var head := if s.broker != [] then s.broker[0] else "";
    assert !W.Takes(cfg.brokered, s.broker, s.db.rows, head, turn.targetNow, turn);
    forall id ensures !Claimable(polling, a, id, turn.pollNow) {
      if Claimable(polling, a, id, turn.pollNow) {
        W.SomethingIsTaken(cfg.brokered, s.broker, s.db.rows, turn, id);
      }
    }
    Move(cfg, script, s, polling, Claimer(a, FindNothing));
    assert polling.actors[a := Idle] == s.actors;
  }

  /** Begin, insert, publish, read back: a submitter without a key adds a row. */
  lemma SubmitPath(
    cfg: Config, script: Script, s: State, a: ActorId, id: RequestId, request: AutomationRequest, now: Instant)
    requires Shows(script, now)
    requires a in s.actors && s.actors[a].Idle? && request.idempotencyKey.None? && id !in s.used && id !in s.db.rows
    ensures Leads(cfg, script, s, SubmittedState(cfg, s, id, request, now))
  {
    hide Leads;
    Stay(cfg, script, s);
    Move(cfg, script, s, s, Submitter(a, Begin(request, id, now)));
    var inserting := With(s, a, Inserting(id, request, now)).(used := s.used + {id});
    Move(cfg, script, s, inserting, Submitter(a, InsertRow));
    var stored := With(s, a, Stored(id, request)).(
      db := Put(s.db, id, NewRow(id, request, now)), used := s.used + {id});
    assert inserting.actors[a := Stored(id, request)] == stored.actors;
    Move(cfg, script, s, stored, Submitter(a, Publish));
    var announced := Published(cfg, stored.(actors := s.actors[a := Announced(id)]), id);
    assert stored.actors[a := Announced(id)] == announced.actors;
    Move(cfg, script, s, announced, Submitter(a, ReadBack));
    assert announced.actors[a := Idle] == s.actors;
  }

  function SubmittedState(cfg: Config, s: State, id: RequestId, request: AutomationRequest, now: Instant): State {
    s.(db := Put(s.db, id, NewRow(id, request, now)), used := s.used + {id},
       broker := if cfg.brokered then s.broker + [id] else s.broker,
       published := if cfg.brokered then s.published + {id} else s.published)
  }

  /** Ask, lock, commit, publish: an operator returns a dead letter to the queue. */
  lemma ReplayPath(cfg: Config, script: Script, s: State, a: ActorId, id: RequestId, now: Instant)
    requires Shows(script, now)
    requires a in s.actors && s.actors[a].Idle? && Quiet(s, a)
    requires id in s.db.rows && s.db.rows[id].id == id && s.db.rows[id].status.DeadLetter?
    ensures Leads(cfg, script, s, Published(cfg, s.(db := Put(s.db, id, RequeuedRow(s.db.rows[id], now))), id))
  {
    hide Leads;
    Stay(cfg, script, s);
    Move(cfg, script, s, s, Operator(a, Ask(id, now)));
    var asked := With(s, a, AskedReplay(id, now));
    Move(cfg, script, s, asked, Operator(a, LockLetter));
    var locked := With(s, a, Replaying(s.db.rows[id], now));
    assert asked.actors[a := Replaying(s.db.rows[id], now)] == locked.actors;
    Move(cfg, script, s, locked, Operator(a, CommitReplay));
    var requeued := With(s, a, Requeued(id)).(db := Put(s.db, id, RequeuedRow(s.db.rows[id], now)));
    assert locked.actors[a := Requeued(id)] == requeued.actors;
    Move(cfg, script, s, requeued, Operator(a, Republish));
    assert requeued.actors[a := Idle] == s.actors;
  }
}
