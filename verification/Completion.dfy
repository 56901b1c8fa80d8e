/**
 When a queue can be drained: exactly when no worker crashed while it held a claim. There is no lease, so the
 row of a crashed holder stays RUNNING for ever; everything else can be finished from any reachable state.
 */
module Completion {
  import opened Models
  import opened Tables
  import opened Metrics
  import opened Protocol
  import opened Invariant
  import opened Claims
  import opened Timing
  import opened Turns
  import opened Histories
  import W = Worker

  ghost predicate Drained(db: Db) {
    forall id :: id in db.rows ==> db.rows[id].status.Completed? || db.rows[id].status.DeadLetter?
  }

  ghost predicate CrashedHolder(s: State) {
    exists a :: a in s.actors && s.actors[a].Crashed? && s.actors[a].lost.Some?
  }

  // ----- Open transactions can commit

  ghost function Lockers(s: State): set<ActorId> {
    set a | a in s.actors && LockOf(s.actors[a]).Some?
  }

  function CommitOf(a: ActorId, pc: Pc): Label {
    if pc.Claiming? then Claimer(a, CommitClaim) else Operator(a, CommitReplay)
  }

  lemma CommitUnlocks(cfg: Config, s: State, a: ActorId)
    requires Inv(s) && a in Lockers(s)
    ensures Enabled(cfg, s, CommitOf(a, s.actors[a]))
    ensures var s' := Apply(cfg, s, CommitOf(a, s.actors[a]));
            && a in s'.actors && s'.actors == s.actors[a := s'.actors[a]]
            && LockOf(s'.actors[a]).None? && !s'.actors[a].Crashed?
  {
    assert PcOk(s.db, s.used, s.actors[a]);
  }

  lemma {:induction false} CommitAll(cfg: Config, h: History, a: ActorId, now: int) returns (h': History)
    requires h.Valid(cfg) && h.NotAfter(now) && !CrashedHolder(h.Last())
    requires a in h.Last().actors && h.Last().actors[a].Idle?
    ensures h'.Valid(cfg) && h'.NotAfter(now) && h.Begins(h') && NoLocks(h'.Last()) && !CrashedHolder(h'.Last())
    ensures a in h'.Last().actors && h'.Last().actors[a].Idle?
    decreases Lockers(h.Last())
  {
    hide OnClock, Apply, Enabled, Inv;
    var s := h.Last();
    h' := h;
    if b :| b in Lockers(s) {
      ReachableInv(cfg, h.run, |h.run.labels|);
      CommitUnlocks(cfg, s, b);
      h' := Append(cfg, h, CommitOf(b, s.actors[b]), now);
      assert Lockers(h'.Last()) == Lockers(s) - {b};
      h' := CommitAll(cfg, h', a, now);
    } else {
      forall b | b in s.actors ensures LockOf(s.actors[b]).None? {
        assert b !in Lockers(s);
      }
    }
  }

  // ----- Live holders can finish

  predicate LiveHolder(pc: Pc) {
    HoldOf(pc).Some? && !pc.Crashed?
  }

  /** How far a holder is from the end of its turn. */
  function StepsLeft(pc: Pc): nat {
    match pc
    case Holding(_) => 5
    case Executing(_) => 4
    case Deferring(_, _) => 4
    case Raised(_, _, _) => 3
    case Failing(_, _, _) => 2
    case Succeeding(_, _) => 1
    case FailRead(_, _, _, _, _) => 1
    case _ => 0
  }

  /** A step that brings a holder closer to the end of its turn. */
  function NextWork(pc: Pc, now: int): WorkOp {
    match pc
    case Holding(_) => CheckCooldown(now)
    case Executing(_) => Succeed("")
    case Deferring(_, _) => ComputeDelay(now)
    case Raised(_, _, _) => PlanRetry(0.0, now)
    case Failing(_, _, _) => ReadAttempts
    case Succeeding(_, _) => CommitSuccess(now)
    case _ => CommitFailure(now)
  }

  lemma NextWorkAdvances(cfg: Config, s: State, a: ActorId, now: int)
    requires Inv(s) && a in s.actors && LiveHolder(s.actors[a])
    ensures CanWork(s.actors[a], NextWork(s.actors[a], now))
    ensures var s' := DoWork(cfg, s, a, s.actors[a], NextWork(s.actors[a], now));
            && a in s'.actors
            && if StepsLeft(s.actors[a]) == 1 then s'.actors[a].Idle?
               else LiveHolder(s'.actors[a]) && StepsLeft(s'.actors[a]) < StepsLeft(s.actors[a])
  {
    assert PcOk(s.db, s.used, s.actors[a]);
  }

  lemma {:induction false} FinishHolder(cfg: Config, h: History, a: ActorId, now: int) returns (h': History)
    requires h.Valid(cfg) && h.NotAfter(now) && a in h.Last().actors && LiveHolder(h.Last().actors[a])
    ensures h'.Valid(cfg) && h'.NotAfter(now) && h.Begins(h')
    ensures h'.Last().actors == h.Last().actors[a := Idle]
    decreases StepsLeft(h.Last().actors[a])
  {
    hide DoWork, Inv, OnClock;
    var s := h.Last();
    var op := NextWork(s.actors[a], now);
    ReachableInv(cfg, h.run, |h.run.labels|);
    NextWorkAdvances(cfg, s, a, now);
    StepShape(cfg, s, Worker(a, op));
    h' := Append(cfg, h, Worker(a, op), now);
    if StepsLeft(s.actors[a]) != 1 {
      h' := FinishHolder(cfg, h', a, now);
    }
  }

  ghost function LiveHolders(s: State): set<ActorId> {
    set a | a in s.actors && LiveHolder(s.actors[a])
  }

  lemma {:induction false} FinishHolders(cfg: Config, h: History, a: ActorId, now: int) returns (h': History)
    requires h.Valid(cfg) && h.NotAfter(now) && NoLocks(h.Last()) && !CrashedHolder(h.Last())
    requires a in h.Last().actors && h.Last().actors[a].Idle?
    ensures h'.Valid(cfg) && h'.NotAfter(now) && h.Begins(h') && NoLocks(h'.Last())
    ensures a in h'.Last().actors && h'.Last().actors[a].Idle?
    ensures forall b :: b in h'.Last().actors ==> HoldOf(h'.Last().actors[b]).None?
    decreases LiveHolders(h.Last())
  {
    hide OnClock, Apply, Enabled;
    h' := h;
    if b :| b in LiveHolders(h.Last()) {
      h' := FinishHolder(cfg, h, b, now);
      assert LiveHolders(h'.Last()) == LiveHolders(h.Last()) - {b};
      h' := FinishHolders(cfg, h', a, now);
    } else {
      forall b | b in h.Last().actors ensures HoldOf(h.Last().actors[b]).None? {
        assert b !in LiveHolders(h.Last());
      }
    }
  }

  // ----- Waiting rows can be worked off

  /** Some time not before `now` at which every waiting row is due. */
  lemma AllDueAt(cfg: Config, h: History, now: int) returns (later: int)
    requires h.Valid(cfg)
    ensures later >= now && DueIds(h.Last(), later) == WaitingIds(h.Last().db.rows)
  {
    ReachableInv(cfg, h.run, |h.run.labels|);
    var horizon := W.HorizonExists(h.Last().db, WaitingIds(h.Last().db.rows));
    later := if horizon > now then horizon else now;
  }

  /** One quick turn at a time when every waiting row is due. */
  lemma WorkOffOne(cfg: Config, h: History, initial: Db, a: ActorId, now: int) returns (h': History)
    requires h.Valid(cfg) && h.NotAfter(now) && NoLocks(h.Last()) && W.DrainsFrom(initial, h.Last().db)
    requires a in h.Last().actors && h.Last().actors[a].Idle?
    requires DueIds(h.Last(), now) == WaitingIds(h.Last().db.rows) != {}
    ensures h'.Valid(cfg) && h'.NotAfter(now) && h.Begins(h') && h'.Last().actors == h.Last().actors
    ensures W.DrainsFrom(initial, h'.Last().db)
    ensures 0 <= W.RemainingWork(h'.Last().db) < W.RemainingWork(h.Last().db)
  {
    hide OnClock, Apply, Enabled, Leads, W.AfterTurn, W.Cooled, W.DrainsFrom, W.RemainingWork, Inv;
    var s := h.Last();
    var id :| id in DueIds(s, now);
    var turn := QuickTurn(now);
    W.SomethingIsTaken(cfg.brokered, s.broker, s.db.rows, turn, id);
    var i, at :| W.Takes(cfg.brokered, s.broker, s.db.rows, i, at, turn);
    RowsKnowTheirId(cfg, h, i);
    var cooldowns := OwnCooldowns(s, a);
    QuickTurnPermitted(a, now);
    var s' := TurnPath(cfg, AllAt(now), s, a, i, now, cooldowns, turn);
    ConsistentLast(cfg, h);
    var horizon := W.HorizonExists(s.db, WaitingIds(s.db.rows));
    var later := W.TurnDrains(cfg.policy, cooldowns, initial, s.db, i, now, turn, horizon);
    h' := Follow(cfg, h, now, s');
  }

  lemma ConsistentLast(cfg: Config, h: History)
    requires h.Valid(cfg)
    ensures Consistent(h.Last().db)
  {
    ReachableInv(cfg, h.run, |h.run.labels|);
  }

  lemma {:induction false} WorkOff(cfg: Config, h: History, initial: Db, a: ActorId, now: int) returns (h': History)
    requires h.Valid(cfg) && h.NotAfter(now) && NoLocks(h.Last()) && W.DrainsFrom(initial, h.Last().db)
    requires a in h.Last().actors && h.Last().actors[a].Idle?
    ensures h'.Valid(cfg) && h.Begins(h') && W.DrainsFrom(initial, h'.Last().db)
    ensures WaitingIds(h'.Last().db.rows) == {}
    decreases W.RemainingWork(h.Last().db)
  {
    hide OnClock, Apply, Enabled, W.DrainsFrom, W.RemainingWork, Inv;
    h' := h;
    ConsistentLast(cfg, h);
    W.WorkIsNonNegative(h.Last().db);
    if WaitingIds(h.Last().db.rows) != {} {
      var later := AllDueAt(cfg, h, now);
      h' := WorkOffOne(cfg, h, initial, a, later);
      h' := WorkOff(cfg, h', initial, a, later);
    }
  }

  lemma CanDrain(cfg: Config, h: History, a: ActorId, now: int) returns (h': History)
    requires h.Valid(cfg) && h.NotAfter(now) && !CrashedHolder(h.Last())
    requires a in h.Last().actors && h.Last().actors[a].Idle?
    ensures h'.Valid(cfg) && h.Begins(h') && Drained(h'.Last().db)
  {
    hide OnClock, Apply, Enabled, CrashedHolder;
    var h0 := CommitAll(cfg, h, a, now);
    var h1 := FinishHolders(cfg, h0, a, now);
    NothingRuns(cfg, h1);
    var db := h1.Last().db;
    h' := WorkOff(cfg, h1, db, a, now);
    forall id | id in h'.Last().db.rows
      ensures h'.Last().db.rows[id].status.Completed? || h'.Last().db.rows[id].status.DeadLetter?
    {
      assert W.RowDrains(db.rows[id], h'.Last().db.rows[id]) && id !in WaitingIds(h'.Last().db.rows);
    }
  }

  lemma NothingRuns(cfg: Config, h: History)
    requires h.Valid(cfg) && forall b :: b in h.Last().actors ==> HoldOf(h.Last().actors[b]).None?
    ensures forall id :: id in h.Last().db.rows ==>
              var status := h.Last().db.rows[id].status; status.Waiting() || status.Completed? || status.DeadLetter?
  {
    ReachableInv(cfg, h.run, |h.run.labels|);
    var s := h.Last();
    forall id | id in s.db.rows
      ensures s.db.rows[id].status.Waiting() || s.db.rows[id].status.Completed? || s.db.rows[id].status.DeadLetter?
    {
      RowBounds(s.db, id);
      assert s.db.rows[id].status.Running? ==> Owned(s.actors, id);
    }
  }

  // ----- The row of a crashed holder cannot

  /** A crashed worker takes no step. */
  lemma CrashedStands(cfg: Config, s: State, l: Label, a: ActorId)
    requires Enabled(cfg, s, l) && a in s.actors && s.actors[a].Crashed?
    ensures l.Disturb? || l.actor != a
  {
  }

  lemma {:induction false} StaysCrashed(cfg: Config, r: Run, i: nat, j: nat, a: ActorId)
    requires r.Valid(cfg) && i <= j < |r.states| && a in r.states[i].actors && r.states[i].actors[a].Crashed?
    ensures a in r.states[j].actors && r.states[j].actors[a] == r.states[i].actors[a]
  {
    hide Apply, Enabled;
    if i < j {
      StaysCrashed(cfg, r, i, j - 1, a);
      CrashedStands(cfg, r.states[j - 1], r.labels[j - 1], a);
      OthersKeepPc(cfg, r.states[j - 1], r.labels[j - 1], a);
    }
  }

  /** The row of a crashed holder is RUNNING in every continuation. */
  lemma CrashedRowStays(cfg: Config, h: History, h': History, a: ActorId)
    requires h.Valid(cfg) && h'.Valid(cfg) && h.Begins(h')
    requires a in h.Last().actors && h.Last().actors[a].Crashed? && h.Last().actors[a].lost.Some?
    ensures var id := h.Last().actors[a].lost.value.id;
            id in h'.Last().db.rows && h'.Last().db.rows[id].status.Running?
  {
    var i, j := |h.run.labels|, |h'.run.labels|;
    assert h'.run.states[i] == h.Last();
    StaysCrashed(cfg, h'.run, i, j, a);
    ReachableInv(cfg, h'.run, j);
    assert PcOk(h'.Last().db, h'.Last().used, h'.Last().actors[a]);
  }

  /**
   Every run that ends with an idle worker can go on, on its own clock, to a state in which every request is
   completed or dead, exactly when no worker has crashed while it held a claim.
   */
  lemma DrainableIff(cfg: Config, h: History, a: ActorId)
    requires h.Valid(cfg) && a in h.Last().actors && h.Last().actors[a].Idle?
    ensures (exists h': History :: h'.Valid(cfg) && h.Begins(h') && Drained(h'.Last().db)) <==> !CrashedHolder(h.Last())
  {
    hide OnClock, Apply, Enabled;
    if CrashedHolder(h.Last()) {
      var b :| b in h.Last().actors && h.Last().actors[b].Crashed? && h.Last().actors[b].lost.Some?;
      forall h': History | h'.Valid(cfg) && h.Begins(h') ensures !Drained(h'.Last().db) {
        CrashedRowStays(cfg, h, h', b);
      }
    } else {
      var now := if |h.times| > 0 then h.times[|h.times| - 1] else 0;
      var h' := CanDrain(cfg, h, a, now);
    }
  }
}
