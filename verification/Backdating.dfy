/**
 Runs whose logs go back in time, and why: an operator reads the clock before its transaction opens, and a
 worker whose clock was set back finishes before it claimed. `LogOrder` says exactly when either happens.
 */
module Backdating {
  import opened Models
  import opened Tables
  import opened Protocol
  import opened Invariant
  import opened Effects
  import opened LogOrder
  import opened Timing
  import opened Turns
  import opened Histories
  import opened Attempts
  import opened Adapters
  import W = Worker

  /**
   Wherever an operator has read the clock before a dead letter was written and asks for its replay only now,
   the run extends, even on one shared clock, to a QUEUED event stamped before the DEAD_LETTER event.
   */
  lemma EarlyReadingBackdates(cfg: Config, h: History, operator: ActorId, id: RequestId, read: int, now: int)
    returns (h': History, k: nat)
    requires h.Valid(cfg) && h.NotAfter(now) && NoLocks(h.Last())
    requires operator in h.Last().actors && h.Last().actors[operator] == AskedReplay(id, read)
    requires id in h.Last().db.rows && h.Last().db.rows[id].status.DeadLetter? && read < h.Last().db.rows[id].updatedAt
    ensures h'.Valid(cfg) && h.Begins(h') && k < |h'.run.labels| && ReplaysEarly(h'.run, k, id)
    ensures id in h'.Last().db.rows && !Chronological(LogOf(h'.Last().db.events, id))
  {
    hide Cycle, OnClock, Inv, Chronological;
    RowsKnowTheirId(cfg, h, id);
    var h1 := Append(cfg, h, Operator(operator, LockLetter), now);
    k := |h1.run.labels|;
    h' := Append(cfg, h1, Operator(operator, CommitReplay), now);
    assert ReplaysEarly(h'.run, k, id);
    assert !ReplaysInTime(h'.run, k + 1, id);
    LogChronologicalIff(cfg, h'.run, k + 1, id);
  }

  /** There is such a run: the reading at 0, the burial at one second, and then the replay. */
  lemma BackdatedReplayExists(cfg: Config) returns (h: History, k: nat)
    ensures h.Valid(cfg) && k < |h.run.labels| && ReplaysEarly(h.run, k, "a")
    ensures "a" in h.Last().db.rows && !Chronological(LogOf(h.Last().db.events, "a"))
  {
    hide Enabled, Apply, Inv, Cycle, OnClock, Chronological;
    StartIsValid(cfg);
    var h1 := SubmitSingle(cfg, Start(), "a", 1, 0);
    var h2 := AskFor(cfg, h1, 1, "a", 0);
    assert DueIds(h2.Last(), 1_000_000) == {"a"};
    var h3, i := HintedAttempt(cfg, h2, "a", 1_000_000, 60);
    h, k := EarlyReadingBackdates(cfg, h3, 1, "a", 0, 1_000_000);
  }

  lemma AskFor(cfg: Config, h: History, operator: ActorId, id: RequestId, now: int) returns (h': History)
    requires h.Valid(cfg) && h.NotAfter(now) && operator in h.Last().actors && h.Last().actors[operator].Idle?
    ensures h'.Valid(cfg) && h'.NotAfter(now) && h.Begins(h')
    ensures h'.Last() == With(h.Last(), operator, AskedReplay(id, now))
  {
    h' := Append(cfg, h, Operator(operator, Ask(id, now)), now);
  }

  /** Turn of a worker whose wall clock is set back from `claim` to `finish` while it executes. */
  function SetBackTurn(claim: int, finish: int): W.Turn {
    W.Turn(claim, claim, claim, claim, claim, finish, 0.0, Success(""))
  }

  lemma SetBackFinish(cfg: Config, db: Db, id: RequestId, claim: int, finish: int)
    requires Consistent(db) && id in db.rows && Eligible(db.rows[id], claim) && finish < claim && 0 <= claim
    ensures var db' := W.AfterTurn(cfg.policy, map[], db, id, claim, SetBackTurn(claim, finish));
            id in db'.rows && !Ordered(LogOf(db'.events, id))
  {
    hide Ordered;
    assert RowOk(db, id);
    ClaimConsistentIff(db, id, claim);
    var mid := Put(db, id, Claimed(db.rows[id], db.rows[id].attemptCount, claim));
    WriteAndOrder(mid, Completes(id, mid.rows[id].attemptCount, "", finish), id);
  }

  /** There is a run, with a clock set back during a call, whose log is out of order within one cycle. */
  lemma UnsteadyFinishExists(cfg: Config) returns (r: Run)
    ensures r.Valid(cfg) && "a" in r.states[|r.labels|].db.rows
    ensures !Ordered(LogOf(r.states[|r.labels|].db.events, "a"))
  {
    hide Leads, Enabled, Apply, Ordered, W.AfterTurn;
    var s0 := Start().Last();
    SubmitPath(cfg, Anything, s0, 0, "a", RequestWith(1), 0);
    var s1 := SubmittedState(cfg, s0, "a", RequestWith(1), 0);
    InsertKeepsConsistent(EMPTY, "a", RequestWith(1), 0);
    var s2 := TurnPath(cfg, Anything, s1, 0, "a", 10, map[], SetBackTurn(10, 5));
    SetBackFinish(cfg, s1.db, "a", 10, 5);
    Join(cfg, Anything, s0, s1, s2);
    r := PathOf(cfg, Anything, s0, s2);
  }
}
