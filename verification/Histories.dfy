/**
 Valid runs on one shared clock, grown step by step and path by path. A worker that takes one due row after
 the other comes to claim any row that is due.
 */
module Histories {
  import opened Models
  import opened Tables
  import opened Protocol
  import opened Invariant
  import opened Timing
  import opened Turns
  import opened Adapters
  import W = Worker

  // ----- Runs on one clock, grown step by step

  datatype History = History(run: Run, times: seq<int>) {
    ghost predicate Valid(cfg: Config) {
      run.Valid(cfg) && OnClock(run, times)
    }

    ghost function Last(): State
      requires |run.states| > 0
    {
      run.states[|run.states| - 1]
    }

    predicate NotAfter(now: int) {
      |times| > 0 ==> times[|times| - 1] <= now
    }

    /** This history is a beginning of `longer`. */
    ghost predicate Begins(longer: History) {
      && run.states <= longer.run.states && run.labels <= longer.run.labels && times <= longer.times
    }
  }

  /** One more step at time `now`. */
  lemma Append(cfg: Config, h: History, l: Label, now: int) returns (h': History)
    requires h.Valid(cfg) && h.NotAfter(now) && Enabled(cfg, h.Last(), l) && Reads(l, now)
    ensures h'.Valid(cfg) && h'.NotAfter(now) && h.Begins(h')
    ensures h'.Last() == Apply(cfg, h.Last(), l)
    ensures |h'.times| == |h'.run.labels| == |h.run.labels| + 1
    ensures h'.run.labels[|h.run.labels|] == l && h'.times[|h.run.labels|] == now
    ensures h'.run.states[|h.run.labels|] == h.Last()
  {
    hide Apply, Enabled;
    h' := History(Run(h.run.states + [Apply(cfg, h.Last(), l)], h.run.labels + [l]), h.times + [now]);
    forall i | 0 <= i < |h'.run.labels|
      ensures Enabled(cfg, h'.run.states[i], h'.run.labels[i]) && Reads(h'.run.labels[i], h'.times[i])
      ensures h'.run.states[i + 1] == Apply(cfg, h'.run.states[i], h'.run.labels[i])
    {
      if i < |h.run.labels| {
        assert h'.run.labels[i] == h.run.labels[i] && h'.run.states[i] == h.run.states[i];
      }
    }
  }

  lemma {:induction false} FollowTo(cfg: Config, h: History, now: int, r: Run, i: nat) returns (h': History)
    requires h.Valid(cfg) && h.NotAfter(now) && i <= |r.labels| && |r.states| == |r.labels| + 1
    requires IsPath(cfg, AllAt(now), r, h.Last(), r.states[|r.labels|])
    ensures h'.Valid(cfg) && h'.NotAfter(now) && h.Begins(h') && h'.Last() == r.states[i]
  {
    hide Apply, Enabled;
    h' := h;
    if i > 0 {
      h' := FollowTo(cfg, h, now, r, i - 1);
      assert Follows(r.labels[i - 1], AllAt(now));
      h' := Append(cfg, h', r.labels[i - 1], now);
    }
  }

  /** A whole path at time `now`. */
  lemma Follow(cfg: Config, h: History, now: int, s': State) returns (h': History)
    requires h.Valid(cfg) && h.NotAfter(now) && Leads(cfg, AllAt(now), h.Last(), s')
    ensures h'.Valid(cfg) && h'.NotAfter(now) && h.Begins(h') && h'.Last() == s'
  {
    var r: Run :| IsPath(cfg, AllAt(now), r, h.Last(), s');
    h' := FollowTo(cfg, h, now, r, |r.labels|);
  }

  // ----- A due row can always be claimed at once

  ghost predicate NoLocks(s: State) {
    forall b :: b in s.actors ==> LockOf(s.actors[b]).None?
  }

  ghost function DueIds(s: State, now: int): set<RequestId> {
    set i | i in s.db.rows && Eligible(s.db.rows[i], now)
  }

  /** A turn in which every clock shows `now` and the adapter, if it is called, succeeds. */
  function QuickTurn(now: int): W.Turn {
    W.Turn(now, now, now, now, now, now, 0.0, Success(""))
  }

  lemma QuickTurnPermitted(a: ActorId, now: int)
    ensures Permits(AllAt(now), a, QuickTurn(now))
  {
    forall l: Label | IsOfTurn(l, a, QuickTurn(now)) ensures Follows(l, AllAt(now)) {
    }
  }

  lemma OwnCooldowns(s: State, a: ActorId) returns (cooldowns: W.Cooldowns)
    ensures SameCooldowns(s, a, cooldowns)
  {
    cooldowns := map key | key in s.cooldowns && key.0 == a :: key.1 := s.cooldowns[key];
  }

  /** After a quick turn its row is not due any more. */
  lemma QuickTurnFinishes(cfg: Config, cooldowns: W.Cooldowns, db: Db, i: RequestId, now: int, id: RequestId)
    requires i in db.rows && id in db.rows && i != id
    ensures var db' := W.AfterTurn(cfg.policy, cooldowns, db, i, now, QuickTurn(now));
            && db'.rows.Keys == db.rows.Keys && !Eligible(db'.rows[i], now)
            && (forall x :: x in db.rows && x != i ==> db'.rows[x] == db.rows[x])
            && Cycle(db', id) == Cycle(db, id)
  {
    var claimed := Claimed(db.rows[i], db.rows[i].attemptCount, now);
    PutCycle(db, i, claimed, id);
    PutCycle(Put(db, i, claimed), i, W.Finished(cfg.policy, cooldowns, claimed, QuickTurn(now)), id);
  }

  ghost predicate ReadyToClaim(s: State, s': State, a: ActorId, id: RequestId, now: int)
    requires id in s.db.rows
  {
    && id in s'.db.rows && s'.db.rows[id] == s.db.rows[id] && Cycle(s'.db, id) == Cycle(s.db, id)
    && s'.actors == s.actors[a := Claiming(s.db.rows[id], now)]
  }

  /** A quick turn on another row leaves one row less that is due. */
  lemma ClearOne(cfg: Config, h: History, a: ActorId, i: RequestId, id: RequestId, now: int) returns (h': History)
    requires h.Valid(cfg) && h.NotAfter(now) && NoLocks(h.Last())
    requires a in h.Last().actors && h.Last().actors[a].Idle?
    requires id in DueIds(h.Last(), now) && i in DueIds(h.Last(), now) && i != id
    requires Takes(cfg, h.Last(), i, now, QuickTurn(now))
    ensures h'.Valid(cfg) && h'.NotAfter(now) && h.Begins(h') && h'.Last().actors == h.Last().actors
    ensures var s, s' := h.Last(), h'.Last();
            && id in DueIds(s', now) && |DueIds(s', now)| < |DueIds(s, now)|
            && s'.db.rows[id] == s.db.rows[id] && Cycle(s'.db, id) == Cycle(s.db, id)
  {
    hide Leads, Apply, Enabled, Cycle, W.AfterTurn, W.Cooled, Inv, OnClock, Eligible;
    var s := h.Last();
    var cooldowns := OwnCooldowns(s, a);
    QuickTurnPermitted(a, now);
    var s' := TurnPath(cfg, AllAt(now), s, a, i, now, cooldowns, QuickTurn(now));
    QuickTurnFinishes(cfg, cooldowns, s.db, i, now, id);
    h' := Follow(cfg, h, now, s');
    assert DueIds(s', now) <= DueIds(s, now) && i !in DueIds(s', now);
    SmallerSet(DueIds(s', now), DueIds(s, now));
  }

  /** A worker that takes one due row after the other, older ones and messages first, comes to lock `id`. */
  lemma {:induction false} ReachLock(cfg: Config, h: History, a: ActorId, id: RequestId, now: int) returns (h': History)
    requires h.Valid(cfg) && h.NotAfter(now) && NoLocks(h.Last())
    requires a in h.Last().actors && h.Last().actors[a].Idle? && id in DueIds(h.Last(), now)
    ensures h'.Valid(cfg) && h'.NotAfter(now) && h.Begins(h')
    ensures ReadyToClaim(h.Last(), h'.Last(), a, id, now)
    ensures DueIds(h.Last(), now) == {id} ==>
              h'.Last() == With(Popped(cfg, h.Last()), a, Claiming(h.Last().db.rows[id], now))
    decreases |DueIds(h.Last(), now)|
  {
    hide Leads, Apply, Enabled, Cycle, Inv, OnClock;
    var s, turn := h.Last(), QuickTurn(now);
    W.SomethingIsTaken(cfg.brokered, s.broker, s.db.rows, turn, id);
    var i, at :| W.Takes(cfg.brokered, s.broker, s.db.rows, i, at, turn);
    RowsKnowTheirId(cfg, h, i);
    if i == id {
      Stay(cfg, AllAt(now), s);
      QuickTurnPermitted(a, now);
      LockPath(cfg, AllAt(now), s, s, a, id, now, turn);
      h' := Follow(cfg, h, now, With(Popped(cfg, s), a, Claiming(s.db.rows[id], now)));
    } else {
      var h1 := ClearOne(cfg, h, a, i, id, now);
      h' := ReachLock(cfg, h1, a, id, now);
    }
  }

  lemma SmallerSet(a: set<RequestId>, b: set<RequestId>)
    requires a < b
    ensures |a| < |b|
  {
    var x :| x in b && x !in a;
    assert |b - a| > 0;
    assert a + (b - a) == b;
  }

  lemma RowsKnowTheirId(cfg: Config, h: History, i: RequestId)
    requires h.Valid(cfg) && i in h.Last().db.rows
    ensures h.Last().db.rows[i].id == i
  {
    ReachableInv(cfg, h.run, |h.run.labels|);
    RowIdOk(h.Last().db, i);
  }

  lemma SamePast(h: History, h': History, i: nat)
    requires h.Begins(h') && i < |h.run.labels| && i < |h.times|
    requires |h.run.states| == |h.run.labels| + 1 && |h'.run.states| == |h'.run.labels| + 1
    ensures i < |h'.run.labels| && h'.run.labels[i] == h.run.labels[i] && h'.times[i] == h.times[i]
    ensures h'.run.states[i] == h.run.states[i] && h'.run.states[i + 1] == h.run.states[i + 1]
  {
  }
}
