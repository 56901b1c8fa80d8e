/**
 Time stamps of the audit log. Nothing is assumed about how the clocks of different workers
 relate; the only demand is that one worker's clock does not go back between its claim and
 its finish.
 */
module LogOrder {
  import opened Models
  import opened Tables
  import opened Protocol
  import opened Invariant
  import opened Effects
  import opened Claims

  /** Within one replay cycle time stamps do not decrease; a QUEUED event opens a new cycle. */
  ghost predicate Ordered(log: seq<Event>) {
    forall k :: 1 <= k < |log| ==> log[k].status.Queued? || log[k - 1].createdAt <= log[k].createdAt
  }

  /** A waiting row is not due before its last event. */
  predicate DueAfterUpdate(row: Row) {
    row.status.Waiting() && row.nextAttemptAt.Some? ==> row.nextAttemptAt.value >= row.updatedAt
  }

  ghost predicate RowInOrder(db: Db, id: RequestId)
    requires id in db.rows
  {
    Ordered(LogOf(db.events, id)) && DueAfterUpdate(db.rows[id])
  }

  ghost predicate InOrder(db: Db) {
    forall id {:trigger RowInOrder(db, id)} :: id in db.rows ==> RowInOrder(db, id)
  }

  /** The clock of a finishing worker has not gone back since its claim. */
  ghost predicate Steady(s: State, l: Label) {
    var e := EffectOf(s, l);
    (e.Completes? || e.Fails?) && HoldOf(s.actors[l.actor]).Some? ==> e.now >= HoldOf(s.actors[l.actor]).value.claimedAt
  }

  /** For a write, the same in terms of the row: a finish is not earlier than the row's last update. */
  predicate InTime(db: Db, e: Effect) {
    (e.Completes? || e.Fails?) && e.id in db.rows ==> e.now >= db.rows[e.id].updatedAt
  }

  lemma SteadyIsInTime(cfg: Config, s: State, l: Label)
    requires Inv(s) && Enabled(cfg, s, l)
    ensures Steady(s, l) <==> InTime(s.db, EffectOf(s, l))
  {
    if !l.Disturb? {
      assert PcOk(s.db, s.used, s.actors[l.actor]);
    }
  }

  lemma OrderedAppend(log: seq<Event>, e: Event)
    requires |log| > 0
    ensures Ordered(log + [e]) <==> Ordered(log) && (e.status.Queued? || log[|log| - 1].createdAt <= e.createdAt)
  {
    var longer := log + [e];
    if Ordered(longer) {
      assert longer[|log| - 1] == log[|log| - 1] && longer[|log|] == e;
      forall k | 1 <= k < |log| ensures log[k].status.Queued? || log[k - 1].createdAt <= log[k].createdAt {
        assert longer[k] == log[k] && longer[k - 1] == log[k - 1];
      }
    }
  }

  lemma OthersStayInOrder(db: Db, id: RequestId, row: Row)
    requires InOrder(db)
    ensures InOrder(Put(db, id, row)) <==> RowInOrder(Put(db, id, row), id)
  {
    var db' := Put(db, id, row);
    forall i | i in db.rows && i != id ensures RowInOrder(db', i) {
      PutLog(db, id, row, i);
      assert RowInOrder(db, i);
    }
  }

  lemma PutInOrderIff(db: Db, id: RequestId, row: Row)
    requires Consistent(db) && id in db.rows && RowInOrder(db, id)
    ensures RowInOrder(Put(db, id, row), id) <==>
            (row.status.Queued? || db.rows[id].updatedAt <= row.updatedAt) && DueAfterUpdate(row)
  {
    PutLog(db, id, row, id);
    RowIsWord(db, id);
    OrderedAppend(LogOf(db.events, id), EventFor(id, row));
  }

  /** A write keeps the logs in order exactly when a finish, if it is one, is not earlier than its claim. */
  lemma WriteKeepsOrderIff(db: Db, e: Effect)
    requires Consistent(db) && InOrder(db) && Allowed(db, e)
    ensures InOrder(Written(db, e)) <==> InTime(db, e)
  {
    if e.Nothing? {
      return;
    }
    OthersStayInOrder(db, e.id, RowAfter(db, e));
    if e.Inserts? {
      InsertInOrder(db, e);
    } else {
      assert RowOk(db, e.id) && RowInOrder(db, e.id);
      PutInOrderIff(db, e.id, RowAfter(db, e));
    }
  }

  lemma InsertInOrder(db: Db, e: Effect)
    requires Consistent(db) && e.Inserts? && Allowed(db, e)
    ensures RowInOrder(Written(db, e), e.id)
  {
    NoLogWithoutRow(db.events, e.id);
    PutLog(db, e.id, RowAfter(db, e), e.id);
  }

  /** In every run with steady finishes, every log is in order, whatever the clocks of different workers. */
  lemma {:induction false} LogsAreOrdered(cfg: Config, r: Run, i: nat)
    requires r.Valid(cfg) && i < |r.states|
    requires forall k :: 0 <= k < i ==> Steady(r.states[k], r.labels[k])
    ensures InOrder(r.states[i].db)
  {
    if i > 0 {
      var s, l := r.states[i - 1], r.labels[i - 1];
      LogsAreOrdered(cfg, r, i - 1);
      ReachableInv(cfg, r, i - 1);
      StepIsAllowedWrite(cfg, s, l);
      SteadyIsInTime(cfg, s, l);
      WriteKeepsOrderIff(s.db, EffectOf(s, l));
    }
  }

  // ----- Exactly when a log is in order

  /** Step `k` finishes `id` with a stamp before the row's last one. */
  ghost predicate FinishesEarly(r: Run, k: nat, id: RequestId)
    requires k < |r.labels| && |r.states| == |r.labels| + 1
  {
    var e := EffectOf(r.states[k], r.labels[k]);
    (e.Completes? || e.Fails?) && e.id == id && !InTime(r.states[k].db, e)
  }

  /** Before step `i` no finish of `id` was stamped before the row's last stamp. */
  ghost predicate FinishesInTime(r: Run, i: nat, id: RequestId)
    requires i <= |r.labels| && |r.states| == |r.labels| + 1
  {
    forall k: nat :: k < i ==> !FinishesEarly(r, k, id)
  }

  lemma FinishesInTimeStep(r: Run, i: nat, id: RequestId)
    requires i < |r.labels| && |r.states| == |r.labels| + 1
    ensures FinishesInTime(r, i + 1, id) <==> FinishesInTime(r, i, id) && !FinishesEarly(r, i, id)
  {
  }

  /** Step `k` replays `id` with a stamp, read before its transaction began, that is before the dead letter's. */
  ghost predicate ReplaysEarly(r: Run, k: nat, id: RequestId)
    requires k < |r.labels| && |r.states| == |r.labels| + 1
  {
    var e := EffectOf(r.states[k], r.labels[k]);
    e.Requeues? && e.id == id && id in r.states[k].db.rows && e.now < r.states[k].db.rows[id].updatedAt
  }

  ghost predicate ReplaysInTime(r: Run, i: nat, id: RequestId)
    requires i <= |r.labels| && |r.states| == |r.labels| + 1
  {
    forall k: nat :: k < i ==> !ReplaysEarly(r, k, id)
  }

  lemma ReplaysInTimeStep(r: Run, i: nat, id: RequestId)
    requires i < |r.labels| && |r.states| == |r.labels| + 1
    ensures ReplaysInTime(r, i + 1, id) <==> ReplaysInTime(r, i, id) && !ReplaysEarly(r, i, id)
  {
  }

  lemma WriteAndOrder(db: Db, e: Effect, id: RequestId)
    requires Consistent(db) && Allowed(db, e) && id in Written(db, e).rows
    ensures var db', late := Written(db, e), (e.Completes? || e.Fails?) && e.id == id && !InTime(db, e);
            && (late ==> !Ordered(LogOf(db'.events, id)))
            && (id in db.rows && !Ordered(LogOf(db.events, id)) ==> !Ordered(LogOf(db'.events, id)))
            && ((id in db.rows ==> RowInOrder(db, id)) && !late ==> RowInOrder(db', id))
  {
    if !e.Nothing? {
      PutLog(db, e.id, RowAfter(db, e), id);
      if e.id == id {
        if e.Inserts? {
          InsertInOrder(db, e);
        } else {
          assert RowOk(db, id);
          RowIsWord(db, id);
          OrderedAppend(LogOf(db.events, id), EventFor(id, RowAfter(db, e)));
        }
      }
    }
  }

  lemma {:induction false} OrderOfLog(cfg: Config, r: Run, i: nat, id: RequestId)
    requires r.Valid(cfg) && i < |r.states| && id in r.states[i].db.rows
    ensures if FinishesInTime(r, i, id) then RowInOrder(r.states[i].db, id)
            else !Ordered(LogOf(r.states[i].db.events, id))
  {
    hide Apply, Enabled, FinishesInTime, Ordered, Consistent;
    if i > 0 {
      var s, l := r.states[i - 1], r.labels[i - 1];
      ReachableInv(cfg, r, i - 1);
      StepIsAllowedWrite(cfg, s, l);
      WriteAndOrder(s.db, EffectOf(s, l), id);
      FinishesInTimeStep(r, i - 1, id);
      if id in s.db.rows {
        OrderOfLog(cfg, r, i - 1, id);
      } else {
        NothingBefore(cfg, r, i - 1, id);
      }
    }
  }

  lemma NothingBefore(cfg: Config, r: Run, i: nat, id: RequestId)
    requires r.Valid(cfg) && i < |r.states| && id !in r.states[i].db.rows
    ensures FinishesInTime(r, i, id) && ReplaysInTime(r, i, id)
  {
    forall k: nat | k < i ensures !FinishesEarly(r, k, id) && !ReplaysEarly(r, k, id) {
      if id in r.states[k].db.rows {
        RunProgress(cfg, r, k, i, id);
      } else {
        ReachableInv(cfg, r, k);
        StepIsAllowedWrite(cfg, r.states[k], r.labels[k]);
      }
    }
  }

  /** In any run, a log is in order within its cycles exactly when no finish of its request was stamped too early. */
  lemma LogInOrderIff(cfg: Config, r: Run, i: nat, id: RequestId)
    requires r.Valid(cfg) && i < |r.states| && id in r.states[i].db.rows
    ensures Ordered(LogOf(r.states[i].db.events, id)) <==> FinishesInTime(r, i, id)
  {
    OrderOfLog(cfg, r, i, id);
  }

  // ----- Across replays

  /** Time stamps never decrease, replays included. */
  ghost predicate Chronological(log: seq<Event>) {
    forall k :: 1 <= k < |log| ==> log[k - 1].createdAt <= log[k].createdAt
  }

  lemma ChronologicalAppend(log: seq<Event>, e: Event)
    requires |log| > 0
    ensures Chronological(log + [e]) <==> Chronological(log) && log[|log| - 1].createdAt <= e.createdAt
  {
    var longer := log + [e];
    if Chronological(longer) {
      assert longer[|log| - 1] == log[|log| - 1] && longer[|log|] == e;
      forall k | 1 <= k < |log| ensures log[k - 1].createdAt <= log[k].createdAt {
        assert longer[k] == log[k] && longer[k - 1] == log[k - 1];
      }
    }
  }

  /**
   A write to an existing row, a replay among them, keeps its log chronological exactly when its stamp is not
   before the row's last one.
   */
  lemma WriteKeepsChronologicalIff(db: Db, e: Effect)
    requires Consistent(db) && Allowed(db, e) && !e.Nothing? && !e.Inserts?
    ensures Chronological(LogOf(Written(db, e).events, e.id)) <==>
            Chronological(LogOf(db.events, e.id)) && e.now >= db.rows[e.id].updatedAt
  {
    RowIsWord(db, e.id);
    PutLog(db, e.id, RowAfter(db, e), e.id);
    ChronologicalAppend(LogOf(db.events, e.id), EventFor(e.id, RowAfter(db, e)));
  }

  lemma WriteAndChronology(db: Db, e: Effect, id: RequestId)
    requires Consistent(db) && Allowed(db, e) && id in Written(db, e).rows
    ensures var db', log' := Written(db, e), LogOf(Written(db, e).events, id);
            var early := e.Requeues? && e.id == id && id in db.rows && e.now < db.rows[id].updatedAt;
            Chronological(log') ==
              (Ordered(log') && !early && (id in db.rows ==> Chronological(LogOf(db.events, id))))
  {
    if !e.Nothing? {
      PutLog(db, e.id, RowAfter(db, e), id);
      if e.id == id && e.Inserts? {
        NoLogWithoutRow(db.events, id);
      } else if e.id == id {
        RowIsWord(db, id);
        OrderedAppend(LogOf(db.events, id), EventFor(id, RowAfter(db, e)));
        WriteKeepsChronologicalIff(db, e);
        assert Chronological(LogOf(db.events, id)) ==> Ordered(LogOf(db.events, id));
      }
    }
  }

  /**
   In any run, a log is chronological throughout exactly when no finish of its request was stamped before its
   claim and no replay before its dead letter.
   */
  lemma {:induction false} LogChronologicalIff(cfg: Config, r: Run, i: nat, id: RequestId)
    requires r.Valid(cfg) && i < |r.states| && id in r.states[i].db.rows
    ensures Chronological(LogOf(r.states[i].db.events, id)) <==>
            FinishesInTime(r, i, id) && ReplaysInTime(r, i, id)
  {
    hide Apply, Enabled, FinishesInTime, ReplaysInTime, Ordered, Chronological, Consistent;
    if i > 0 {
      var s, l := r.states[i - 1], r.labels[i - 1];
      ReachableInv(cfg, r, i - 1);
      StepIsAllowedWrite(cfg, s, l);
      WriteAndChronology(s.db, EffectOf(s, l), id);
      LogInOrderIff(cfg, r, i, id);
      FinishesInTimeStep(r, i - 1, id);
      ReplaysInTimeStep(r, i - 1, id);
      if id in s.db.rows {
        LogChronologicalIff(cfg, r, i - 1, id);
      } else {
        NothingBefore(cfg, r, i - 1, id);
      }
    }
  }

  /** Every RUNNING event is no earlier than the retry time that gated it, which was present. */
  lemma ClaimsRespectTheGate(cfg: Config, r: Run, i: nat, id: RequestId)
    requires r.Valid(cfg) && i < |r.labels| && ClaimsAt(r, i, id)
    ensures id in r.states[i].db.rows && id in r.states[i + 1].db.rows
    ensures var row, row' := r.states[i].db.rows[id], r.states[i + 1].db.rows[id];
            && row.nextAttemptAt.Some? && row.nextAttemptAt.value <= row'.updatedAt
            && row'.updatedAt == EffectOf(r.states[i], r.labels[i]).now
            && row'.nextAttemptAt == row.nextAttemptAt
  {
    ReachableInv(cfg, r, i);
    StepIsAllowedWrite(cfg, r.states[i], r.labels[i]);
    assert RowOk(r.states[i].db, id);
  }
}
