/** Every run of the protocol, under either lock discipline and with any broker, is a run of the atomic queue. */
module Refinement {
  import opened Models
  import opened Tables
  import opened Protocol
  import opened Invariant
  import opened Effects
  import opened AtomicQueue

  function TicketOf(row: Row): Ticket {
    match row.status
    case Running => Taken(row.attemptCount)
    case Completed => Done(row.attemptCount)
    case DeadLetter => Dead
    case _ => Waiting(row.attemptCount, if row.nextAttemptAt.Some? then row.nextAttemptAt.value else 0)
  }

  function QueueOf(db: Db): Queue {
    map id | id in db.rows :: EntryOf(db.rows[id])
  }

  function EntryOf(row: Row): Entry {
    Entry(row.fields.maxAttempts, TicketOf(row))
  }

  function OpOf(db: Db, e: Effect): Op {
    match e
    case Nothing => Skip
    case Inserts(id, request, now) => Enqueue(id, request.maxAttempts, now)
    case Claims(id, _, now) => Take(id, now)
    case Completes(id, attempt, _, _) => Finish(id, attempt)
    case Fails(id, attempt, budget, _, delay, now) =>
      if attempt >= budget then Bury(id, attempt) else Retry(id, attempt, now + Seconds(delay))
    case Requeues(id, now) => Revive(id, now)
  }

  lemma PutRefines(db: Db, id: RequestId, row: Row)
    ensures QueueOf(Put(db, id, row)) == QueueOf(db)[id := EntryOf(row)]
  {
  }

  lemma WriteRefines(db: Db, e: Effect)
    requires Consistent(db) && Allowed(db, e)
    ensures CanDo(QueueOf(db), OpOf(db, e))
    ensures QueueOf(Written(db, e)) == Do(QueueOf(db), OpOf(db, e))
  {
    if !e.Nothing? {
      PutRefines(db, e.id, RowAfter(db, e));
      EntryRefines(db, e);
    }
  }

  /** The same for the one entry that a write concerns. */
  lemma EntryRefines(db: Db, e: Effect)
    requires Consistent(db) && Allowed(db, e) && !e.Nothing?
    ensures CanDo(QueueOf(db), OpOf(db, e))
    ensures Do(QueueOf(db), OpOf(db, e)) == QueueOf(db)[e.id := EntryOf(RowAfter(db, e))]
  {
    if !e.Inserts? {
      assert RetryTimeOk(db.rows[e.id]) by {
        assert RowOk(db, e.id);
      }
      RowBounds(db, e.id);
      assert QueueOf(db)[e.id] == EntryOf(db.rows[e.id]);
    }
  }

  ghost function OpAt(r: Run, i: nat): Op
    requires i < |r.labels| && |r.states| == |r.labels| + 1
  {
    OpOf(r.states[i].db, EffectOf(r.states[i], r.labels[i]))
  }

  /**
   The projection of a protocol run onto the tables, forgetting actors, locks, texts, logs and
   broker, is a run of the atomic queue that claims some eligible entry at each claim.
   */
  lemma RunRefinesQueue(cfg: Config, r: Run) returns (ops: seq<Op>)
    requires r.Valid(cfg)
    ensures |ops| == |r.labels| && forall i :: 0 <= i < |ops| ==> ops[i] == OpAt(r, i)
    ensures IsRun(seq(|r.states|, i requires 0 <= i < |r.states| => QueueOf(r.states[i].db)), ops)
  {
    hide Enabled, Apply, EffectOf, OpOf, Do, CanDo, Inv;
    ops := seq(|r.labels|, i requires 0 <= i < |r.labels| => OpAt(r, i));
    var queues := seq(|r.states|, i requires 0 <= i < |r.states| => QueueOf(r.states[i].db));
    forall i | 0 <= i < |ops| ensures CanDo(queues[i], ops[i]) && queues[i + 1] == Do(queues[i], ops[i]) {
      var s, l := r.states[i], r.labels[i];
      ReachableInv(cfg, r, i);
      StepIsAllowedWrite(cfg, s, l);
      WriteRefines(s.db, EffectOf(s, l));
    }
  }
}
