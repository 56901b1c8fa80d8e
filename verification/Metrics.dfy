/** The operational snapshot, and how it follows the audit log and every write. */
module Metrics {
  import opened Models
  import opened Tables
  import opened Effects
  import opened Invariant
  import opened Protocol

  datatype MetricsSnapshot = MetricsSnapshot(
    totalRequests: nat,
    byStatus: map<Status, nat>,
    queueDepth: nat,
    retryingCount: nat,
    deadLetterCount: nat,
    oldestQueuedAge: Option<int>)

  function StatusSet(rows: map<RequestId, Row>, status: Status): set<RequestId> {
    set id | id in rows && rows[id].status == status
  }

  function WaitingIds(rows: map<RequestId, Row>): set<RequestId> {
    set id | id in rows && rows[id].status.Waiting()
  }

  /** The grouped count: only statuses that occur have an entry. */
  function Histogram(rows: map<RequestId, Row>): map<Status, nat> {
    map status | status in (set id | id in rows :: rows[id].status) :: |StatusSet(rows, status)|
  }

  function CountIn(byStatus: map<Status, nat>, status: Status): nat {
    if status in byStatus then byStatus[status] else 0
  }

  lemma HistogramCounts(rows: map<RequestId, Row>, status: Status)
    ensures CountIn(Histogram(rows), status) == |StatusSet(rows, status)|
  {
    if status !in Histogram(rows) {
      assert StatusSet(rows, status) == {};
    }
  }

  /** Queue depth, computed from two entries of the histogram, counts the waiting rows. */
  lemma DepthCountsWaiting(rows: map<RequestId, Row>)
    ensures CountIn(Histogram(rows), Queued) + CountIn(Histogram(rows), Retrying) == |WaitingIds(rows)|
  {
    HistogramCounts(rows, Queued);
    HistogramCounts(rows, Retrying);
    DisjointUnion(StatusSet(rows, Queued), StatusSet(rows, Retrying), WaitingIds(rows));
  }

  lemma DisjointUnion(a: set<RequestId>, b: set<RequestId>, both: set<RequestId>)
    requires forall id :: id in both <==> id in a || id in b
    requires forall id :: id in a ==> id !in b
    ensures |both| == |a| + |b|
  {
    assert both == a + b;
  }

  ghost predicate LastEventHas(db: Db, id: RequestId, status: Status) {
    var log := LogOf(db.events, id);
    |log| > 0 && log[|log| - 1].status == status
  }

  /** The histogram is that of each request's last audit event. */
  lemma HistogramIsOfLastEvents(db: Db, status: Status)
    requires Consistent(db)
    ensures CountIn(Histogram(db.rows), status) == |set id | id in db.rows && LastEventHas(db, id, status)|
  {
    forall id | id in db.rows ensures LastEventHas(db, id, status) <==> db.rows[id].status == status {
      RowIsWord(db, id);
    }
    HistogramCounts(db.rows, status);
    assert StatusSet(db.rows, status) == set id | id in db.rows && LastEventHas(db, id, status);
  }

  /** The counts of the five reachable statuses add up to the number of requests. */
  lemma CountsAddUp(db: Db)
    requires Consistent(db)
    ensures var h := Histogram(db.rows);
            && CountIn(h, Queued) + CountIn(h, Retrying) + CountIn(h, Running)
               + CountIn(h, Completed) + CountIn(h, DeadLetter)
               == |db.rows|
            && CountIn(h, Accepted) == 0 && CountIn(h, Failed) == 0
  {
    forall id | id in db.rows ensures !db.rows[id].status.Accepted? && !db.rows[id].status.Failed? {
      RowBounds(db, id);
    }
    ReachableStatusesPartition(db.rows);
    HistogramCounts(db.rows, Queued);
    HistogramCounts(db.rows, Retrying);
    HistogramCounts(db.rows, Running);
    HistogramCounts(db.rows, Completed);
    HistogramCounts(db.rows, DeadLetter);
    HistogramCounts(db.rows, Accepted);
    HistogramCounts(db.rows, Failed);
  }

  function Rank(status: Status): nat {
    match status
    case Queued => 0
    case Retrying => 1
    case Running => 2
    case Completed => 3
    case DeadLetter => 4
    case Accepted => 5
    case Failed => 6
  }

  function RankedFrom(rows: map<RequestId, Row>, rank: nat): set<RequestId> {
    set id | id in rows && Rank(rows[id].status) >= rank
  }

  lemma PeelOff(rows: map<RequestId, Row>, status: Status)
    ensures |RankedFrom(rows, Rank(status))| == |StatusSet(rows, status)| + |RankedFrom(rows, Rank(status) + 1)|
  {
    forall id | id in rows ensures Rank(rows[id].status) == Rank(status) <==> rows[id].status == status {
      RankIsInjective(rows[id].status, status);
    }
    DisjointUnion(StatusSet(rows, status), RankedFrom(rows, Rank(status) + 1), RankedFrom(rows, Rank(status)));
  }

  lemma RankIsInjective(a: Status, b: Status)
    ensures Rank(a) == Rank(b) ==> a == b
  {
  }

  lemma ReachableStatusesPartition(rows: map<RequestId, Row>)
    requires forall id :: id in rows ==> !rows[id].status.Accepted? && !rows[id].status.Failed?
    ensures |StatusSet(rows, Queued)| + |StatusSet(rows, Retrying)| + |StatusSet(rows, Running)|
            + |StatusSet(rows, Completed)| + |StatusSet(rows, DeadLetter)| == |rows|
    ensures StatusSet(rows, Accepted) == {} && StatusSet(rows, Failed) == {}
  {
    assert RankedFrom(rows, 0) == rows.Keys;
    assert RankedFrom(rows, 5) == {};
    assert |rows| == |rows.Keys|;
    PeelOff(rows, Queued);
    PeelOff(rows, Retrying);
    PeelOff(rows, Running);
    PeelOff(rows, Completed);
    PeelOff(rows, DeadLetter);
  }

  /** The status a write takes a row from; an insert takes none. */
  ghost predicate Departs(db: Db, e: Effect, status: Status)
    requires Allowed(db, e) && !e.Nothing?
  {
    match e
    case Inserts(_, _, _) => false
    case Claims(id, _, _) => status == db.rows[id].status
    case Requeues(_, _) => status.DeadLetter?
    case _ => status.Running?
  }

  function Arrival(e: Effect): Status
    requires !e.Nothing?
  {
    match e
    case Claims(_, _, _) => Running
    case Completes(_, _, _, _) => Completed
    case Fails(_, attempt, budget, _, _, _) => if attempt >= budget then DeadLetter else Retrying
    case _ => Queued
  }

  function OtherStatusSet(rows: map<RequestId, Row>, status: Status, id: RequestId): set<RequestId> {
    set i | i in rows && i != id && rows[i].status == status
  }

  lemma CountSplit(rows: map<RequestId, Row>, status: Status, id: RequestId)
    ensures |StatusSet(rows, status)| ==
            |OtherStatusSet(rows, status, id)| + (if id in rows && rows[id].status == status then 1 else 0)
  {
    if id in rows && rows[id].status == status {
      assert StatusSet(rows, status) == OtherStatusSet(rows, status, id) + {id};
    } else {
      assert StatusSet(rows, status) == OtherStatusSet(rows, status, id);
    }
  }

  lemma PutMovesOneUnit(rows: map<RequestId, Row>, id: RequestId, row: Row, status: Status)
    ensures |StatusSet(rows[id := row], status)| ==
            |StatusSet(rows, status)| - (if id in rows && rows[id].status == status then 1 else 0)
                                      + (if row.status == status then 1 else 0)
  {
    CountSplit(rows, status, id);
    CountSplit(rows[id := row], status, id);
    assert OtherStatusSet(rows[id := row], status, id) == OtherStatusSet(rows, status, id);
  }

  /** Conservation: a write moves one unit from its departure to its arrival, or adds one QUEUED. */
  lemma WriteMovesOneUnit(db: Db, e: Effect, status: Status)
    requires Allowed(db, e) && !e.Nothing?
    ensures |StatusSet(Written(db, e).rows, status)| ==
            |StatusSet(db.rows, status)| - (if Departs(db, e, status) then 1 else 0)
            + (if status == Arrival(e) then 1 else 0)
    ensures |Written(db, e).rows| == |db.rows| + (if e.Inserts? then 1 else 0)
  {
    PutMovesOneUnit(db.rows, e.id, RowAfter(db, e), status);
    assert e.Inserts? <==> e.id !in db.rows;
  }

  /** The same for a step of any actor: it leaves every count alone, or it is such a write. */
  lemma StepMovesOneUnit(cfg: Config, s: State, l: Label, status: Status)
    requires Inv(s) && Enabled(cfg, s, l)
    ensures var e := EffectOf(s, l);
            var n, n' := |StatusSet(s.db.rows, status)|, |StatusSet(Apply(cfg, s, l).db.rows, status)|;
            && Allowed(s.db, e)
            && if e.Nothing? then n' == n
               else n' == n - (if Departs(s.db, e, status) then 1 else 0) + (if status == Arrival(e) then 1 else 0)
  {
    var e := EffectOf(s, l);
    StepIsAllowedWrite(cfg, s, l);
    if !e.Nothing? {
      WriteMovesOneUnit(s.db, e, status);
    }
  }
}
