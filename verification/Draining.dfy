/** How many claims any number of workers can make between them, and when nothing is left to claim. */
module Draining {
  import opened Models
  import opened Tables
  import opened Protocol
  import opened Invariant
  import opened Effects
  import opened Sums
  import opened Fairness

  ghost function Open(db: Db): int {
    Sum(db.rows.Keys, Budgets(db))
  }

  /** The attempts that a write brings in: the budget of a new or replayed row. */
  ghost function Admits(db: Db, e: Effect): nat
    requires Allowed(db, e)
  {
    if e.Inserts? then e.request.maxAttempts
    else if e.Requeues? then db.rows[e.id].fields.maxAttempts
    else 0
  }

  lemma LeftBounds(db: Db, id: RequestId)
    requires Consistent(db) && id in db.rows
    ensures Left(db.rows[id]) >= 0
    ensures db.rows[id].status.Waiting() ==> Left(db.rows[id]) > 0
  {
    RowBounds(db, id);
  }

  /** A claim takes one attempt, a finish takes none or gives the rest up. */
  lemma WriteAndLeft(db: Db, e: Effect)
    requires Consistent(db) && Allowed(db, e)
    ensures (if e.Claims? then 1 else 0) + Open(Written(db, e)) <= Open(db) + Admits(db, e)
  {
    if !e.Nothing? {
      var db' := Written(db, e);
      if e.Inserts? {
        SumExtract(db'.rows.Keys, Budgets(db'), e.id);
        assert db'.rows.Keys - {e.id} == db.rows.Keys;
        SumSame(db.rows.Keys, Budgets(db'), Budgets(db));
      } else {
        LeftBounds(db, e.id);
        assert db'.rows.Keys == db.rows.Keys;
        SumShift(db.rows.Keys, Budgets(db), Budgets(db'), e.id, Admits(db, e) - if e.Claims? then 1 else 0);
      }
    }
  }

  /** The claims committed from step `i` on and before step `j`. */
  ghost function ClaimsMade(r: Run, i: nat, j: nat): nat
    requires i <= j <= |r.labels| && |r.states| == |r.labels| + 1
  {
    if i == j then 0
    else ClaimsMade(r, i, j - 1) + if EffectOf(r.states[j - 1], r.labels[j - 1]).Claims? then 1 else 0
  }

  ghost function Admitted(r: Run, i: nat, j: nat): nat
    requires i <= j <= |r.labels| && |r.states| == |r.labels| + 1
  {
    if i == j then 0
    else
      var s, e := r.states[j - 1], EffectOf(r.states[j - 1], r.labels[j - 1]);
      Admitted(r, i, j - 1) + if Allowed(s.db, e) then Admits(s.db, e) else 0
  }

  lemma {:induction false} ClaimsUseUpAttempts(cfg: Config, r: Run, i: nat, j: nat)
    requires r.Valid(cfg) && i <= j <= |r.labels|
    ensures ClaimsMade(r, i, j) + Open(r.states[j].db) <= Open(r.states[i].db) + Admitted(r, i, j)
  {
    hide Enabled, Apply, Admits, Open, Written;
    if i < j {
      var s, l := r.states[j - 1], r.labels[j - 1];
      ClaimsUseUpAttempts(cfg, r, i, j - 1);
      ReachableInv(cfg, r, j - 1);
      StepIsAllowedWrite(cfg, s, l);
      WriteAndLeft(s.db, EffectOf(s, l));
    }
  }

  lemma OpenIsNonNegative(db: Db)
    requires Consistent(db)
    ensures Open(db) >= 0
    ensures Open(db) == 0 ==> forall id :: id in db.rows ==> !db.rows[id].status.Waiting()
  {
    forall id | id in db.rows ensures Budgets(db)[id] >= 0 {
      LeftBounds(db, id);
    }
    SumNonNegative(db.rows.Keys, Budgets(db));
    forall id | id in db.rows && db.rows[id].status.Waiting() ensures Open(db) > 0 {
      LeftBounds(db, id);
      SumExtract(db.rows.Keys, Budgets(db), id);
      SumNonNegative(db.rows.Keys - {id}, Budgets(db));
    }
  }

  /**
   Over any stretch of any run, with any workers, outcomes and crashes, there are at most as many claims
   as unfinished rows had attempts left plus the budgets of rows inserted or replayed in between; and
   once there have been that many, no row waits.
   */
  lemma ClaimsAreBounded(cfg: Config, r: Run, i: nat, j: nat)
    requires r.Valid(cfg) && i <= j <= |r.labels|
    ensures ClaimsMade(r, i, j) <= Open(r.states[i].db) + Admitted(r, i, j)
    ensures ClaimsMade(r, i, j) == Open(r.states[i].db) + Admitted(r, i, j) ==>
              forall id :: id in r.states[j].db.rows ==> !r.states[j].db.rows[id].status.Waiting()
  {
    ClaimsUseUpAttempts(cfg, r, i, j);
    ReachableInv(cfg, r, j);
    OpenIsNonNegative(r.states[j].db);
  }
}
