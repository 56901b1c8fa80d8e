/**
 What one request's audit log says on its own: a fold that rebuilds the row from the log,
 and counting facts about every log on which the fold succeeds.
 */
module Lifecycle {
  import opened Models

  /** What the log determines about a row; `cycle` is the number of replays so far. */
  datatype Life = Life(
    status: Status,
    detail: Detail,
    attempts: int,
    cycle: nat,
    createdAt: Instant,
    updatedAt: Instant)

  /** The effect of one more event, or `None` when the event cannot follow. */
  function Advance(life: Life, e: Event, budget: int): Option<Life> {
    var moved := life.(status := e.status, detail := e.detail, updatedAt := e.createdAt);
    match e.status
    case Running =>
      if life.status.Waiting() then Some(moved.(attempts := life.attempts + 1)) else None
    case Retrying =>
      if life.status.Running? && life.attempts < budget then Some(moved) else None
    case DeadLetter =>
      if life.status.Running? && life.attempts >= budget then Some(moved) else None
    case Completed =>
      if life.status.Running? then Some(moved) else None
    case Queued =>
      if life.status.DeadLetter? then Some(moved.(attempts := 0, cycle := life.cycle + 1)) else None
    case Accepted => None
    case Failed => None
  }

  /** Rebuilds a row from its log; `None` when the log is not a possible history. */
  function Rebuild(log: seq<Event>, budget: int): Option<Life> {
    if |log| == 0 then None
    else
      var e := log[|log| - 1];
      if |log| == 1 then
        if e.status.Queued? then Some(Life(Queued, e.detail, 0, 0, e.createdAt, e.createdAt)) else None
      else
        match Rebuild(log[..|log| - 1], budget)
        case None => None
        case Some(life) => Advance(life, e, budget)
  }

  lemma RebuildAppend(log: seq<Event>, e: Event, budget: int)
    requires |log| > 0
    ensures Rebuild(log + [e], budget) ==
            match Rebuild(log, budget) { case None => None case Some(life) => Advance(life, e, budget) }
  {
    assert (log + [e])[..|log|] == log;
  }

  // ----- Reference definitions that do not mention the fold

  function CountOf(log: seq<Event>, status: Status): nat {
    if |log| == 0 then 0
    else CountOf(log[..|log| - 1], status) + if log[|log| - 1].status == status then 1 else 0
  }

  /** The number of RUNNING events after the last QUEUED one. */
  function RunsThisCycle(log: seq<Event>): nat {
    if |log| == 0 || log[|log| - 1].status.Queued? then 0
    else RunsThisCycle(log[..|log| - 1]) + if log[|log| - 1].status.Running? then 1 else 0
  }

  lemma CountAppend(log: seq<Event>, e: Event, status: Status)
    ensures CountOf(log + [e], status) == CountOf(log, status) + if e.status == status then 1 else 0
    ensures RunsThisCycle(log + [e]) ==
            if e.status.Queued? then 0 else RunsThisCycle(log) + if e.status.Running? then 1 else 0
  {
    assert (log + [e])[..|log|] == log;
  }

  /** The edges of the documented lifecycle. */
  predicate Follows(earlier: Status, later: Status) {
    match earlier
    case Queued => later.Running?
    case Retrying => later.Running?
    case Running => later.Completed? || later.Retrying? || later.DeadLetter?
    case DeadLetter => later.Queued?
    case _ => false
  }

  /** A word of the lifecycle automaton. */
  ghost predicate IsWord(log: seq<Event>) {
    && |log| > 0
    && log[0].status.Queued?
    && forall k :: 1 <= k < |log| ==> Follows(log[k - 1].status, log[k].status)
  }

  // ----- The fold agrees with the reference definitions

  /** The attempt counter of the row is the number of RUNNING events since the last QUEUED one. */
  lemma {:induction false} AttemptsAreRuns(log: seq<Event>, budget: int)
    requires Rebuild(log, budget).Some?
    ensures Rebuild(log, budget).value.attempts == RunsThisCycle(log)
  {
    if |log| > 1 {
      AttemptsAreRuns(log[..|log| - 1], budget);
    }
  }

  lemma WordSplit(log: seq<Event>)
    requires |log| > 1
    ensures IsWord(log) <==>
            IsWord(log[..|log| - 1]) && Follows(log[|log| - 2].status, log[|log| - 1].status)
  {
    var rest := log[..|log| - 1];
    if IsWord(rest) && Follows(log[|log| - 2].status, log[|log| - 1].status) {
      forall k | 1 <= k < |log| ensures Follows(log[k - 1].status, log[k].status) {
        if k < |rest| {
          assert Follows(rest[k - 1].status, rest[k].status);
        }
      }
    }
  }

  /** What the attempt budget demands of an event that follows `log`. */
  ghost predicate BudgetAllows(log: seq<Event>, e: Event, budget: int) {
    && (e.status.Retrying? ==> RunsThisCycle(log) < budget)
    && (e.status.DeadLetter? ==> RunsThisCycle(log) >= budget)
  }

  /** A failed attempt is retried exactly while the cycle still has attempts left. */
  ghost predicate WithinBudget(log: seq<Event>, budget: int) {
    forall k :: 0 <= k < |log| ==> BudgetAllows(log[..k], log[k], budget)
  }

  lemma BudgetSplit(log: seq<Event>, budget: int)
    requires |log| > 0
    ensures WithinBudget(log, budget) <==>
            WithinBudget(log[..|log| - 1], budget) && BudgetAllows(log[..|log| - 1], log[|log| - 1], budget)
  {
    var rest := log[..|log| - 1];
    assert forall k :: 0 <= k < |rest| ==> rest[..k] == log[..k] && rest[k] == log[k];
    if WithinBudget(log, budget) {
      forall k | 0 <= k < |rest| ensures BudgetAllows(rest[..k], rest[k], budget) {
        assert BudgetAllows(log[..k], log[k], budget);
      }
    }
    if WithinBudget(rest, budget) && BudgetAllows(rest, log[|log| - 1], budget) {
      forall k | 0 <= k < |log| ensures BudgetAllows(log[..k], log[k], budget) {
        if k < |rest| {
          assert BudgetAllows(rest[..k], rest[k], budget);
        }
      }
    }
  }

  /** The fold succeeds exactly on the words of the automaton that respect the attempt budget. */
  lemma {:induction false} RebuildsExactlyWords(log: seq<Event>, budget: int)
    ensures Rebuild(log, budget).Some? <==> IsWord(log) && WithinBudget(log, budget)
  {
    if |log| > 0 {
      BudgetSplit(log, budget);
    }
    if |log| > 1 {
      var rest := log[..|log| - 1];
      WordSplit(log);
      RebuildsExactlyWords(rest, budget);
      if Rebuild(rest, budget).Some? {
        LastSummary(rest, budget);
        AttemptsAreRuns(rest, budget);
      }
    }
  }

  /** The fold reads status, detail and both timestamps off the ends of the log. */
  lemma {:induction false} LastSummary(log: seq<Event>, budget: int)
    requires Rebuild(log, budget).Some?
    ensures var life := Rebuild(log, budget).value; var last := log[|log| - 1];
            && life.status == last.status && life.detail == last.detail
            && life.updatedAt == last.createdAt && life.createdAt == log[0].createdAt
  {
    if |log| > 1 {
      LastSummary(log[..|log| - 1], budget);
    }
  }

  /** How many attempts each status allows. */
  lemma {:induction false} AttemptBounds(log: seq<Event>, budget: int)
    requires budget >= 1
    requires Rebuild(log, budget).Some?
    ensures var life := Rebuild(log, budget).value;
            && !life.status.Accepted? && !life.status.Failed?
            && (life.status.Waiting() ==> 0 <= life.attempts < budget)
            && (life.status.Running? || life.status.Completed? ==> 1 <= life.attempts <= budget)
            && (life.status.DeadLetter? ==> life.attempts == budget)
  {
    if |log| > 1 {
      AttemptBounds(log[..|log| - 1], budget);
    }
  }

  /**
   Lifetime accounting: one QUEUED event per submission or replay, one DEAD_LETTER event per
   exhausted cycle, and the balance between attempts started and attempts finished.
   */
  lemma {:induction false} LifetimeAccounting(log: seq<Event>, budget: int)
    requires Rebuild(log, budget).Some?
    ensures var life := Rebuild(log, budget).value;
            && CountOf(log, Queued) == 1 + life.cycle
            && CountOf(log, DeadLetter) == life.cycle + (if life.status.DeadLetter? then 1 else 0)
            && CountOf(log, Completed) == (if life.status.Completed? then 1 else 0)
            && CountOf(log, Running) - (CountOf(log, Retrying) + CountOf(log, Completed) + CountOf(log, DeadLetter))
               == (if life.status.Running? then 1 else 0)
  {
    if |log| == 1 {
      assert log[..0] == [];
    } else {
      LifetimeAccounting(log[..|log| - 1], budget);
    }
  }

  lemma Distribute(a: int, b: int)
    ensures (a + 1) * b == a * b + b
  {
  }

  /** Every exhausted cycle has used its whole budget, and the current one what the row says. */
  lemma {:induction false} RunningAccounting(log: seq<Event>, budget: int)
    requires budget >= 1
    requires Rebuild(log, budget).Some?
    ensures var life := Rebuild(log, budget).value;
            CountOf(log, Running) == life.cycle * budget + life.attempts
  {
    if |log| > 1 {
      var rest := log[..|log| - 1];
      RunningAccounting(rest, budget);
      AttemptBounds(rest, budget);
      Distribute(Rebuild(rest, budget).value.cycle, budget);
    } else {
      assert log[..0] == [];
    }
  }
}
