/**
 Runs on one shared clock, where the wall clock and the monotonic clock of all actors advance
 together. Only results that compare readings of different clocks need it.
 */
module Timing {
  import opened Models
  import opened Protocol
  import opened Claims
  import opened LogOrder

  /** The clock reading that a step takes, if it takes one. */
  function Reading(l: Label): Option<int> {
    match l
    case Submitter(_, Begin(_, _, now)) => Some(now)
    case Operator(_, Ask(_, now)) => Some(now)
    case Claimer(_, Consume(now)) => Some(now)
    case Claimer(_, Poll(now)) => Some(now)
    case Worker(_, CheckCooldown(clock)) => Some(clock)
    case Worker(_, ComputeDelay(clock)) => Some(clock)
    case Worker(_, CommitSuccess(now)) => Some(now)
    case Worker(_, PlanRetry(_, clock)) => Some(clock)
    case Worker(_, CommitFailure(now)) => Some(now)
    case _ => None
  }

  predicate Reads(l: Label, time: int) {
    Reading(l).Some? ==> Reading(l).value == time
  }

  /** Step `i` happens at `times[i]`, and every clock it reads shows that time. */
  ghost predicate OnClock(r: Run, times: seq<int>) {
    && |times| == |r.labels|
    && (forall i, j :: 0 <= i <= j < |times| ==> times[i] <= times[j])
    && forall i {:trigger r.labels[i]} :: 0 <= i < |times| ==> Reads(r.labels[i], times[i])
  }

  // ----- Nothing remembered lies in the future

  ghost predicate PcInPast(pc: Pc, time: int) {
    && (pc.Targeting? || pc.Polling? || pc.Claiming? ==> pc.now <= time)
    && (HoldOf(pc).Some? ==> HoldOf(pc).value.claimedAt <= time)
    && (pc.Deferring? ==> pc.until > pc.hold.claimedAt)
  }

  ghost predicate InPast(s: State, time: int) {
    forall a {:trigger s.actors[a]} :: a in s.actors ==> PcInPast(s.actors[a], time)
  }

  lemma WorkInPast(cfg: Config, s: State, a: ActorId, op: WorkOp, time: int)
    requires a in s.actors && CanWork(s.actors[a], op) && PcInPast(s.actors[a], time)
    requires Reads(Worker(a, op), time)
    ensures var s' := DoWork(cfg, s, a, s.actors[a], op);
            a in s'.actors && PcInPast(s'.actors[a], time)
  {
  }

  lemma ClaimInPast(cfg: Config, s: State, a: ActorId, op: ClaimOp, time: int)
    requires a in s.actors && CanClaim(cfg, s, a, s.actors[a], op) && PcInPast(s.actors[a], time)
    requires Reads(Claimer(a, op), time)
    ensures var s' := DoClaim(cfg, s, a, s.actors[a], op);
            a in s'.actors && PcInPast(s'.actors[a], time)
  {
  }

  lemma OwnPcInPast(cfg: Config, s: State, l: Label, time: int)
    requires Enabled(cfg, s, l) && !l.Disturb? && Reads(l, time) && InPast(s, time)
    ensures l.actor in Apply(cfg, s, l).actors
    ensures PcInPast(Apply(cfg, s, l).actors[l.actor], time)
  {
    assert PcInPast(s.actors[l.actor], time);
    match l
    case Worker(a, op) => WorkInPast(cfg, s, a, op, time);
    case Claimer(a, op) => ClaimInPast(cfg, s, a, op, time);
    case Submitter(a, op) => SubmitShape(cfg, s, a, s.actors[a], op);
    case Operator(a, op) => ReplayShape(cfg, s, a, s.actors[a], op);
    case _ =>
  }

  lemma StepInPast(cfg: Config, s: State, l: Label, time: int)
    requires Enabled(cfg, s, l) && Reads(l, time) && InPast(s, time)
    ensures InPast(Apply(cfg, s, l), time)
  {
    var s' := Apply(cfg, s, l);
    forall a | a in s'.actors ensures PcInPast(s'.actors[a], time) {
      if !l.Disturb? && l.actor == a {
        OwnPcInPast(cfg, s, l, time);
      } else {
        assert a in s.actors;
        OthersKeepPc(cfg, s, l, a);
        assert PcInPast(s.actors[a], time);
      }
    }
  }

  lemma {:induction false} RunInPast(cfg: Config, r: Run, times: seq<int>, i: nat)
    requires r.Valid(cfg) && OnClock(r, times) && i < |r.labels|
    ensures InPast(r.states[i], times[i])
  {
    if i > 0 {
      RunInPast(cfg, r, times, i - 1);
      StepInPast(cfg, r.states[i - 1], r.labels[i - 1], times[i - 1]);
      assert InPast(r.states[i], times[i - 1]);
    }
  }

  /** A shared clock makes every finish steady, so all the ordering results apply. */
  lemma ClockIsSteady(cfg: Config, r: Run, times: seq<int>, i: nat)
    requires r.Valid(cfg) && OnClock(r, times) && i < |r.labels|
    ensures Steady(r.states[i], r.labels[i])
  {
    RunInPast(cfg, r, times, i);
    if !r.labels[i].Disturb? && r.labels[i].actor in r.states[i].actors {
      assert PcInPast(r.states[i].actors[r.labels[i].actor], times[i]);
    }
  }
}
