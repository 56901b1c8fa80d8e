/**
 The cooldown map of one worker over whole runs. Nothing is assumed about wall clocks or about
 other workers; only the worker's own monotonic clock must not go back.
 */
module Cooldowns {
  import opened Models
  import opened Protocol
  import opened Claims

  /** What step `l` reads off the monotonic clock of worker `a`, if anything; without a hint no retry reads it. */
  function Tick(s: State, l: Label, a: ActorId): Option<int> {
    if !(l.Worker? && l.actor == a && a in s.actors) then None
    else
      match l.work
      case CheckCooldown(clock) => Some(clock)
      case ComputeDelay(clock) => Some(clock)
      case PlanRetry(_, clock) =>
        if s.actors[a].Raised? && s.actors[a].hint.Some? then Some(clock) else None
      case _ => None
  }

  function TickAt(r: Run, i: nat, a: ActorId): Option<int>
    requires i < |r.labels| && |r.states| == |r.labels| + 1
  {
    Tick(r.states[i], r.labels[i], a)
  }

  ghost predicate OwnClock(r: Run, a: ActorId)
    requires |r.states| == |r.labels| + 1
  {
    forall i, j {:trigger TickAt(r, i, a), TickAt(r, j, a)} :: 0 <= i <= j < |r.labels| ==>
      TickAt(r, i, a).Some? && TickAt(r, j, a).Some? ==> TickAt(r, i, a).value <= TickAt(r, j, a).value
  }

  /** Before step `i` the clock of worker `a` has shown `time` or later. */
  ghost predicate Seen(r: Run, i: nat, a: ActorId, time: int)
    requires i <= |r.labels| && |r.states| == |r.labels| + 1
  {
    exists k :: 0 <= k < i && TickAt(r, k, a).Some? && TickAt(r, k, a).value >= time
  }

  lemma SeenStays(r: Run, i: nat, j: nat, a: ActorId, time: int, earlier: int)
    requires i <= j <= |r.labels| && |r.states| == |r.labels| + 1
    requires Seen(r, i, a, time) && earlier <= time
    ensures Seen(r, j, a, earlier)
  {
    var k :| 0 <= k < i && TickAt(r, k, a).Some? && TickAt(r, k, a).value >= time;
    assert 0 <= k < j && TickAt(r, k, a).Some? && TickAt(r, k, a).value >= earlier;
  }

  /** The worker is inside an adapter call for `target`, or has just been turned away by it. */
  ghost predicate Calling(s: State, a: ActorId, target: string) {
    && a in s.actors
    && (s.actors[a].Executing? || s.actors[a].Raised?)
    && s.actors[a].hold.target == target
  }

  /** A worker enters a call past the cooldown check, and its deadline changes only at the end of a call. */
  lemma StepAndDeadline(cfg: Config, s: State, l: Label, a: ActorId, target: string)
    requires Enabled(cfg, s, l)
    ensures var s' := Apply(cfg, s, l);
            && (Calling(s', a, target) ==>
                  && Until(s', a, target) == Until(s, a, target)
                  && (Calling(s, a, target) || (Tick(s, l, a).Some? && Tick(s, l, a).value >= Until(s, a, target))))
            && (Until(s', a, target) != Until(s, a, target) ==> Calling(s, a, target))
  {
    if !l.Disturb? && l.actor == a {
      match l
      case Submitter(a, op) => SubmitShape(cfg, s, a, s.actors[a], op);
      case Operator(a, op) => ReplayShape(cfg, s, a, s.actors[a], op);
      case Claimer(a, op) => ClaimShape(cfg, s, a, s.actors[a], op);
      case _ =>
    } else {
      StepShape(cfg, s, l);
      if a in s.actors {
        OthersKeepPc(cfg, s, l, a);
      }
    }
  }

  /** During a call the worker's clock has passed the deadline of its target. */
  lemma {:induction false} CallsArePastTheDeadline(cfg: Config, r: Run, i: nat, a: ActorId, target: string)
    requires r.Valid(cfg) && i < |r.states| && Calling(r.states[i], a, target)
    ensures Seen(r, i, a, Until(r.states[i], a, target))
  {
    if i > 0 {
      var s, l := r.states[i - 1], r.labels[i - 1];
      StepAndDeadline(cfg, s, l, a, target);
      if Calling(s, a, target) {
        CallsArePastTheDeadline(cfg, r, i - 1, a, target);
        SeenStays(r, i - 1, i, a, Until(s, a, target), Until(s, a, target));
      } else {
        assert TickAt(r, i - 1, a) == Tick(s, l, a);
      }
    }
  }

  /**
   Once set, a deadline stands until the worker's clock has passed it: over any stretch of any run
   nothing overwrites, pops or shortens an active window.
   */
  lemma {:induction false} WindowOutlasts(
    cfg: Config, r: Run, i: nat, j: nat, a: ActorId, target: string, deadline: int)
    requires r.Valid(cfg) && i <= j < |r.states|
    requires Until(r.states[i], a, target) >= deadline
    ensures Until(r.states[j], a, target) >= deadline || Seen(r, j, a, deadline)
  {
    if i < j {
      var s, l := r.states[j - 1], r.labels[j - 1];
      WindowOutlasts(cfg, r, i, j - 1, a, target, deadline);
      StepAndDeadline(cfg, s, l, a, target);
      if Until(s, a, target) < deadline {
        SeenStays(r, j - 1, j, a, deadline, deadline);
      } else if Until(r.states[j], a, target) != Until(s, a, target) {
        CallsArePastTheDeadline(cfg, r, j - 1, a, target);
        SeenStays(r, j - 1, j, a, Until(s, a, target), deadline);
      }
    }
  }

  /** Step `i`: worker `a` plans a retry with a server hint for `target`. */
  ghost predicate HintedAt(r: Run, i: nat, a: ActorId, target: string)
    requires i < |r.labels| && |r.states| == |r.labels| + 1
  {
    && r.labels[i].Worker? && r.labels[i].actor == a && r.labels[i].work.PlanRetry?
    && a in r.states[i].actors && r.states[i].actors[a].Raised?
    && r.states[i].actors[a].hint.Some? && r.states[i].actors[a].hold.target == target
  }

  /** Step `i`: worker `a` passes the cooldown check for `target` and goes on to call the adapter. */
  ghost predicate CallsAt(r: Run, i: nat, a: ActorId, target: string)
    requires i < |r.labels| && |r.states| == |r.labels| + 1
  {
    && r.labels[i].Worker? && r.labels[i].actor == a && r.labels[i].work.CheckCooldown?
    && a in r.states[i + 1].actors && r.states[i + 1].actors[a].Executing?
    && r.states[i + 1].actors[a].hold.target == target
  }

  /** The deadline that a hint sets is the present plus the hint. */
  lemma HintSetsTheDeadline(cfg: Config, r: Run, i: nat, a: ActorId, target: string)
    requires r.Valid(cfg) && i < |r.labels| && HintedAt(r, i, a, target)
    ensures TickAt(r, i, a) == Some(r.labels[i].work.clock)
    ensures Until(r.states[i + 1], a, target)
            == r.labels[i].work.clock + Seconds(r.states[i].actors[a].hint.value)
  {
    assert r.labels[i] == Worker(a, PlanRetry(r.labels[i].work.random, r.labels[i].work.clock));
  }

  /** A later reading of the worker's clock is past everything that its clock has shown. */
  lemma SeenIsPast(r: Run, i: nat, a: ActorId, time: int)
    requires i < |r.labels| && |r.states| == |r.labels| + 1 && OwnClock(r, a)
    requires Seen(r, i, a, time) && TickAt(r, i, a).Some?
    ensures TickAt(r, i, a).value >= time
  {
    var k :| 0 <= k < i && TickAt(r, k, a).Some? && TickAt(r, k, a).value >= time;
  }

  /** After a 429 with hint h at time t of its own clock, the worker never calls that target again before t + h. */
  lemma HintsAreHonoured(cfg: Config, r: Run, i: nat, j: nat, a: ActorId, target: string)
    requires r.Valid(cfg) && OwnClock(r, a) && i < j < |r.labels|
    requires HintedAt(r, i, a, target) && CallsAt(r, j, a, target)
    ensures r.labels[j].work.clock >= r.labels[i].work.clock + Seconds(r.states[i].actors[a].hint.value)
  {
    var deadline := r.labels[i].work.clock + Seconds(r.states[i].actors[a].hint.value);
    HintSetsTheDeadline(cfg, r, i, a, target);
    WindowOutlasts(cfg, r, i + 1, j, a, target, deadline);
    assert r.labels[j] == Worker(a, CheckCooldown(r.labels[j].work.clock));
    assert TickAt(r, j, a) == Some(r.labels[j].work.clock);
    if Seen(r, j, a, deadline) {
      SeenIsPast(r, j, a, deadline);
    }
  }

  /** The deadlines that a worker sets for one target never decrease, over whole runs. */
  lemma DeadlinesNeverDecrease(cfg: Config, r: Run, i: nat, j: nat, a: ActorId, target: string)
    requires r.Valid(cfg) && OwnClock(r, a) && i < j < |r.labels|
    requires HintedAt(r, i, a, target) && HintedAt(r, j, a, target)
    ensures Until(r.states[i + 1], a, target)
            == r.labels[i].work.clock + Seconds(r.states[i].actors[a].hint.value)
    ensures Until(r.states[j + 1], a, target) >= Until(r.states[i + 1], a, target)
  {
    var deadline := Until(r.states[i + 1], a, target);
    HintSetsTheDeadline(cfg, r, i, a, target);
    HintSetsTheDeadline(cfg, r, j, a, target);
    WindowOutlasts(cfg, r, i + 1, j, a, target, deadline);
    CallsArePastTheDeadline(cfg, r, j, a, target);
    if Seen(r, j, a, deadline) {
      SeenIsPast(r, j, a, deadline);
    } else {
      SeenIsPast(r, j, a, Until(r.states[j], a, target));
    }
  }
}
