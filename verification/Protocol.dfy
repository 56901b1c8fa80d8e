/**
 The running system as a state machine: any number of actors, each of which may act as a
 submitter, an operator or a worker, over shared tables and an unreliable broker list.
 Every database transaction that reads before it writes is split at the point where other
 transactions may come in between. Clock readings are arguments of the steps and carry no
 assumption here; `Timing` adds them.
 */
module Protocol {
  import opened Models
  import opened Tables
  import Backoff

  type ActorId = nat

  /** `rowLocks`: FOR UPDATE (SKIP LOCKED) on rows; otherwise one immediate write lock for the database. */
  datatype Config = Config(rowLocks: bool, brokered: bool, policy: Backoff.Policy)

  /** What a worker knows about the claim it is working on. */
  datatype Hold = Hold(id: RequestId, attempt: int, claimedAt: Instant, target: string)

  datatype Pc =
    | Idle
      // a submitter inside `submit`
    | LookingUp(candidate: RequestId, request: AutomationRequest, now: Instant)
    | Inserting(candidate: RequestId, request: AutomationRequest, now: Instant)
    | LookingAgain(request: AutomationRequest)
    | Stored(id: RequestId, request: AutomationRequest)
    | Announced(id: RequestId)
    | Rejected
      // an operator inside `replay_dead_letter`
    | AskedReplay(id: RequestId, now: Instant)
    | Replaying(seen: Row, now: Instant)
    | Requeued(id: RequestId)
      // a worker inside `run_once`
    | Targeting(id: RequestId, now: Instant)
    | Missed
    | Polling(now: Instant)
    | Claiming(seen: Row, now: Instant)
    | Holding(hold: Hold)
    | Deferring(hold: Hold, until: int)
    | Executing(hold: Hold)
    | Succeeding(hold: Hold, text: string)
    | Raised(hold: Hold, hint: Option<nat>, cause: string)
    | Failing(hold: Hold, delay: int, cause: string)
    | FailRead(hold: Hold, delay: int, cause: string, attempt: int, budget: int)
    | Broken
    | Crashed(lost: Option<Hold>)

  datatype State = State(
    db: Db,
    actors: map<ActorId, Pc>,
    cooldowns: map<(ActorId, string), int>,
    broker: seq<RequestId>,
    published: set<RequestId>,
    used: set<RequestId>)

  datatype SubmitOp =
    | Begin(request: AutomationRequest, candidate: RequestId, now: Instant)
    | LookUp(found: Option<RequestId>)
    | InsertRow
    | LookAgain(found: Option<RequestId>)
    | Publish
    | ReadBack

  datatype ReplayOp =
    | Ask(id: RequestId, now: Instant)
    | LockLetter
    | CommitReplay
    | Republish

  datatype ClaimOp =
    | Consume(now: Instant)
    | Poll(now: Instant)
    | Target
    | Pick(id: RequestId)
    | FindNothing
    | CommitClaim

  datatype WorkOp =
    | CheckCooldown(clock: int)
    | ComputeDelay(clock: int)
    | Succeed(text: string)
    | CommitSuccess(now: Instant)
    | Raise(hint: Option<nat>, cause: string)
    | PlanRetry(random: real, clock: int)
    | ReadAttempts
    | CommitFailure(now: Instant)

  /** One step of the system: an actor in one of its roles, a crash, or the broker acting up. */
  datatype Label =
    | Submitter(actor: ActorId, submit: SubmitOp)
    | Operator(actor: ActorId, replay: ReplayOp)
    | Claimer(actor: ActorId, claim: ClaimOp)
    | Worker(actor: ActorId, work: WorkOp)
    | Crash(actor: ActorId)
    | Disturb(items: seq<RequestId>)

  // ----- What a program counter implies

  /** The row that an open claiming or replaying transaction has locked. */
  function LockOf(pc: Pc): Option<RequestId> {
    if pc.Claiming? || pc.Replaying? then Some(pc.seen.id) else None
  }

  /** The claim a worker has committed and not finished; a crash does not give it up. */
  function HoldOf(pc: Pc): Option<Hold> {
    match pc
    case Holding(hold) => Some(hold)
    case Deferring(hold, _) => Some(hold)
    case Executing(hold) => Some(hold)
    case Succeeding(hold, _) => Some(hold)
    case Raised(hold, _, _) => Some(hold)
    case Failing(hold, _, _) => Some(hold)
    case FailRead(hold, _, _, _, _) => Some(hold)
    case Crashed(lost) => lost
    case _ => None
  }

  predicate Holds(pc: Pc, id: RequestId) {
    HoldOf(pc).Some? && HoldOf(pc).value.id == id
  }

  function With(s: State, a: ActorId, pc: Pc): State {
    s.(actors := s.actors[a := pc])
  }

  function Until(s: State, a: ActorId, target: string): int {
    if (a, target) in s.cooldowns then s.cooldowns[(a, target)] else 0
  }

  /** The global write lock is free; with row locks a transaction may always begin. */
  ghost predicate MayBegin(cfg: Config, s: State, a: ActorId) {
    cfg.rowLocks || forall b :: b in s.actors && b != a ==> LockOf(s.actors[b]).None?
  }

  ghost predicate Unlocked(s: State, a: ActorId, id: RequestId) {
    forall b :: b in s.actors && b != a ==> LockOf(s.actors[b]) != Some(id)
  }

  ghost function LockedByOthers(s: State, a: ActorId): set<RequestId> {
    set id | id in s.db.rows && !Unlocked(s, a, id)
  }

  ghost predicate Claimable(s: State, a: ActorId, id: RequestId, now: Instant) {
    Takeable(s.db.rows, LockedByOthers(s, a), id, now)
  }

  /** First in the order of `created_at` among the rows that the claiming query can lock. */
  ghost predicate Oldest(s: State, a: ActorId, id: RequestId, now: Instant) {
    First(s.db.rows, LockedByOthers(s, a), id, now)
  }

  /** What a lookup by idempotency key returns. */
  ghost predicate Finds(rows: map<RequestId, Row>, key: Option<string>, found: Option<RequestId>) {
    match found
    case Some(id) => id in rows && rows[id].fields.idempotencyKey == key
    case None => key.Some? ==> !KeyTaken(rows, key.value)
  }

  /** The remaining cooldown in whole seconds, truncated toward zero, but at least one. */
  function DeferSeconds(until: int, clock: int): int {
    if until >= clock then Backoff.Max(1, (until - clock) / 1_000_000) else 1
  }

  function PlannedDelay(cfg: Config, s: State, pc: Pc, random: real): int
    requires pc.Raised?
  {
    if pc.hint.Some? then pc.hint.value
    else
      var attempt := if pc.hold.id in s.db.rows then s.db.rows[pc.hold.id].attemptCount else 1;
      Backoff.Delay(cfg.policy, attempt, random)
  }

  // ----- Steps

  /** `create` and `submit`: lookup, insert or violate, second lookup, publish, read back. */
  ghost predicate CanSubmit(s: State, pc: Pc, op: SubmitOp) {
    match op
    case Begin(_, candidate, _) => pc.Idle? && candidate !in s.used
    case LookUp(found) => pc.LookingUp? && Finds(s.db.rows, pc.request.idempotencyKey, found)
    case InsertRow => pc.Inserting?
    case LookAgain(found) => pc.LookingAgain? && Finds(s.db.rows, pc.request.idempotencyKey, found)
    case Publish => pc.Stored?
    case ReadBack => pc.Announced?
  }

  ghost function DoSubmit(cfg: Config, s: State, a: ActorId, pc: Pc, op: SubmitOp): State
    requires CanSubmit(s, pc, op)
  {
    match op
    case Begin(request, candidate, now) =>
      With(s, a, if request.idempotencyKey.Some? then LookingUp(candidate, request, now)
                 else Inserting(candidate, request, now)).(used := s.used + {candidate})
    case LookUp(found) =>
      With(s, a, if found.Some? then Stored(found.value, pc.request)
                 else Inserting(pc.candidate, pc.request, pc.now))
    case InsertRow =>
      if !Violates(s.db.rows, pc.candidate, pc.request) then
        With(s, a, Stored(pc.candidate, pc.request))
        .(db := Put(s.db, pc.candidate, NewRow(pc.candidate, pc.request, pc.now)))
      else
        With(s, a, if pc.request.idempotencyKey.Some? then LookingAgain(pc.request) else Rejected)
    case LookAgain(found) =>
      With(s, a, if found.Some? then Stored(found.value, pc.request) else Rejected)
    case Publish =>
      Published(cfg, With(s, a, Announced(pc.id)), pc.id)
    case ReadBack =>
      With(s, a, if pc.id in s.db.rows then Idle else Rejected)
  }

  function Published(cfg: Config, s: State, id: RequestId): State {
    if cfg.brokered then s.(broker := s.broker + [id], published := s.published + {id}) else s
  }

  /** `replay_dead_letter`: a clock reading, a blocking row lock with the status check, the update, a publish. */
  ghost predicate CanReplay(cfg: Config, s: State, a: ActorId, pc: Pc, op: ReplayOp) {
    match op
    case Ask(_, _) => pc.Idle?
    case LockLetter => pc.AskedReplay? && MayBegin(cfg, s, a) && Unlocked(s, a, pc.id)
    case CommitReplay => pc.Replaying?
    case Republish => pc.Requeued?
  }

  ghost function DoReplay(cfg: Config, s: State, a: ActorId, pc: Pc, op: ReplayOp): State
    requires CanReplay(cfg, s, a, pc, op)
  {
    match op
    case Ask(id, now) => With(s, a, AskedReplay(id, now))
    case LockLetter =>
      With(s, a, if pc.id in s.db.rows && s.db.rows[pc.id].status.DeadLetter? then Replaying(s.db.rows[pc.id], pc.now)
                 else Idle)
    case CommitReplay =>
      var id := pc.seen.id;
      if id in s.db.rows then With(s, a, Requeued(id)).(db := Put(s.db, id, RequeuedRow(s.db.rows[id], pc.now)))
      else With(s, a, Broken)
    case Republish => Published(cfg, With(s, a, Idle), pc.id)
  }

  /**
   The claiming half of `run_once`: a broker item first; if its row cannot be claimed, or without an item,
   another clock reading and the oldest eligible row.
   */
  ghost predicate CanClaim(cfg: Config, s: State, a: ActorId, pc: Pc, op: ClaimOp) {
    match op
    case Consume(_) => pc.Idle? && cfg.brokered
    case Poll(_) => (pc.Idle? && !cfg.brokered) || pc.Missed?
    case Target => pc.Targeting? && MayBegin(cfg, s, a)
    case Pick(id) => pc.Polling? && MayBegin(cfg, s, a) && Oldest(s, a, id, pc.now)
    case FindNothing => pc.Polling? && MayBegin(cfg, s, a) && forall id :: !Claimable(s, a, id, pc.now)
    case CommitClaim => pc.Claiming?
  }

  ghost function DoClaim(cfg: Config, s: State, a: ActorId, pc: Pc, op: ClaimOp): State
    requires CanClaim(cfg, s, a, pc, op)
  {
    match op
    case Consume(now) =>
      if s.broker == [] then With(s, a, Polling(now))
      else With(s, a, Targeting(s.broker[0], now)).(broker := s.broker[1..])
    case Poll(now) => With(s, a, Polling(now))
    case Target =>
      With(s, a, if Claimable(s, a, pc.id, pc.now) then Claiming(s.db.rows[pc.id], pc.now) else Missed)
    case Pick(id) => With(s, a, Claiming(s.db.rows[id], pc.now))
    case FindNothing => With(s, a, Idle)
    case CommitClaim =>
      var id := pc.seen.id;
      if id in s.db.rows then
        With(s, a, Holding(HoldFrom(pc.seen, pc.now)))
        .(db := Put(s.db, id, Claimed(s.db.rows[id], pc.seen.attemptCount, pc.now)))
      else With(s, a, Broken)
  }

  function HoldFrom(seen: Row, now: Instant): Hold {
    Hold(seen.id, seen.attemptCount + 1, now, seen.fields.target)
  }

  /** The executing half of `run_once`: cooldown, adapter, re-read, retry decision, finish. */
  ghost predicate CanWork(pc: Pc, op: WorkOp) {
    match op
    case CheckCooldown(_) => pc.Holding?
    case ComputeDelay(_) => pc.Deferring?
    case Succeed(_) => pc.Executing?
    case CommitSuccess(_) => pc.Succeeding?
    case Raise(_, _) => pc.Executing?
    case PlanRetry(random, _) => pc.Raised? && 0.0 <= random < 1.0
    case ReadAttempts => pc.Failing?
    case CommitFailure(_) => pc.FailRead?
  }

  ghost function DoWork(cfg: Config, s: State, a: ActorId, pc: Pc, op: WorkOp): State
    requires CanWork(pc, op)
  {
    match op
    case CheckCooldown(clock) =>
      var until := Until(s, a, pc.hold.target);
      With(s, a, if until > clock then Deferring(pc.hold, until) else Executing(pc.hold))
    case ComputeDelay(clock) =>
      With(s, a, Failing(pc.hold, DeferSeconds(pc.until, clock), "cooling down"))
    case Succeed(text) =>
      With(s, a, Succeeding(pc.hold, text)).(cooldowns := s.cooldowns - {(a, pc.hold.target)})
    case CommitSuccess(now) =>
      var id := pc.hold.id;
      if id in s.db.rows then
        With(s, a, Idle).(db := Put(s.db, id, WithStatus(s.db.rows[id], Completed, Outcome(pc.text), now)))
      else With(s, a, Broken)
    case Raise(hint, cause) =>
      With(s, a, Raised(pc.hold, hint, cause))
    case PlanRetry(random, clock) =>
      var delay := PlannedDelay(cfg, s, pc, random);
      With(s, a, Failing(pc.hold, delay, pc.cause))
      .(cooldowns := if pc.hint.Some? then s.cooldowns[(a, pc.hold.target) := clock + Seconds(delay)] else s.cooldowns)
    case ReadAttempts =>
      With(s, a, if pc.hold.id in s.db.rows
                 then FailRead(pc.hold, pc.delay, pc.cause, s.db.rows[pc.hold.id].attemptCount,
                               s.db.rows[pc.hold.id].fields.maxAttempts)
                 else Broken)
    case CommitFailure(now) =>
      var id := pc.hold.id;
      if id in s.db.rows then
        With(s, a, Idle)
        .(db := Put(s.db, id, FailedRow(s.db.rows[id], pc.attempt, pc.budget, pc.cause, pc.delay, now)))
      else With(s, a, Broken)
  }

  ghost predicate Enabled(cfg: Config, s: State, l: Label) {
    && (!l.Disturb? ==> l.actor in s.actors)
    && match l
       case Submitter(a, op) => CanSubmit(s, s.actors[a], op)
       case Operator(a, op) => CanReplay(cfg, s, a, s.actors[a], op)
       case Claimer(a, op) => CanClaim(cfg, s, a, s.actors[a], op)
       case Worker(a, op) => CanWork(s.actors[a], op)
       case Crash(a) => !s.actors[a].Broken? && !s.actors[a].Crashed? && !s.actors[a].Rejected?
       case Disturb(_) => true
  }

  ghost function Apply(cfg: Config, s: State, l: Label): State
    requires Enabled(cfg, s, l)
  {
    match l
    case Submitter(a, op) => DoSubmit(cfg, s, a, s.actors[a], op)
    case Operator(a, op) => DoReplay(cfg, s, a, s.actors[a], op)
    case Claimer(a, op) => DoClaim(cfg, s, a, s.actors[a], op)
    case Worker(a, op) => DoWork(cfg, s, a, s.actors[a], op)
    case Crash(a) => With(s, a, Crashed(HoldOf(s.actors[a])))
    case Disturb(items) => s.(broker := items)
  }

  // ----- Which program counter each role can lead to; no step moves another actor

  lemma SubmitShape(cfg: Config, s: State, a: ActorId, pc: Pc, op: SubmitOp)
    requires CanSubmit(s, pc, op)
    ensures var s' := DoSubmit(cfg, s, a, pc, op);
            && a in s'.actors && s'.actors == s.actors[a := s'.actors[a]] && s'.cooldowns == s.cooldowns
            && var pc' := s'.actors[a];
               pc'.Idle? || pc'.LookingUp? || pc'.Inserting? || pc'.LookingAgain? || pc'.Stored?
               || pc'.Announced? || pc'.Rejected?
  {
  }

  lemma ReplayShape(cfg: Config, s: State, a: ActorId, pc: Pc, op: ReplayOp)
    requires CanReplay(cfg, s, a, pc, op)
    ensures var s' := DoReplay(cfg, s, a, pc, op);
            && a in s'.actors && s'.actors == s.actors[a := s'.actors[a]] && s'.cooldowns == s.cooldowns
            && var pc' := s'.actors[a];
               pc'.Idle? || pc'.AskedReplay? || pc'.Replaying? || pc'.Requeued? || pc'.Broken?
  {
  }

  lemma ClaimShape(cfg: Config, s: State, a: ActorId, pc: Pc, op: ClaimOp)
    requires CanClaim(cfg, s, a, pc, op)
    ensures var s' := DoClaim(cfg, s, a, pc, op);
            && a in s'.actors && s'.actors == s.actors[a := s'.actors[a]] && s'.cooldowns == s.cooldowns
            && var pc' := s'.actors[a];
               pc'.Idle? || pc'.Targeting? || pc'.Missed? || pc'.Polling?
               || pc'.Claiming? || pc'.Holding? || pc'.Broken?
  {
  }

  lemma WorkShape(cfg: Config, s: State, a: ActorId, pc: Pc, op: WorkOp)
    requires CanWork(pc, op)
    ensures var s' := DoWork(cfg, s, a, pc, op);
            && a in s'.actors && s'.actors == s.actors[a := s'.actors[a]]
            && forall b, target :: b != a ==> Until(s', b, target) == Until(s, b, target)
  {
  }

  lemma StepShape(cfg: Config, s: State, l: Label)
    requires Enabled(cfg, s, l)
    ensures var s' := Apply(cfg, s, l);
            if l.Disturb? then s'.actors == s.actors && s'.cooldowns == s.cooldowns
            else
              && l.actor in s'.actors && s'.actors == s.actors[l.actor := s'.actors[l.actor]]
              && (forall b, target :: b != l.actor || !l.Worker? ==> Until(s', b, target) == Until(s, b, target))
  {
    match l
    case Submitter(a, op) => SubmitShape(cfg, s, a, s.actors[a], op);
    case Operator(a, op) => ReplayShape(cfg, s, a, s.actors[a], op);
    case Claimer(a, op) => ClaimShape(cfg, s, a, s.actors[a], op);
    case Worker(a, op) => WorkShape(cfg, s, a, s.actors[a], op);
    case _ =>
  }

  // ----- Runs

  ghost predicate Initial(s: State) {
    && s.db == EMPTY
    && (forall a :: a in s.actors ==> s.actors[a].Idle?)
    && s.cooldowns == map[]
    && s.published == {}
  }

  datatype Run = Run(states: seq<State>, labels: seq<Label>) {
    ghost predicate Steps(cfg: Config) {
      && |states| == |labels| + 1
      && forall i {:trigger labels[i]} :: 0 <= i < |labels| ==>
           Enabled(cfg, states[i], labels[i]) && states[i + 1] == Apply(cfg, states[i], labels[i])
    }

    ghost predicate Valid(cfg: Config) {
      Steps(cfg) && Initial(states[0])
    }
  }
}
