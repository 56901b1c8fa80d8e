/**
 A queue without workers, locks, broker, texts or logs: each request is an entry that is
 waiting, taken, done or dead, and each operation is one guarded atomic change.
 */
module AtomicQueue {
  import opened Models

  datatype Ticket =
    | Waiting(tries: int, due: Instant)
    | Taken(tries: int)
    | Done(tries: int)
    | Dead

  datatype Entry = Entry(budget: int, ticket: Ticket)

  type Queue = map<RequestId, Entry>

  datatype Op =
    | Skip
    | Enqueue(id: RequestId, budget: int, due: Instant)
    | Take(id: RequestId, now: Instant)
    | Finish(id: RequestId, attempt: int)
    | Retry(id: RequestId, attempt: int, due: Instant)
    | Bury(id: RequestId, attempt: int)
    | Revive(id: RequestId, due: Instant)

  predicate CanDo(q: Queue, op: Op) {
    match op
    case Skip => true
    case Enqueue(id, budget, _) => id !in q && budget >= 1
    case Take(id, now) => id in q && q[id].ticket.Waiting? && q[id].ticket.due <= now
    case Finish(id, attempt) => id in q && q[id].ticket == Taken(attempt)
    case Retry(id, attempt, _) => id in q && q[id].ticket == Taken(attempt) && attempt < q[id].budget
    case Bury(id, attempt) => id in q && q[id].ticket == Taken(attempt) && attempt == q[id].budget
    case Revive(id, _) => id in q && q[id].ticket.Dead?
  }

  function Do(q: Queue, op: Op): Queue
    requires CanDo(q, op)
  {
    match op
    case Skip => q
    case Enqueue(id, budget, due) => q[id := Entry(budget, Waiting(0, due))]
    case Take(id, _) => q[id := q[id].(ticket := Taken(q[id].ticket.tries + 1))]
    case Finish(id, attempt) => q[id := q[id].(ticket := Done(attempt))]
    case Retry(id, attempt, due) => q[id := q[id].(ticket := Waiting(attempt, due))]
    case Bury(id, _) => q[id := q[id].(ticket := Dead)]
    case Revive(id, due) => q[id := q[id].(ticket := Waiting(0, due))]
  }

  ghost predicate IsRun(queues: seq<Queue>, ops: seq<Op>) {
    && |queues| == |ops| + 1
    && queues[0] == map[]
    && forall i :: 0 <= i < |ops| ==> CanDo(queues[i], ops[i]) && queues[i + 1] == Do(queues[i], ops[i])
  }
}
