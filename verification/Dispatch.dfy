/** The two dispatch queues: a broker list of request ids, or nothing at all. */
module Dispatch {
  import opened Models

  class DispatchQueue {
    /** The Redis list is brokered; the database queue is not and keeps no items. */
    const brokered: bool
    var items: seq<RequestId>

    constructor (brokered: bool)
      ensures this.brokered == brokered && items == []
    {
      this.brokered, items := brokered, [];
    }

    ghost predicate Valid()
      reads this
    {
      !brokered ==> items == []
    }

    method Publish(id: RequestId)
      requires Valid()
      modifies this
      ensures Valid()
      ensures items == if brokered then old(items) + [id] else []
    {
      if brokered {
        items := items + [id];
      }
    }

    /** First in, first out; nothing when the list is empty or there is no broker. */
    method Consume() returns (id: Option<RequestId>)
      requires Valid()
      modifies this
      ensures Valid()
      ensures id.None? <==> old(items) == []
      ensures id.None? ==> items == old(items)
      ensures id.Some? ==> [id.value] + items == old(items)
    {
      if items == [] {
        return None;
      }
      id, items := Some(items[0]), items[1..];
    }
  }
}
