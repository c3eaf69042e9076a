/**
 * The standard library's `queue.Queue` and `queue.LifoQueue` as used by the crawl
 * frontier: entries are kept in insertion order, and `get` removes the oldest
 * (first in, first out) or the newest (last in, first out).
 */
module WorkQueue {

  /** `queue.Queue` (oldest first) or `queue.LifoQueue` (newest first). */
  datatype Order = Fifo | Lifo

  function Elems(s: seq<string>): set<string>
  {
    set x | x in s
  }

  ghost predicate Distinct(s: seq<string>)
  {
    forall i, j :: 0 <= i < j < |s| ==> s[i] != s[j]
  }

  /** `q.get()`: the oldest entry of a Queue, the newest of a LifoQueue, and what is left. */
  function Take(order: Order, queue: seq<string>): (r: (string, seq<string>))
    requires queue != []
    ensures order.Fifo? ==> queue == [r.0] + r.1
    ensures order.Lifo? ==> queue == r.1 + [r.0]
    ensures r.0 in queue && |r.1| == |queue| - 1
    ensures Elems(queue) == Elems(r.1) + {r.0}
    ensures Distinct(queue) ==> Distinct(r.1) && r.0 !in r.1
  {
    match order
    case Fifo =>
      assert queue == [queue[0]] + queue[1..];
      (queue[0], queue[1..])
    case Lifo =>
      assert queue == queue[..|queue| - 1] + [queue[|queue| - 1]];
      (queue[|queue| - 1], queue[..|queue| - 1])
  }

  /** What `pop_next` raises when nothing is left to crawl. */
  datatype PopError = IndexError(message: string)

  const EmptyQueueMessage: string := "Cannot pop from empty queue"
}
