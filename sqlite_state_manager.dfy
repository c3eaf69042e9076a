/**
 * The crawl frontier kept in one database table keyed by URL. A row records
 * whether the URL has been visited, how many times crawling it failed, and when
 * it was last queued or failed. `pop_next` reads the eligible row with the
 * earliest (FIFO) or latest (LIFO) time without changing anything; only
 * `mark_completed` and enough `mark_failed` calls take a URL out of the running.
 *
 * `datetime.now()` is a logical clock: every evaluation returns the current
 * value and advances it, so no two rows ever share a time.
 */
module SqliteStateManagerModel {
  import opened Wrappers
  import opened WorkQueue

  /** One row of the `queue` table, without its `url` key. */
  datatype Row = Row(visited: bool, failures: nat, time: nat)

  /** A row `pop_next` may return: not visited, and failed fewer times than allowed. */
  predicate Eligible(table: map<string, Row>, maxFailures: int, url: string)
  {
    url in table && !table[url].visited && table[url].failures < maxFailures
  }

  /** `ORDER BY enqueue_time ASC` (FIFO) or `DESC` (LIFO): time `a` may come before time `b`. */
  predicate NoLater(order: Order, a: nat, b: nat)
  {
    match order
    case Fifo => a <= b
    case Lifo => a >= b
  }

  /** `url` heads the ordering of the eligible rows. */
  ghost predicate IsNext(table: map<string, Row>, order: Order, maxFailures: int, url: string)
  {
    Eligible(table, maxFailures, url)
    && forall v :: Eligible(table, maxFailures, v) ==> NoLater(order, table[url].time, table[v].time)
  }

  ghost predicate UniqueTimes(table: map<string, Row>)
  {
    forall u, v :: u in table && v in table && u != v ==> table[u].time != table[v].time
  }

  /** Visited, or failed as often as allowed: such a URL is never returned again. */
  predicate Retired(table: map<string, Row>, maxFailures: int, url: string)
  {
    url in table && (table[url].visited || table[url].failures >= maxFailures)
  }

  /** Rows are never deleted, and a retired URL stays retired. */
  ghost predicate Monotone(before: map<string, Row>, after: map<string, Row>, maxFailures: int)
  {
    && before.Keys <= after.Keys
    && forall u :: Retired(before, maxFailures, u) ==> Retired(after, maxFailures, u)
  }

  /** With distinct times at most one URL heads the ordering, so `pop_next` is a function of the table. */
  lemma NextIsUnique(table: map<string, Row>, order: Order, maxFailures: int, u: string, v: string)
    requires UniqueTimes(table)
    requires IsNext(table, order, maxFailures, u) && IsNext(table, order, maxFailures, v)
    ensures u == v
  {
    assert NoLater(order, table[u].time, table[v].time) && NoLater(order, table[v].time, table[u].time);
  }

  /** A retired URL is never the one `pop_next` returns. */
  lemma RetiredIsNeverNext(table: map<string, Row>, order: Order, maxFailures: int, url: string)
    requires Retired(table, maxFailures, url)
    ensures !IsNext(table, order, maxFailures, url)
  {
  }

  /** LIFO: a URL just inserted, later than every stored time, is the next one (when failures are allowed at all). */
  lemma FreshIsNextLifo(table: map<string, Row>, maxFailures: int, url: string, now: nat)
    requires url !in table && maxFailures > 0
    requires forall u :: u in table ==> table[u].time < now
    ensures IsNext(table[url := Row(false, 0, now)], Lifo, maxFailures, url)
  {
    var t := table[url := Row(false, 0, now)];
    forall v | Eligible(t, maxFailures, v)
      ensures NoLater(Lifo, t[url].time, t[v].time)
    {
      if v != url {
        assert v in table;
      }
    }
  }

  /** FIFO: inserting a URL later than every stored time leaves the head of the queue where it was. */
  lemma FreshKeepsNextFifo(table: map<string, Row>, maxFailures: int, head: string, url: string, now: nat)
    requires url !in table
    requires forall u :: u in table ==> table[u].time < now
    requires IsNext(table, Fifo, maxFailures, head)
    ensures IsNext(table[url := Row(false, 0, now)], Fifo, maxFailures, head)
  {
    var t := table[url := Row(false, 0, now)];
    assert head != url;
    forall v | Eligible(t, maxFailures, v)
      ensures NoLater(Fifo, t[head].time, t[v].time)
    {
      if v != url {
        assert Eligible(table, maxFailures, v);
      }
    }
  }

  class SqlStateManager {
    const order: Order
    const maxFailures: int
    /** The `queue` table. */
    var table: map<string, Row>
    /** The value the next `datetime.now()` returns. */
    var clock: nat

    ghost predicate Valid()
      reads this
    {
      UniqueTimes(table) && forall u :: u in table ==> table[u].time < clock
    }

    /**
     * Connects to a database whose table holds `stored` (empty when the table is
     * created here), at a moment later than every time stored in it.
     */
    constructor (order: Order, maxFailures: int, stored: map<string, Row>, now: nat)
      requires UniqueTimes(stored) && forall u :: u in stored ==> stored[u].time < now
      ensures this.order == order && this.maxFailures == maxFailures
      ensures table == stored && clock == now
      ensures Valid()
    {
      this.order := order;
      this.maxFailures := maxFailures;
      table := stored;
      clock := now;
    }

    /** Inserts a fresh row for `url`; when one exists the insert fails and the row is untouched. */
    method Enqueue(url: string)
      requires Valid()
      modifies this
      ensures clock == old(clock) + 1
      ensures table == if url in old(table) then old(table) else old(table)[url := Row(false, 0, old(clock))]
      ensures Monotone(old(table), table, maxFailures)
      ensures Valid()
    {
      var now := clock;
      clock := clock + 1;
      if url !in table {
        table := table[url := Row(false, 0, now)];
      }
    }

    /** The eligible URL with the earliest (FIFO) or latest (LIFO) time; an `IndexError` when there is none. */
    method PopNext() returns (r: Result<string, PopError>)
      requires Valid()
      ensures r.Ok? ==> IsNext(table, order, maxFailures, r.value)
      ensures r.Err? <==> forall u :: !Eligible(table, maxFailures, u)
      ensures r.Err? ==> r.error == IndexError(EmptyQueueMessage)
    {
      var keys := table.Keys;
      var best: Option<string> := None;
      while keys != {}
        invariant keys <= table.Keys
        invariant best.Some? ==> Eligible(table, maxFailures, best.value)
        invariant best.Some? ==> forall v :: Eligible(table, maxFailures, v) && v !in keys ==>
          NoLater(order, table[best.value].time, table[v].time)
        invariant best.None? ==> forall v :: Eligible(table, maxFailures, v) ==> v in keys
        decreases |keys|
      {
        var k :| k in keys;
        if Eligible(table, maxFailures, k) && (best.None? || NoLater(order, table[k].time, table[best.value].time)) {
          best := Some(k);
        }
        keys := keys - {k};
      }
      if best.Some? {
        return Ok(best.value);
      }
      return Err(IndexError(EmptyQueueMessage));
    }

    /** True exactly when `pop_next` would raise. */
    method IsFinished() returns (finished: bool)
      requires Valid()
      ensures finished <==> forall u :: !Eligible(table, maxFailures, u)
    {
      var r := PopNext();
      finished := r.Err?;
    }

    /** Counts one more failure for `url` and re-times it to now; nothing happens to an absent URL. */
    method MarkFailed(url: string)
      requires Valid()
      modifies this
      ensures clock == old(clock) + 1
      ensures table == if url in old(table)
        then old(table)[url := old(table)[url].(failures := old(table)[url].failures + 1, time := old(clock))]
        else old(table)
      ensures Monotone(old(table), table, maxFailures)
      ensures Valid()
    {
      var now := clock;
      clock := clock + 1;
      if url in table {
        table := table[url := table[url].(failures := table[url].failures + 1, time := now)];
      }
    }

    /** Marks `url` visited, which retires it; nothing happens to an absent URL. */
    method MarkCompleted(url: string)
      requires Valid()
      modifies this
      ensures table == if url in old(table) then old(table)[url := old(table)[url].(visited := true)] else old(table)
      ensures clock == old(clock)
      ensures url in table ==> Retired(table, maxFailures, url)
      ensures Monotone(old(table), table, maxFailures)
      ensures Valid()
    {
      if url in table {
        table := table[url := table[url].(visited := true)];
      }
    }
  }
}
