/**
 * The crawl frontier kept in memory and mirrored to two logs with one URL per
 * line, so that an interrupted crawl can be resumed: the visited log only ever
 * grows, and the queue log has every queued URL appended to it and is rewritten
 * from the in-memory queue whenever a URL is marked completed.
 *
 * A log is modelled by its text. Reading it back is `str.splitlines`, which the
 * model spells out; opening a file that is missing creates it empty.
 */
module FileStateManagerModel {
  import opened Wrappers
  import opened Text
  import opened WorkQueue

  /** Puts the lines read from the queue log on a fresh queue, one at a time, in file order. */
  method Replay(lines: seq<string>) returns (q: seq<string>)
    ensures q == lines
  {
    q := [];
    for i := 0 to |lines|
      invariant q == lines[..i]
    {
      assert lines[..i + 1] == lines[..i] + [lines[i]];
      q := q + [lines[i]];
    }
    assert lines[..|lines|] == lines;
  }

  /**
   * What resuming relies on, for logs whose texts are `visitedLog` and `queueLog`:
   * when they are line-safe, reading them back gives the visited set, and the
   * queue log holds the queue together with the URLs in flight.
   */
  ghost predicate DurableLogs(lineSafe: bool, visitedLog: string, queueLog: string,
                              visited: set<string>, queue: seq<string>, inFlight: multiset<string>)
  {
    lineSafe ==>
      && Terminated(visitedLog) && Terminated(queueLog)
      && visited == Elems(SplitLines(visitedLog))
      && multiset(SplitLines(queueLog)) == multiset(queue) + inFlight
  }

  /** Logs just read back, with nothing in flight, are durable: they hold exactly what was read from them. */
  lemma OpenedLogsAreDurable(visitedLog: string, queueLog: string)
    ensures DurableLogs(Terminated(visitedLog) && Terminated(queueLog), visitedLog, queueLog,
      Elems(SplitLines(visitedLog)), SplitLines(queueLog), multiset{})
  {
    assert multiset(SplitLines(queueLog)) + multiset{} == multiset(SplitLines(queueLog));
  }

  class FileStateManager {
    /** Queue or LifoQueue. */
    const order: Order
    var visited: set<string>
    /** The in-memory queue in storage (insertion) order. */
    var queue: seq<string>
    /** The text of the visited log. */
    var visitedLog: string
    /** The text of the queue log. */
    var queueLog: string
    /** The URLs popped since the queue log was last rewritten: they are still in that log. */
    ghost var inFlight: multiset<string>
    /** Both logs were terminated when read and every URL written since holds no line boundary. */
    ghost var lineSafe: bool

    /** The logs hold the manager's state: see `DurableLogs`. */
    ghost predicate Durable()
      reads this
    {
      DurableLogs(lineSafe, visitedLog, queueLog, visited, queue, inFlight)
    }

    /**
     * Opens the two logs, given as their text on disk or `None` when the file does
     * not exist, and replays them: every line of the visited log is visited and
     * every line of the queue log is queued, in file order.
     */
    constructor (order: Order, visitedOnDisk: Option<string>, queueOnDisk: Option<string>)
      ensures this.order == order
      ensures visitedLog == (if visitedOnDisk.Some? then visitedOnDisk.value else "")
      ensures queueLog == (if queueOnDisk.Some? then queueOnDisk.value else "")
      ensures visited == Elems(SplitLines(visitedLog))
      ensures queue == SplitLines(queueLog)
      ensures inFlight == multiset{} && lineSafe == (Terminated(visitedLog) && Terminated(queueLog))
      ensures Durable()
    {
      var vlog := if visitedOnDisk.Some? then visitedOnDisk.value else "";
      var qlog := if queueOnDisk.Some? then queueOnDisk.value else "";
      var lines := SplitLines(qlog);
      var q := Replay(lines);
      var safe := Terminated(vlog) && Terminated(qlog);
      var seen := Elems(SplitLines(vlog));
      OpenedLogsAreDurable(vlog, qlog);
      this.order := order;
      visitedLog := vlog;
      visited := seen;
      queueLog := qlog;
      queue := q;
      inFlight := multiset{};
      lineSafe := safe;
    }

    /** Queues `url` and logs it, unless it has been visited; a URL already queued is queued again. */
    method Enqueue(url: string)
      requires Durable()
      modifies this
      ensures url in old(visited) ==> unchanged(this)
      ensures url !in old(visited) ==>
        && queue == old(queue) + [url]
        && queueLog == old(queueLog) + url + "\n"
        && lineSafe == (old(lineSafe) && OneLine(url))
        && visited == old(visited) && visitedLog == old(visitedLog) && inFlight == old(inFlight)
      ensures Durable()
    {
      if url in visited {
        return;
      }
      if lineSafe && OneLine(url) {
        SplitLinesAppend(queueLog, url);
      }
      queue := queue + [url];
      queueLog := queueLog + url + "\n";
      lineSafe := lineSafe && OneLine(url);
    }

    /**
     * Takes the next URL off the queue: the oldest for a Queue, the newest for a
     * LifoQueue. The logs are not touched, so the URL stays in the queue log
     * until the next `MarkCompleted`.
     */
    method PopNext() returns (r: Result<string, PopError>)
      requires Durable()
      modifies this
      ensures old(queue) == [] ==> r == Err(IndexError(EmptyQueueMessage)) && unchanged(this)
      ensures old(queue) != [] ==>
        && r.Ok?
        && (order.Fifo? ==> old(queue) == [r.value] + queue)
        && (order.Lifo? ==> old(queue) == queue + [r.value])
        && inFlight == old(inFlight) + multiset{r.value}
      ensures visited == old(visited) && visitedLog == old(visitedLog) && queueLog == old(queueLog)
      ensures lineSafe == old(lineSafe)
      ensures Durable()
    {
      if queue == [] {
        return Err(IndexError(EmptyQueueMessage));
      }
      var (url, rest) := Take(order, queue);
      assert multiset(queue) == multiset(rest) + multiset{url} by {
        if order.Fifo? { assert queue == [url] + rest; } else { assert queue == rest + [url]; }
      }
      queue := rest;
      inFlight := inFlight + multiset{url};
      return Ok(url);
    }

    /**
     * Records `url` as visited, whether or not it was ever queued, and rewrites
     * the queue log with exactly the in-memory queue; reading that log back then
     * gives the same queue.
     */
    method MarkCompleted(url: string)
      requires Durable()
      modifies this
      ensures visited == old(visited) + {url}
      ensures visitedLog == old(visitedLog) + url + "\n"
      ensures queue == old(queue) && queueLog == Lines(queue)
      ensures inFlight == multiset{} && lineSafe == (old(lineSafe) && OneLine(url))
      ensures lineSafe ==> SplitLines(queueLog) == queue
      ensures Durable()
    {
      var vlog := visitedLog + url + "\n";
      var qlog := Lines(queue);
      LinesTerminated(queue);
      if lineSafe && OneLine(url) {
        LoggedVisit(visitedLog, visited, url);
        QueuedLinesAreOneLine(queueLog, queue, inFlight);
        SplitLinesOfLines(queue);
      }
      visited := visited + {url};
      visitedLog := vlog;
      queueLog := qlog;
      inFlight := multiset{};
      lineSafe := lineSafe && OneLine(url);
    }
  }

  /** Appending a line to a terminated visited log that reads back as `visited` adds that URL to what it reads back as. */
  lemma LoggedVisit(log: string, visited: set<string>, url: string)
    requires Terminated(log) && OneLine(url) && visited == Elems(SplitLines(log))
    ensures Terminated(log + url + "\n") && Elems(SplitLines(log + url + "\n")) == visited + {url}
  {
    SplitLinesAppend(log, url);
    assert Elems(SplitLines(log) + [url]) == Elems(SplitLines(log)) + {url};
  }

  /** Every URL of a queue that the queue log holds is a single line. */
  lemma QueuedLinesAreOneLine(log: string, queue: seq<string>, inFlight: multiset<string>)
    requires multiset(SplitLines(log)) == multiset(queue) + inFlight
    ensures forall i :: 0 <= i < |queue| ==> OneLine(queue[i])
  {
    forall i | 0 <= i < |queue|
      ensures OneLine(queue[i])
    {
      assert queue[i] in multiset(SplitLines(log));
    }
  }

  /**
   * Resuming a crawl: a manager opened on the logs of another has the same
   * visited set, and queues the other's queue together with the URLs it had
   * popped but not yet marked completed.
   */
  method Resume(m: FileStateManager) returns (n: FileStateManager)
    requires m.Durable() && m.lineSafe
    ensures n.order == m.order && n.visited == m.visited
    ensures multiset(n.queue) == multiset(m.queue) + m.inFlight
  {
    n := new FileStateManager(m.order, Some(m.visitedLog), Some(m.queueLog));
  }
}
