/**
 * The crawl loop. Starting from a root URL it pops one URL at a time from a
 * FIFO (breadth-first) or LIFO (depth-first) queue, fetches it, hands the content
 * to the handler, and lets the handler enqueue newly discovered URLs through a
 * callback that resolves them against a base URL and drops any URL already seen.
 * A failure of fetch or handle goes to the error policy together with a retry
 * callback bound to the failing URL.
 *
 * The fetcher, the handler and relative-reference resolution are parameters: the
 * fetcher is a function from URL to content or exception, the handler a function
 * from (content, URL) to the callback calls it makes and the exception it may end
 * with, and resolution an uninterpreted function except for the empty base.
 */
module Crawler {
  import opened Wrappers
  import opened WorkQueue
  import ErrorHandler
  import Finite

  /** An exception raised by the fetcher or the handler; its content is opaque here. */
  datatype Exception = Exception(message: string)

  /** One call `put_fn(base, href)` of the enqueue callback. */
  datatype Link = Link(base: string, href: string)

  /** What one `handler.handle(content, url, put_fn)` does: its callback calls, in order, and the exception it ends with, if any. */
  datatype Handled = Handled(links: seq<Link>, raised: Option<Exception>)

  /** The crawler's collaborators and configuration. */
  datatype Env = Env(
    order: Order,
    fetch: string -> Result<string, Exception>,
    handle: (string, string) -> Handled,
    resolve: (string, string) -> string,
    policy: ErrorHandler.Policy)

  /** One invocation of the handler: the URL and the content fetched for it. */
  datatype Call = Call(url: string, content: string)

  /**
   * The crawl after some iterations: the queue in storage order, the seen set,
   * the URLs taken from the queue so far, the handler invocations so far, and
   * the exception that stopped the crawl, if one did.
   */
  datatype State = State(
    queue: seq<string>,
    seen: set<string>,
    popped: seq<string>,
    calls: seq<Call>,
    halted: Option<Exception>)

  /**
   * `urllib.parse.urljoin(base, href)`: with an empty base the reference is returned
   * unchanged; every other case is left to the uninterpreted `resolve`.
   */
  function UrlJoin(resolve: (string, string) -> string, link: Link): string
  {
    if link.base == "" then link.href else resolve(link.base, link.href)
  }

  /**
   * The site is finite: a URL of `universe` that fetches successfully is handled
   * into links that all resolve inside `universe` again.
   */
  ghost predicate Closed(env: Env, universe: set<string>)
  {
    forall url, content, i ::
      url in universe && env.fetch(url) == Ok(content) && 0 <= i < |env.handle(content, url).links| ==>
        UrlJoin(env.resolve, env.handle(content, url).links[i]) in universe
  }

  /**
   * The calls of `put_fn` in `links`, applied in order to a queue and a seen set:
   * each resolved URL not seen yet is marked seen and put at the end of the queue.
   */
  function PutAll(resolve: (string, string) -> string, queue: seq<string>, seen: set<string>, links: seq<Link>)
    : (r: (seq<string>, set<string>))
    ensures r.1 == seen + (set i | 0 <= i < |links| :: UrlJoin(resolve, links[i]))
    ensures queue <= r.0 && Elems(r.0[|queue|..]) == r.1 - seen
    ensures Distinct(queue) && Elems(queue) <= seen ==> Distinct(r.0) && Elems(r.0) <= r.1
    ensures r.1 == seen ==> r.0 == queue
  {
    if links == [] then (queue, seen)
    else
      var (q, s) := PutAll(resolve, queue, seen, links[..|links| - 1]);
      var url := UrlJoin(resolve, links[|links| - 1]);
      assert forall i :: 0 <= i < |links| - 1 ==> links[..|links| - 1][i] == links[i];
      if url in s then (q, s)
      else
        assert Elems((q + [url])[|queue|..]) == Elems(q[|queue|..]) + {url} by {
          assert (q + [url])[|queue|..] == q[|queue|..] + [url];
        }
        (q + [url], s + {url})
  }

  /** The crawl before its loop starts: the root is queued and marked seen. */
  function Init(root: string): State
  {
    State([root], {root}, [], [], None)
  }

  /**
   * The error path for `url`: the policy runs, each retry it makes re-submits `url`
   * through `put_fn` with an empty base, and the crawl stops if the policy raises.
   */
  function OnError(env: Env, s: State, url: string, err: Exception): State
  {
    var trace := ErrorHandler.Handle(env.policy, err);
    var retries := ErrorHandler.Repeat(Link("", url), ErrorHandler.Retries(trace));
    var (queue, seen) := PutAll(env.resolve, s.queue, s.seen, retries);
    s.(queue := queue, seen := seen, halted := ErrorHandler.Raised(trace))
  }

  /** One iteration of the crawl loop. */
  function Step(env: Env, s: State): State
    requires s.queue != []
  {
    var (url, rest) := Take(env.order, s.queue);
    var taken := s.(queue := rest, popped := s.popped + [url]);
    match env.fetch(url)
    case Err(e) => OnError(env, taken, url, e)
    case Ok(content) =>
      var h := env.handle(content, url);
      var (queue, seen) := PutAll(env.resolve, taken.queue, taken.seen, h.links);
      var handled := taken.(queue := queue, seen := seen, calls := taken.calls + [Call(url, content)]);
      if h.raised.Some? then OnError(env, handled, url, h.raised.value) else handled
  }

  /** The invariant of the crawl loop. */
  ghost predicate Inv(env: Env, s: State, universe: set<string>)
  {
    && s.seen <= universe
    && Distinct(s.queue) && Distinct(s.popped)
    && s.seen == Elems(s.queue) + Elems(s.popped)
    && Elems(s.queue) !! Elems(s.popped)
    && (forall c :: c in s.calls ==> c.url in s.popped && env.fetch(c.url) == Ok(c.content))
    && (forall c, l :: c in s.calls && l in env.handle(c.content, c.url).links ==> UrlJoin(env.resolve, l) in s.seen)
    && (s.halted.Some? ==> ErrorHandler.Innermost(env.policy).Throwing?)
  }

  /** A retry re-submits a URL that is already seen, so it never changes the queue. */
  lemma {:induction false} RetryIsNoOp(resolve: (string, string) -> string, queue: seq<string>, seen: set<string>, url: string, n: nat)
    requires url in seen
    ensures PutAll(resolve, queue, seen, ErrorHandler.Repeat(Link("", url), n)) == (queue, seen)
  {
    if n > 0 {
      var links := ErrorHandler.Repeat(Link("", url), n);
      assert links[..n - 1] == ErrorHandler.Repeat(Link("", url), n - 1);
      RetryIsNoOp(resolve, queue, seen, url, n - 1);
    }
  }

  lemma OnErrorPreserves(env: Env, s: State, url: string, err: Exception, universe: set<string>)
    requires Inv(env, s.(halted := None), universe) && s.halted == None && url in s.popped
    ensures var t := OnError(env, s, url, err);
      Inv(env, t, universe) && t.queue == s.queue && t.seen == s.seen && t.popped == s.popped && t.calls == s.calls
  {
    var trace := ErrorHandler.Handle(env.policy, err);
    RetryIsNoOp(env.resolve, s.queue, s.seen, url, ErrorHandler.Retries(trace));
    ErrorHandler.RaisesIffInnermostThrows(env.policy, err);
  }

  /** Taking the next URL off the queue keeps the invariant. */
  lemma TakePreserves(env: Env, s: State, universe: set<string>)
    requires Inv(env, s, universe) && s.queue != [] && s.halted == None
    ensures var (url, rest) := Take(env.order, s.queue);
      Inv(env, s.(queue := rest, popped := s.popped + [url]), universe)
  {
    var (url, rest) := Take(env.order, s.queue);
    var taken := s.(queue := rest, popped := s.popped + [url]);
    assert Elems(taken.popped) == Elems(s.popped) + {url};
    assert Distinct(taken.popped) by {
      forall i, j | 0 <= i < j < |taken.popped| ensures taken.popped[i] != taken.popped[j] {
        if j == |s.popped| {
          assert taken.popped[i] in Elems(s.popped);
        }
      }
    }
  }

  /** Handing fetched content to the handler and applying its callback calls keeps the invariant. */
  lemma HandlePreserves(env: Env, s: State, url: string, content: string, universe: set<string>)
    requires Closed(env, universe) && Inv(env, s, universe) && s.halted == None
    requires url in s.popped && env.fetch(url) == Ok(content)
    ensures var h := env.handle(content, url);
      var (queue, seen) := PutAll(env.resolve, s.queue, s.seen, h.links);
      Inv(env, s.(queue := queue, seen := seen, calls := s.calls + [Call(url, content)]), universe)
  {
    var h := env.handle(content, url);
    var (queue, seen) := PutAll(env.resolve, s.queue, s.seen, h.links);
    var handled := s.(queue := queue, seen := seen, calls := s.calls + [Call(url, content)]);
    assert Elems(queue) == Elems(s.queue) + (seen - s.seen) by {
      assert queue == s.queue + queue[|s.queue|..];
    }
    assert seen <= universe by {
      forall i | 0 <= i < |h.links| ensures UrlJoin(env.resolve, h.links[i]) in universe {
      }
    }
    assert seen == Elems(queue) + Elems(s.popped);
    assert Elems(queue) !! Elems(s.popped);
    assert forall l :: l in h.links ==> UrlJoin(env.resolve, l) in seen by {
      forall l | l in h.links ensures UrlJoin(env.resolve, l) in seen {
        var i :| 0 <= i < |h.links| && h.links[i] == l;
      }
    }
    CallsPreserved(env, s.calls, Call(url, content), s.seen, seen, s.popped);
  }

  /** Recording one more call keeps every call fetched and every link it yields seen. */
  lemma CallsPreserved(env: Env, calls: seq<Call>, call: Call, seen: set<string>, seen': set<string>, popped: seq<string>)
    requires seen <= seen'
    requires forall c :: c in calls ==> c.url in popped && env.fetch(c.url) == Ok(c.content)
    requires forall c, l :: c in calls && l in env.handle(c.content, c.url).links ==> UrlJoin(env.resolve, l) in seen
    requires call.url in popped && env.fetch(call.url) == Ok(call.content)
    requires forall l :: l in env.handle(call.content, call.url).links ==> UrlJoin(env.resolve, l) in seen'
    ensures forall c :: c in calls + [call] ==> c.url in popped && env.fetch(c.url) == Ok(c.content)
    ensures forall c, l :: c in calls + [call] && l in env.handle(c.content, c.url).links ==> UrlJoin(env.resolve, l) in seen'
  {
  }

  /** Marking new URLs seen shrinks the part of the universe not seen yet. */
  lemma UnseenShrinks(universe: set<string>, seen: set<string>, seen': set<string>)
    requires seen <= seen' <= universe && seen != seen'
    ensures |universe - seen'| < |universe - seen|
  {
    var x :| x in seen' && x !in seen;
    assert universe - seen' <= (universe - seen) - {x};
    Finite.SubsetCardinality(universe - seen', (universe - seen) - {x});
  }

  /** One iteration keeps the invariant and makes progress: the seen set grows or the queue shrinks. */
  lemma StepPreserves(env: Env, s: State, universe: set<string>)
    requires Closed(env, universe) && Inv(env, s, universe)
    requires s.queue != [] && s.halted == None
    ensures var t := Step(env, s);
      && Inv(env, t, universe)
      && s.popped <= t.popped && s.calls <= t.calls
      && (|universe - t.seen| < |universe - s.seen| || (t.seen == s.seen && |t.queue| < |s.queue|))
  {
    var (url, rest) := Take(env.order, s.queue);
    var taken := s.(queue := rest, popped := s.popped + [url]);
    TakePreserves(env, s, universe);
    var t := Step(env, s);
    match env.fetch(url)
    case Err(e) =>
      OnErrorPreserves(env, taken, url, e, universe);
      assert t.seen == s.seen && |t.queue| < |s.queue|;
    case Ok(content) =>
      var h := env.handle(content, url);
      var (queue, seen) := PutAll(env.resolve, taken.queue, taken.seen, h.links);
      var handled := taken.(queue := queue, seen := seen, calls := taken.calls + [Call(url, content)]);
      HandlePreserves(env, taken, url, content, universe);
      if h.raised.Some? {
        OnErrorPreserves(env, handled, url, h.raised.value, universe);
      }
      assert t.seen == seen && t.queue == queue;
      if seen != s.seen {
        UnseenShrinks(universe, s.seen, seen);
      } else {
        assert queue == rest;
      }
  }

  /** The whole crawl from state `s`: iterate until the queue is empty or the policy raises. */
  ghost function Run(env: Env, s: State, universe: set<string>): (r: State)
    requires Closed(env, universe) && Inv(env, s, universe)
    ensures Inv(env, r, universe)
    ensures r.halted == None ==> r.queue == []
    ensures s.popped <= r.popped && s.calls <= r.calls
    decreases |universe - s.seen|, |s.queue|
  {
    if s.halted.Some? || s.queue == [] then s
    else
      StepPreserves(env, s, universe);
      Run(env, Step(env, s), universe)
  }

  /** `put_fn` applied to each of `links` in turn. */
  method PutLinks(resolve: (string, string) -> string, queue: seq<string>, seen: set<string>, links: seq<Link>)
    returns (queue': seq<string>, seen': set<string>)
    ensures (queue', seen') == PutAll(resolve, queue, seen, links)
  {
    queue', seen' := queue, seen;
    for i := 0 to |links|
      invariant (queue', seen') == PutAll(resolve, queue, seen, links[..i])
    {
      assert links[..i + 1][..i] == links[..i];
      var url := UrlJoin(resolve, links[i]);
      if url !in seen' {
        seen' := seen' + {url};
        queue' := queue' + [url];
      }
    }
    assert links[..|links|] == links;
  }

  /**
   * `Crawler.crawl(root)`: returns the handler invocations in the order they
   * happened and the exception that ended the crawl, if the error policy raised one.
   */
  method Crawl(env: Env, root: string, ghost universe: set<string>)
    returns (handled: seq<Call>, raised: Option<Exception>)
    requires Closed(env, universe) && root in universe
    ensures handled == Run(env, Init(root), universe).calls
    ensures raised == Run(env, Init(root), universe).halted
  {
    var queue := [root];
    var seen := {root};
    ghost var popped: seq<string> := [];
    handled := [];
    assert Inv(env, Init(root), universe);
    while |queue| > 0
      invariant Inv(env, State(queue, seen, popped, handled, None), universe)
      invariant Run(env, State(queue, seen, popped, handled, None), universe) == Run(env, Init(root), universe)
      decreases |universe - seen|, |queue|
    {
      ghost var before := State(queue, seen, popped, handled, None);
      StepPreserves(env, before, universe);
      var url;
      url, queue := Take(env.order, queue).0, Take(env.order, queue).1;
      popped := popped + [url];
      var err: Option<Exception> := None;
      var fetched := env.fetch(url);
      if fetched.Ok? {
        handled := handled + [Call(url, fetched.value)];
        var h := env.handle(fetched.value, url);
        queue, seen := PutLinks(env.resolve, queue, seen, h.links);
        err := h.raised;
      } else {
        err := Some(fetched.error);
      }
      if err.Some? {
        var trace := ErrorHandler.Handle(env.policy, err.value);
        queue, seen := PutLinks(env.resolve, queue, seen, ErrorHandler.Repeat(Link("", url), ErrorHandler.Retries(trace)));
        if ErrorHandler.Raised(trace).Some? {
          raised := ErrorHandler.Raised(trace);
          assert State(queue, seen, popped, handled, raised) == Step(env, before);
          return;
        }
      }
      assert State(queue, seen, popped, handled, None) == Step(env, before);
    }
    raised := None;
  }

  /**
   * What a finished crawl guarantees: the root is dispatched first, no URL is
   * dispatched twice, every handler call got the content its URL was fetched as,
   * and the crawl halts only under a policy whose innermost layer is Throwing.
   */
  lemma CrawlDispatchesOnce(env: Env, root: string, universe: set<string>)
    requires Closed(env, universe) && root in universe
    ensures var r := Run(env, Init(root), universe);
      && |r.popped| > 0 && r.popped[0] == root
      && Distinct(r.popped)
      && (forall c :: c in r.calls ==> env.fetch(c.url) == Ok(c.content))
      && (r.halted.Some? ==> ErrorHandler.Innermost(env.policy).Throwing?)
  {
    var s := Init(root);
    assert Inv(env, s, universe);
    StepPreserves(env, s, universe);
    assert Step(env, s).popped == [root];
    assert Run(env, s, universe) == Run(env, Step(env, s), universe);
  }

  /**
   * A crawl that is not stopped by the policy ends with every seen URL dispatched,
   * and every URL any handler call asked for, once resolved, is among them.
   */
  lemma CrawlIsClosedUnderLinks(env: Env, root: string, universe: set<string>)
    requires Closed(env, universe) && root in universe
    ensures var r := Run(env, Init(root), universe);
      r.halted == None ==>
        && r.seen == Elems(r.popped)
        && forall c, l :: c in r.calls && l in env.handle(c.content, c.url).links ==>
             UrlJoin(env.resolve, l) in r.popped
  {
    assert Inv(env, Init(root), universe);
  }
}
