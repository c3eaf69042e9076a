/**
 * The traversal orders of the crawl loop on a five-page site: `root` links to `a`
 * and `b`, `a` links to `c`, `b` links to `d`.
 */
module CrawlerExamples {
  import opened Wrappers
  import opened WorkQueue
  import opened Crawler
  import ErrorHandler

  function SiteFetch(url: string): Result<string, Exception>
  {
    if url == "root" then Ok("foo")
    else if url == "a" then Ok("bar")
    else if url == "b" then Ok("baz")
    else if url == "c" then Ok("qux")
    else if url == "d" then Ok("quux")
    else Err(Exception("KeyError"))
  }

  function SiteHandle(content: string, url: string): Handled
  {
    if content == "foo" then Handled([Link(url, "a"), Link(url, "b")], None)
    else if content == "bar" then Handled([Link(url, "c")], None)
    else if content == "baz" then Handled([Link(url, "d")], None)
    else Handled([], None)
  }

  function KeepHref(base: string, href: string): string
  {
    href
  }

  function Site(order: Order): Env
  {
    Env(order, SiteFetch, SiteHandle, KeepHref, ErrorHandler.Throwing)
  }

  const Pages: set<string> := {"root", "a", "b", "c", "d"}

  lemma SiteIsClosed(order: Order)
    ensures Closed(Site(order), Pages)
  {
  }

  /** A crawl state that has not halted. */
  function Running(queue: seq<string>, seen: set<string>, popped: seq<string>, calls: seq<Call>): State
  {
    State(queue, seen, popped, calls, None)
  }

  const Root: Call := Call("root", "foo")
  const PageA: Call := Call("a", "bar")
  const PageB: Call := Call("b", "baz")
  const PageC: Call := Call("c", "qux")
  const PageD: Call := Call("d", "quux")

  /** A step that fetches and handles `url` without error, spelled out field by field. */
  lemma HandledStep(env: Env, s: State, url: string, rest: seq<string>, content: string, links: seq<Link>,
                    queue: seq<string>, seen: set<string>)
    requires s.queue != [] && Take(env.order, s.queue) == (url, rest)
    requires env.fetch(url) == Ok(content) && env.handle(content, url) == Handled(links, None)
    requires PutAll(env.resolve, rest, s.seen, links) == (queue, seen)
    ensures Step(env, s) == State(queue, seen, s.popped + [url], s.calls + [Call(url, content)], s.halted)
  {
  }

  lemma PutRootLinks()
    ensures PutAll(KeepHref, [], {"root"}, [Link("root", "a"), Link("root", "b")]) == (["a", "b"], {"root", "a", "b"})
  {
    var links := [Link("root", "a"), Link("root", "b")];
    assert links[..1] == [Link("root", "a")] && [Link("root", "a")][..0] == [];
    var one := PutAll(KeepHref, [], {"root"}, [Link("root", "a")]);
    assert one.0 == ["a"] && one.1 == {"root", "a"};
    var two := PutAll(KeepHref, [], {"root"}, links);
    assert two.0 == ["a", "b"];
    assert two.1 == {"root", "a", "b"};
  }

  lemma RootStep(order: Order)
    ensures Step(Site(order), Init("root")) == Running(["a", "b"], {"root", "a", "b"}, ["root"], [Root])
  {
    assert Take(order, ["root"]) == ("root", []);
    assert SiteFetch("root") == Ok("foo");
    assert SiteHandle("foo", "root") == Handled([Link("root", "a"), Link("root", "b")], None);
    PutRootLinks();
    HandledStep(Site(order), Init("root"), "root", [], "foo", [Link("root", "a"), Link("root", "b")],
                ["a", "b"], {"root", "a", "b"});
  }

  /** One more iteration of a crawl that has not finished. */
  lemma Unfold(env: Env, s: State, t: State, universe: set<string>)
    requires Closed(env, universe) && Inv(env, s, universe)
    requires s.queue != [] && s.halted == None && Step(env, s) == t
    ensures Inv(env, t, universe) && Run(env, s, universe) == Run(env, t, universe)
  {
    StepPreserves(env, s, universe);
  }

  /** Queueing a single link. */
  lemma PutOne(queue: seq<string>, seen: set<string>, base: string, href: string)
    requires base != ""
    ensures PutAll(KeepHref, queue, seen, [Link(base, href)])
         == if href in seen then (queue, seen) else (queue + [href], seen + {href})
  {
    assert [Link(base, href)][..0] == [];
  }

  /** A step of the crawl of the example site that fetches and handles `url` without error. */
  lemma SiteStep(order: Order, s: State, url: string, rest: seq<string>, content: string, links: seq<Link>,
                 queue: seq<string>, seen: set<string>)
    requires s.queue != [] && s.halted == None && Take(order, s.queue) == (url, rest)
    requires SiteFetch(url) == Ok(content) && SiteHandle(content, url) == Handled(links, None)
    requires PutAll(KeepHref, rest, s.seen, links) == (queue, seen)
    ensures Step(Site(order), s) == Running(queue, seen, s.popped + [url], s.calls + [Call(url, content)])
  {
    HandledStep(Site(order), s, url, rest, content, links, queue, seen);
  }

  const Bfs1: State := Running(["a", "b"], {"root", "a", "b"}, ["root"], [Root])
  const Bfs2: State := Running(["b", "c"], {"root", "a", "b", "c"}, ["root", "a"], [Root, PageA])
  const Bfs3: State := Running(["c", "d"], Pages, ["root", "a", "b"], [Root, PageA, PageB])
  const Bfs4: State := Running(["d"], Pages, ["root", "a", "b", "c"], [Root, PageA, PageB, PageC])
  const Bfs5: State := Running([], Pages, ["root", "a", "b", "c", "d"], [Root, PageA, PageB, PageC, PageD])

  lemma BfsStep2()
    ensures Step(Site(Fifo), Bfs1) == Bfs2
  {
    assert Take(Fifo, ["a", "b"]) == ("a", ["b"]);
    assert "c" !in {"root", "a", "b"};
    PutOne(["b"], {"root", "a", "b"}, "a", "c");
    assert ["b"] + ["c"] == ["b", "c"];
    assert {"root", "a", "b"} + {"c"} == {"root", "a", "b", "c"};
    SiteStep(Fifo, Bfs1, "a", ["b"], "bar", [Link("a", "c")], ["b", "c"], {"root", "a", "b", "c"});
  }

  lemma BfsStep3()
    ensures Step(Site(Fifo), Bfs2) == Bfs3
  {
    assert Take(Fifo, ["b", "c"]) == ("b", ["c"]);
    assert "d" !in {"root", "a", "b", "c"};
    PutOne(["c"], {"root", "a", "b", "c"}, "b", "d");
    assert ["c"] + ["d"] == ["c", "d"];
    assert {"root", "a", "b", "c"} + {"d"} == Pages;
    SiteStep(Fifo, Bfs2, "b", ["c"], "baz", [Link("b", "d")], ["c", "d"], Pages);
  }

  lemma BfsStep4()
    ensures Step(Site(Fifo), Bfs3) == Bfs4
  {
    assert Take(Fifo, ["c", "d"]) == ("c", ["d"]);
    SiteStep(Fifo, Bfs3, "c", ["d"], "qux", [], ["d"], Pages);
  }

  lemma BfsStep5()
    ensures Step(Site(Fifo), Bfs4) == Bfs5
  {
    assert Take(Fifo, ["d"]) == ("d", []);
    SiteStep(Fifo, Bfs4, "d", [], "quux", [], [], Pages);
  }

  /** With a Queue the pages are handled breadth-first. */
  lemma BreadthFirst()
    ensures Run(Site(Fifo), Init("root"), Pages).calls == [Root, PageA, PageB, PageC, PageD]
  {
    var env := Site(Fifo);
    SiteIsClosed(Fifo);
    assert Inv(env, Init("root"), Pages);
    RootStep(Fifo);
    BfsStep2();
    BfsStep3();
    BfsStep4();
    BfsStep5();
    Unfold(env, Init("root"), Bfs1, Pages);
    Unfold(env, Bfs1, Bfs2, Pages);
    Unfold(env, Bfs2, Bfs3, Pages);
    Unfold(env, Bfs3, Bfs4, Pages);
    Unfold(env, Bfs4, Bfs5, Pages);
  }

  const Dfs2: State := Running(["a", "d"], {"root", "a", "b", "d"}, ["root", "b"], [Root, PageB])
  const Dfs3: State := Running(["a"], {"root", "a", "b", "d"}, ["root", "b", "d"], [Root, PageB, PageD])
  const Dfs4: State := Running(["c"], Pages, ["root", "b", "d", "a"], [Root, PageB, PageD, PageA])
  const Dfs5: State := Running([], Pages, ["root", "b", "d", "a", "c"], [Root, PageB, PageD, PageA, PageC])

  lemma DfsStep2()
    ensures Step(Site(Lifo), Bfs1) == Dfs2
  {
    assert ["a", "b"][..1] == ["a"];
    assert Take(Lifo, ["a", "b"]) == ("b", ["a"]);
    assert "d" !in {"root", "a", "b"};
    PutOne(["a"], {"root", "a", "b"}, "b", "d");
    assert ["a"] + ["d"] == ["a", "d"];
    assert {"root", "a", "b"} + {"d"} == {"root", "a", "b", "d"};
    SiteStep(Lifo, Bfs1, "b", ["a"], "baz", [Link("b", "d")], ["a", "d"], {"root", "a", "b", "d"});
  }

  lemma DfsStep3()
    ensures Step(Site(Lifo), Dfs2) == Dfs3
  {
    assert ["a", "d"][..1] == ["a"];
    assert Take(Lifo, ["a", "d"]) == ("d", ["a"]);
    SiteStep(Lifo, Dfs2, "d", ["a"], "quux", [], ["a"], {"root", "a", "b", "d"});
  }

  lemma DfsStep4()
    ensures Step(Site(Lifo), Dfs3) == Dfs4
  {
    assert Take(Lifo, ["a"]) == ("a", []);
    assert "c" !in {"root", "a", "b", "d"};
    PutOne([], {"root", "a", "b", "d"}, "a", "c");
    assert [] + ["c"] == ["c"];
    assert {"root", "a", "b", "d"} + {"c"} == Pages;
    SiteStep(Lifo, Dfs3, "a", [], "bar", [Link("a", "c")], ["c"], Pages);
  }

  lemma DfsStep5()
    ensures Step(Site(Lifo), Dfs4) == Dfs5
  {
    assert Take(Lifo, ["c"]) == ("c", []);
    SiteStep(Lifo, Dfs4, "c", [], "qux", [], [], Pages);
  }

  /** With a LifoQueue the most recently discovered page is handled next: depth-first. */
  lemma DepthFirst()
    ensures Run(Site(Lifo), Init("root"), Pages).calls == [Root, PageB, PageD, PageA, PageC]
  {
    var env := Site(Lifo);
    SiteIsClosed(Lifo);
    assert Inv(env, Init("root"), Pages);
    RootStep(Lifo);
    DfsStep2();
    DfsStep3();
    DfsStep4();
    DfsStep5();
    Unfold(env, Init("root"), Bfs1, Pages);
    Unfold(env, Bfs1, Dfs2, Pages);
    Unfold(env, Dfs2, Dfs3, Pages);
    Unfold(env, Dfs3, Dfs4, Pages);
    Unfold(env, Dfs4, Dfs5, Pages);
  }
}
