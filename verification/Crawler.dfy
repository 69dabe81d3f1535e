/**
 The bounded crawler: a first-in first-out worklist over a link graph that may be infinite,
 proved to be a breadth-first search truncated by the page budget.

 The network is an arbitrary function: what a fetch of a URL yields, whether robots.txt lets
 it be fetched, and whether it lies within the source's domains and paths.
 */
module Crawler {
  import opened Options

  type Url = string

  // A fetch raises, yields nothing usable, or yields a resource; only HTML resources carry links.
  datatype Outcome<R> = Raised | Rejected | Fetched(resource: R, links: Option<seq<Url>>)

  datatype Web<!R> = Web(allowed: Url -> bool, robots: Url -> bool, fetch: Url -> Outcome<R>)

  datatype CrawlResult<R> = CrawlResult(resources: seq<R>, pagesCrawled: nat)

  /* ---- The link graph ---- */

  /** `u` was fetched as HTML and links to the allowed URL `v`. */
  predicate Edge<R>(web: Web<R>, u: Url, v: Url) {
    && web.allowed(u) && web.robots(u) && web.fetch(u).Fetched? && web.fetch(u).links.Some?
    && v in web.fetch(u).links.value && web.allowed(v)
  }

  predicate IsPath<R>(web: Web<R>, start: Url, p: seq<Url>) {
    && |p| > 0
    && p[0] == start && web.allowed(start)
    && forall i :: 0 < i < |p| ==> Edge(web, p[i - 1], p[i])
  }

  ghost predicate ReachableIn<R>(web: Web<R>, start: Url, v: Url, steps: nat) {
    exists p :: IsPath(web, start, p) && |p| == steps + 1 && p[steps] == v
  }

  ghost predicate Reachable<R>(web: Web<R>, start: Url, v: Url) {
    exists steps: nat :: ReachableIn(web, start, v, steps)
  }

  /** `d` is the number of links on a shortest path from the start page to `v`. */
  ghost predicate Distance<R>(web: Web<R>, start: Url, v: Url, d: nat) {
    && ReachableIn(web, start, v, d)
    && forall steps: nat :: ReachableIn(web, start, v, steps) ==> d <= steps
  }

  lemma DistanceUnique<R>(web: Web<R>, start: Url, v: Url, d: nat, e: nat)
    requires Distance(web, start, v, d) && Distance(web, start, v, e)
    ensures d == e
  {
  }

  lemma PathExtends<R>(web: Web<R>, start: Url, u: Url, v: Url, steps: nat)
    requires ReachableIn(web, start, u, steps) && Edge(web, u, v)
    ensures ReachableIn(web, start, v, steps + 1)
  {
    var p :| IsPath(web, start, p) && |p| == steps + 1 && p[steps] == u;
    assert IsPath(web, start, p + [v]);
  }

  lemma StartReachable<R>(web: Web<R>, start: Url)
    requires web.allowed(start)
    ensures ReachableIn(web, start, start, 0)
  {
    assert IsPath(web, start, [start]);
  }

  /* ---- The worklist ---- */

  /** `levels[i]` is the number of links after which `queue[i]` was discovered. */
  ghost predicate Levelled<R>(web: Web<R>, start: Url, queue: seq<Url>, levels: seq<nat>) {
    && |levels| == |queue|
    && (forall i, j :: 0 <= i <= j < |levels| ==> levels[i] <= levels[j] <= levels[i] + 1)
    && (forall i :: 0 <= i < |queue| && web.allowed(queue[i]) ==> ReachableIn(web, start, queue[i], levels[i]))
  }

  ghost predicate Queued(queue: seq<Url>, levels: seq<nat>, v: Url, bound: nat)
    requires |levels| == |queue|
  {
    exists i :: 0 <= i < |queue| && queue[i] == v && levels[i] <= bound
  }

  /** Visited URLs carry their distance, none beyond the front of the queue. */
  ghost predicate Settled<R>(web: Web<R>, start: Url, depth: map<Url, nat>, levels: seq<nat>) {
    && (forall u :: u in depth ==> Distance(web, start, u, depth[u]))
    && (forall u :: u in depth && |levels| > 0 ==> depth[u] <= levels[0])
  }

  /** Every link out of a visited URL leads to a visited or queued one. */
  ghost predicate Frontier<R>(web: Web<R>, start: Url, depth: map<Url, nat>, queue: seq<Url>, levels: seq<nat>)
    requires |levels| == |queue|
  {
    && (web.allowed(start) ==> start in depth || Queued(queue, levels, start, 0))
    && (forall u, v :: u in depth && Edge(web, u, v) ==> v in depth || Queued(queue, levels, v, depth[u] + 1))
  }

  /** A path to an unvisited URL passes through the queue no later than its own length. */
  lemma {:induction false} UnvisitedIsBehindQueue<R>(
    web: Web<R>, start: Url, depth: map<Url, nat>, queue: seq<Url>, levels: seq<nat>, p: seq<Url>)
    requires Levelled(web, start, queue, levels)
    requires Settled(web, start, depth, levels) && Frontier(web, start, depth, queue, levels)
    requires IsPath(web, start, p) && p[|p| - 1] !in depth
    ensures |queue| > 0 && levels[0] <= |p| - 1
    decreases |p|
  {
    var n := |p| - 1;
    if n > 0 {
      var shorter := p[..n];
      assert IsPath(web, start, shorter);
      var u := shorter[n - 1];
      if u !in depth {
        UnvisitedIsBehindQueue(web, start, depth, queue, levels, shorter);
      } else {
        assert ReachableIn(web, start, u, n - 1);
        assert Edge(web, u, p[n]);
        assert Queued(queue, levels, p[n], depth[u] + 1);
      }
    }
  }

  lemma FrontIsNearest<R>(
    web: Web<R>, start: Url, depth: map<Url, nat>, queue: seq<Url>, levels: seq<nat>, v: Url, steps: nat)
    requires Levelled(web, start, queue, levels)
    requires Settled(web, start, depth, levels) && Frontier(web, start, depth, queue, levels)
    requires ReachableIn(web, start, v, steps) && v !in depth
    ensures |queue| > 0 && levels[0] <= steps
  {
    var p :| IsPath(web, start, p) && |p| == steps + 1 && p[steps] == v;
    UnvisitedIsBehindQueue(web, start, depth, queue, levels, p);
  }

  /** Taking the front of the queue off, when it is already visited or not allowed. */
  lemma Skipped<R>(web: Web<R>, start: Url, depth: map<Url, nat>, queue: seq<Url>, levels: seq<nat>)
    requires |queue| > 0 && Levelled(web, start, queue, levels)
    requires Settled(web, start, depth, levels) && Frontier(web, start, depth, queue, levels)
    requires queue[0] in depth || !web.allowed(queue[0])
    ensures Levelled(web, start, queue[1..], levels[1..])
    ensures Settled(web, start, depth, levels[1..]) && Frontier(web, start, depth, queue[1..], levels[1..])
  {
    forall v, bound: nat | v != queue[0] && Queued(queue, levels, v, bound)
      ensures Queued(queue[1..], levels[1..], v, bound)
    {
      var i :| 0 <= i < |queue| && queue[i] == v && levels[i] <= bound;
      assert queue[1..][i - 1] == v;
    }
  }

  /** Visiting the front of the queue settles it at its level; its links are still to be queued. */
  lemma Visited<R>(web: Web<R>, start: Url, depth: map<Url, nat>, queue: seq<Url>, levels: seq<nat>)
    requires |queue| > 0 && Levelled(web, start, queue, levels)
    requires Settled(web, start, depth, levels) && Frontier(web, start, depth, queue, levels)
    requires queue[0] !in depth && web.allowed(queue[0])
    ensures Levelled(web, start, queue[1..], levels[1..])
    ensures Settled(web, start, depth[queue[0] := levels[0]], levels[1..])
    ensures FrontierBut(web, start, depth[queue[0] := levels[0]], queue[1..], levels[1..], queue[0])
  {
    var c := queue[0];
    forall steps: nat | ReachableIn(web, start, c, steps)
      ensures levels[0] <= steps
    {
      FrontIsNearest(web, start, depth, queue, levels, c, steps);
    }
    assert Distance(web, start, c, levels[0]);
    forall v, bound: nat | v != c && Queued(queue, levels, v, bound)
      ensures Queued(queue[1..], levels[1..], v, bound)
    {
      var i :| 0 <= i < |queue| && queue[i] == v && levels[i] <= bound;
      assert queue[1..][i - 1] == v;
    }
  }

  /** `Frontier`, except for the links out of `c`. */
  ghost predicate FrontierBut<R>(
    web: Web<R>, start: Url, depth: map<Url, nat>, queue: seq<Url>, levels: seq<nat>, c: Url)
    requires |levels| == |queue|
  {
    && (web.allowed(start) ==> start in depth || Queued(queue, levels, start, 0))
    && (forall u, v :: u in depth && u != c && Edge(web, u, v) ==> v in depth || Queued(queue, levels, v, depth[u] + 1))
  }

  lemma QueuedStays(queue: seq<Url>, levels: seq<nat>, more: Url, level: nat)
    requires |levels| == |queue|
    ensures forall v, bound: nat :: Queued(queue, levels, v, bound) ==> Queued(queue + [more], levels + [level], v, bound)
    ensures Queued(queue + [more], levels + [level], more, level)
  {
    forall v, bound: nat | Queued(queue, levels, v, bound)
      ensures Queued(queue + [more], levels + [level], v, bound)
    {
      var i :| 0 <= i < |queue| && queue[i] == v && levels[i] <= bound;
      assert (queue + [more])[i] == v;
    }
    assert (queue + [more])[|queue|] == more;
  }

  /* ---- What a crawl guarantees ---- */

  function Resources<R>(web: Web<R>, fetched: seq<Url>): seq<R> {
    if fetched == [] then [] else
    var outcome := web.fetch(fetched[|fetched| - 1]);
    Resources(web, fetched[..|fetched| - 1]) + (if outcome.Fetched? then [outcome.resource] else [])
  }

  lemma ResourcesExtend<R>(web: Web<R>, fetched: seq<Url>, u: Url)
    ensures Resources(web, fetched + [u]) ==
            Resources(web, fetched) + (if web.fetch(u).Fetched? then [web.fetch(u).resource] else [])
  {
    assert (fetched + [u])[..|fetched|] == fetched;
  }

  lemma {:induction false} ResourcesWithinPages<R>(web: Web<R>, fetched: seq<Url>)
    ensures |Resources(web, fetched)| <= |fetched|
  {
    if fetched != [] {
      ResourcesWithinPages(web, fetched[..|fetched| - 1]);
    }
  }

  /** No URL is fetched twice, and distances never decrease along the order of fetching. */
  ghost predicate BreadthFirst<R>(web: Web<R>, start: Url, fetched: seq<Url>) {
    && (forall i, j :: 0 <= i < j < |fetched| ==> fetched[i] != fetched[j])
    && (forall i :: 0 <= i < |fetched| ==> Reachable(web, start, fetched[i]) && web.robots(fetched[i]))
    && (forall i, j, d: nat, e: nat ::
          0 <= i < j < |fetched| && Distance(web, start, fetched[i], d) && Distance(web, start, fetched[j], e) ==> d <= e)
  }

  /** Whatever was left unvisited is at least as far away as everything fetched. */
  ghost predicate NothingNearerOmitted<R>(web: Web<R>, start: Url, fetched: seq<Url>, visited: set<Url>) {
    forall i, d: nat, v, e: nat ::
      0 <= i < |fetched| && Distance(web, start, fetched[i], d) && v !in visited && Distance(web, start, v, e) ==> d <= e
  }

  /** The order of fetching follows the settled depths. */
  ghost predicate FetchOrder<R>(web: Web<R>, fetched: seq<Url>, depth: map<Url, nat>) {
    && (forall i, j :: 0 <= i < j < |fetched| ==> fetched[i] != fetched[j])
    && (forall i :: 0 <= i < |fetched| ==> fetched[i] in depth && web.robots(fetched[i]))
    && (forall i, j :: 0 <= i < j < |fetched| ==> depth[fetched[i]] <= depth[fetched[j]])
    && (forall u :: u in depth && web.robots(u) ==> u in fetched)
  }

  lemma CrawlEnds<R>(
    web: Web<R>, start: Url, depth: map<Url, nat>, queue: seq<Url>, levels: seq<nat>, fetched: seq<Url>)
    requires Levelled(web, start, queue, levels)
    requires Settled(web, start, depth, levels) && Frontier(web, start, depth, queue, levels)
    requires FetchOrder(web, fetched, depth)
    ensures BreadthFirst(web, start, fetched) && NothingNearerOmitted(web, start, fetched, depth.Keys)
    ensures forall u :: u in fetched <==> u in depth && web.robots(u)
    ensures queue == [] ==> forall v :: v in depth <==> Reachable(web, start, v)
  {
    forall u | u in depth
      ensures Reachable(web, start, u)
    {
      assert Distance(web, start, u, depth[u]);
    }
    forall v, steps: nat | v !in depth && ReachableIn(web, start, v, steps)
      ensures queue != [] && levels[0] <= steps
    {
      FrontIsNearest(web, start, depth, queue, levels, v, steps);
    }
    forall u, d: nat | u in depth && Distance(web, start, u, d)
      ensures d == depth[u]
    {
      DistanceUnique(web, start, u, d, depth[u]);
    }
    forall v | queue == [] && Reachable(web, start, v)
      ensures v in depth
    {
      var steps: nat :| ReachableIn(web, start, v, steps);
    }
  }

  ghost predicate AllQueued<R>(
    web: Web<R>, depth: map<Url, nat>, queue: seq<Url>, levels: seq<nat>, links: seq<Url>, upTo: nat, level: nat)
    requires |levels| == |queue| && upTo <= |links|
  {
    forall j :: 0 <= j < upTo && web.allowed(links[j]) ==> links[j] in depth || Queued(queue, levels, links[j], level)
  }

  lemma LevelledNext<R>(web: Web<R>, start: Url, queue: seq<Url>, levels: seq<nat>, v: Url, level: nat)
    requires Levelled(web, start, queue, levels) && ReachableIn(web, start, v, level)
    requires forall j :: 0 <= j < |levels| ==> levels[j] <= level <= levels[j] + 1
    ensures Levelled(web, start, queue + [v], levels + [level])
  {
  }

  lemma SettledNext<R>(web: Web<R>, start: Url, depth: map<Url, nat>, levels: seq<nat>, level: nat)
    requires Settled(web, start, depth, levels) && forall u :: u in depth ==> depth[u] <= level
    ensures Settled(web, start, depth, levels + [level])
  {
  }

  lemma FrontierNext<R>(
    web: Web<R>, start: Url, depth: map<Url, nat>, queue: seq<Url>, levels: seq<nat>, c: Url, v: Url, level: nat)
    requires |levels| == |queue| && FrontierBut(web, start, depth, queue, levels, c)
    ensures FrontierBut(web, start, depth, queue + [v], levels + [level], c)
  {
    QueuedStays(queue, levels, v, level);
  }

  lemma AllQueuedNext<R>(
    web: Web<R>, depth: map<Url, nat>, queue: seq<Url>, levels: seq<nat>, links: seq<Url>, i: nat, level: nat)
    requires |levels| == |queue| && i < |links| && AllQueued(web, depth, queue, levels, links, i, level)
    ensures AllQueued(web, depth, queue + [links[i]], levels + [level], links, i + 1, level)
  {
    QueuedStays(queue, levels, links[i], level);
  }

  lemma LinkQueued<R>(
    web: Web<R>, start: Url, page: Url, links: seq<Url>, i: nat, queue: seq<Url>, levels: seq<nat>, depth: map<Url, nat>)
    requires Levelled(web, start, queue, levels)
    requires Settled(web, start, depth, levels) && FrontierBut(web, start, depth, queue, levels, page)
    requires page in depth && i < |links| && Edge(web, page, links[i])
    requires forall j :: 0 <= j < |levels| ==> levels[j] <= depth[page] + 1
    requires forall u :: u in depth ==> depth[u] <= depth[page]
    requires AllQueued(web, depth, queue, levels, links, i, depth[page] + 1)
    ensures var (q, l) := (queue + [links[i]], levels + [depth[page] + 1]);
      && Levelled(web, start, q, l)
      && Settled(web, start, depth, l) && FrontierBut(web, start, depth, q, l, page)
      && AllQueued(web, depth, q, l, links, i + 1, depth[page] + 1)
  {
    var level := depth[page] + 1;
    assert Distance(web, start, page, depth[page]);
    PathExtends(web, start, page, links[i], depth[page]);
    assert forall j :: 0 <= j < |levels| ==> levels[0] <= levels[j];
    LevelledNext(web, start, queue, levels, links[i], level);
    SettledNext(web, start, depth, levels, level);
    FrontierNext(web, start, depth, queue, levels, page, links[i], level);
    AllQueuedNext(web, depth, queue, levels, links, i, level);
  }

  /** Appends the allowed, unvisited links of the page just fetched, one level further out. */
  method QueueLinks<R>(
    web: Web<R>, start: Url, page: Url, links: seq<Url>, queue: seq<Url>, ghost levels: seq<nat>, seen: set<Url>,
    ghost depth: map<Url, nat>)
    returns (queue': seq<Url>, ghost levels': seq<nat>)
    requires Levelled(web, start, queue, levels)
    requires Settled(web, start, depth, levels) && FrontierBut(web, start, depth, queue, levels, page)
    requires page in depth && forall u :: u in seen <==> u in depth
    requires web.allowed(page) && web.robots(page) && web.fetch(page).Fetched? && web.fetch(page).links == Some(links)
    requires forall i :: 0 <= i < |levels| ==> levels[i] <= depth[page] + 1
    requires forall u :: u in depth ==> depth[u] <= depth[page]
    ensures queue <= queue'
    ensures Levelled(web, start, queue', levels')
    ensures Settled(web, start, depth, levels') && Frontier(web, start, depth, queue', levels')
  {
    queue', levels' := queue, levels;
    for i := 0 to |links|
      invariant queue <= queue'
      invariant Levelled(web, start, queue', levels')
      invariant Settled(web, start, depth, levels') && FrontierBut(web, start, depth, queue', levels', page)
      invariant forall j :: 0 <= j < |levels'| ==> levels'[j] <= depth[page] + 1
      invariant AllQueued(web, depth, queue', levels', links, i, depth[page] + 1)
    {
      var next := links[i];
      if next !in seen && web.allowed(next) {
        LinkQueued(web, start, page, links, i, queue', levels', depth);
        queue', levels' := queue' + [next], levels' + [depth[page] + 1];
      }
    }
  }

  /** The search invariant: what is settled, what is queued, and the order of fetching. */
  ghost predicate Searching<R>(
    web: Web<R>, start: Url, depth: map<Url, nat>, queue: seq<Url>, levels: seq<nat>, fetched: seq<Url>)
    requires |levels| == |queue|
  {
    && Levelled(web, start, queue, levels)
    && Settled(web, start, depth, levels) && Frontier(web, start, depth, queue, levels)
    && FetchOrder(web, fetched, depth)
  }

  lemma SearchStarts<R>(web: Web<R>, start: Url)
    ensures Searching(web, start, map[], [start], [0], [])
  {
    if web.allowed(start) {
      StartReachable(web, start);
    }
    assert [start][0] == start;
  }

  lemma NoLinks<R>(web: Web<R>, start: Url, depth: map<Url, nat>, queue: seq<Url>, levels: seq<nat>, c: Url)
    requires |levels| == |queue| && FrontierBut(web, start, depth, queue, levels, c)
    requires !(web.robots(c) && web.fetch(c).Fetched? && web.fetch(c).links.Some?)
    ensures Frontier(web, start, depth, queue, levels)
  {
  }

  lemma FetchedNext<R>(
    web: Web<R>, start: Url, depth: map<Url, nat>, queue: seq<Url>, levels: seq<nat>, fetched: seq<Url>)
    requires |levels| == |queue| > 0 && Settled(web, start, depth, levels) && FetchOrder(web, fetched, depth)
    requires queue[0] !in depth && web.robots(queue[0])
    ensures FetchOrder(web, fetched + [queue[0]], depth[queue[0] := levels[0]])
  {
  }

  /** Fetches the front of the queue, takes it off and queues what it links to. */
  method FollowLinks<R>(
    web: Web<R>, start: Url, queue: seq<Url>, ghost levels: seq<nat>, seen: set<Url>, ghost depth: map<Url, nat>,
    ghost fetched: seq<Url>)
    returns (queue': seq<Url>, ghost levels': seq<nat>)
    requires |levels| == |queue| > 0 && Searching(web, start, depth, queue, levels, fetched)
    requires queue[0] !in depth && web.allowed(queue[0]) && web.robots(queue[0])
    requires forall u :: u in seen <==> u in depth || u == queue[0]
    ensures queue[1..] <= queue' && |levels'| == |queue'|
    ensures Searching(web, start, depth[queue[0] := levels[0]], queue', levels', fetched + [queue[0]])
  {
    var page := queue[0];
    ghost var depth' := depth[page := levels[0]];
    Visited(web, start, depth, queue, levels);
    FetchedNext(web, start, depth, queue, levels, fetched);
    var outcome := web.fetch(page);
    if outcome.Fetched? && outcome.links.Some? {
      queue', levels' := QueueLinks(web, start, page, outcome.links.value, queue[1..], levels[1..], seen, depth');
    } else {
      queue', levels' := queue[1..], levels[1..];
      NoLinks(web, start, depth', queue', levels', page);
    }
  }

  /** The front of the queue is passed over: already visited, not allowed, or denied by robots.txt. */
  lemma PassedOver<R>(
    web: Web<R>, start: Url, depth: map<Url, nat>, queue: seq<Url>, levels: seq<nat>, fetched: seq<Url>,
    depth': map<Url, nat>)
    requires |levels| == |queue| > 0 && Searching(web, start, depth, queue, levels, fetched)
    requires if queue[0] in depth || !web.allowed(queue[0]) then depth' == depth
             else !web.robots(queue[0]) && depth' == depth[queue[0] := levels[0]]
    ensures Searching(web, start, depth', queue[1..], levels[1..], fetched)
  {
    if queue[0] in depth || !web.allowed(queue[0]) {
      Skipped(web, start, depth, queue, levels);
    } else {
      Visited(web, start, depth, queue, levels);
      NoLinks(web, start, depth', queue[1..], levels[1..], queue[0]);
    }
  }

  ghost predicate AnyRaised<R>(web: Web<R>, fetched: seq<Url>) {
    exists i :: 0 <= i < |fetched| && web.fetch(fetched[i]).Raised?
  }

  lemma AnyRaisedExtends<R>(web: Web<R>, fetched: seq<Url>, u: Url)
    ensures AnyRaised(web, fetched + [u]) <==> AnyRaised(web, fetched) || web.fetch(u).Raised?
  {
    assert (fetched + [u])[|fetched|] == u;
    forall i | 0 <= i < |fetched| && web.fetch(fetched[i]).Raised?
      ensures AnyRaised(web, fetched + [u])
    {
      assert (fetched + [u])[i] == fetched[i];
    }
  }

  /** What has been collected from the pages fetched so far. */
  ghost predicate Tracked<R>(web: Web<R>, fetched: seq<Url>, resources: seq<R>, pages: nat, raised: bool) {
    pages == |fetched| && resources == Resources(web, fetched) && (raised <==> AnyRaised(web, fetched))
  }

  /** Counts one more page and collects what it gives. */
  method Collect<R>(web: Web<R>, u: Url, resources: seq<R>, pages: nat, ghost fetched: seq<Url>)
    returns (resources': seq<R>, pages': nat, raised: bool)
    requires Tracked(web, fetched, resources, pages, false)
    ensures Tracked(web, fetched + [u], resources', pages', raised) && pages' == pages + 1
  {
    ResourcesExtend(web, fetched, u);
    AnyRaisedExtends(web, fetched, u);
    resources', pages', raised := resources, pages + 1, false;
    match web.fetch(u)
    case Raised => raised := true;
    case Rejected =>
    case Fetched(resource, _) => resources' := resources + [resource];
  }

  /** The main loop: pages are taken off the queue until it is empty, the budget is spent or a fetch raises. */
  method Search<R>(web: Web<R>, start: Url, maxPages: nat)
    returns (resources: seq<R>, pages: nat, raised: bool, queue: seq<Url>,
             ghost levels: seq<nat>, ghost depth: map<Url, nat>, ghost fetched: seq<Url>)
    ensures |levels| == |queue| && Searching(web, start, depth, queue, levels, fetched)
    ensures pages == |fetched| <= maxPages && resources == Resources(web, fetched)
    ensures !raised ==> queue == [] || pages == maxPages
    ensures raised <==> AnyRaised(web, fetched)
  {
    queue, resources, pages, raised := [start], [], 0, false;
    var seen: set<Url> := {};
    levels, depth, fetched := [0], map[], [];
    SearchStarts(web, start);
    while queue != [] && pages < maxPages && !raised
      invariant forall u :: u in seen <==> u in depth
      invariant Tracked(web, fetched, resources, pages, raised) && pages <= maxPages
      invariant |levels| == |queue| && Searching(web, start, depth, queue, levels, fetched)
      decreases !raised, maxPages - pages, |queue|
    {
      var candidate := queue[0];
      ghost var depth' := depth[candidate := levels[0]];
      if candidate in seen || !web.allowed(candidate) || !web.robots(candidate) {
        if candidate !in seen && web.allowed(candidate) {
          seen := seen + {candidate};
        } else {
          depth' := depth;
        }
        PassedOver(web, start, depth, queue, levels, fetched, depth');
        queue, levels := queue[1..], levels[1..];
      } else {
        seen := seen + {candidate};
        queue, levels := FollowLinks(web, start, queue, levels, seen, depth, fetched);
        resources, pages, raised := Collect(web, candidate, resources, pages, fetched);
        fetched := fetched + [candidate];
      }
      depth := depth';
    }
  }

  /**
   What a crawl may return, for the URLs `fetched` in order and those `visited`; `None` is a crawl
   that raised.  With budget left, exactly the reachable URLs were visited.
   */
  ghost predicate IsCrawl<R>(
    web: Web<R>, start: Url, maxPages: nat, result: Option<CrawlResult<R>>, fetched: seq<Url>, visited: set<Url>)
  {
    && BreadthFirst(web, start, fetched) && NothingNearerOmitted(web, start, fetched, visited)
    && (forall u :: u in fetched <==> u in visited && web.robots(u))
    && |fetched| <= maxPages
    && (result.Some? ==> result.value == CrawlResult(Resources(web, fetched), |fetched|))
    && (result.Some? && |fetched| < maxPages ==> forall v :: v in visited <==> Reachable(web, start, v))
    && (result == None <==> AnyRaised(web, fetched))
  }

  method Crawl<R>(web: Web<R>, start: Url, maxPages: nat) returns (result: Option<CrawlResult<R>>)
    ensures exists fetched, visited :: IsCrawl(web, start, maxPages, result, fetched, visited)
  {
    var resources, pages, raised, queue;
    ghost var levels, depth, fetched;
    resources, pages, raised, queue, levels, depth, fetched := Search(web, start, maxPages);
    CrawlEnds(web, start, depth, queue, levels, fetched);
    result := if raised then None else Some(CrawlResult(resources, pages));
    assert IsCrawl(web, start, maxPages, result, fetched, depth.Keys);
  }
}
