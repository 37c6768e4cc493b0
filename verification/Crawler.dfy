/** The breadth-first crawl of `WebConnector.sync` (`connectors/web.py`).

    The web is a fixed function from a normalised URL to the normalised links of its page, `None`
    where the fetch fails or returns no HTML; the scope filter is a predicate. */
module Crawler {
  import opened Sets
  import opened Wrappers

  const QUEUE_SIZE_MULTIPLIER := 20

  datatype Visit = Visit(url: string, depth: nat)

  datatype Web = Web(seeds: seq<string>, inScope: string -> bool, page: string -> Option<seq<string>>)

  /** The crawl can follow a link from `v` to `u`. */
  predicate LinksTo(w: Web, v: string, u: string) {
    w.inScope(v) && w.page(v).Some? && u in w.page(v).value
  }

  /** `u` is at most `hops` links from a seed. */
  ghost predicate Within(w: Web, u: string, hops: nat)
    decreases hops
  {
    u in w.seeds || (hops > 0 && exists v :: LinksTo(w, v, u) && Within(w, v, hops - 1))
  }

  /** `hops` is the shortest link distance of `u` from the seeds. */
  ghost predicate AtDistance(w: Web, u: string, hops: nat) {
    Within(w, u, hops) && forall fewer: nat :: fewer < hops ==> !Within(w, u, fewer)
  }

  ghost function UrlsOf(visits: seq<Visit>): set<string> {
    set e | e in visits :: e.url
  }

  ghost function SeedSet(w: Web): set<string> {
    set u | u in w.seeds
  }

  lemma {:induction false} WithinGrows(w: Web, u: string, m: nat, n: nat)
    requires m <= n && Within(w, u, m)
    ensures Within(w, u, n)
    decreases m
  {
    if u !in w.seeds {
      var v :| LinksTo(w, v, u) && Within(w, v, m - 1);
      WithinGrows(w, v, m - 1, n - 1);
    }
  }

  // ---------------------------------------------------------------- what the loop keeps

  /** Depths never decrease along the queue and differ by at most one. */
  ghost predicate Ordered(queue: seq<Visit>) {
    forall i, j :: 0 <= i <= j < |queue| ==> queue[i].depth <= queue[j].depth <= queue[i].depth + 1
  }

  ghost predicate Ascending(visits: seq<Visit>) {
    forall i, j :: 0 <= i < j < |visits| ==> visits[i].depth <= visits[j].depth && visits[i].url != visits[j].url
  }

  ghost predicate Reached(w: Web, limit: nat, visits: seq<Visit>) {
    forall e :: e in visits ==> e.depth <= limit && Within(w, e.url, e.depth)
  }

  /** What holds at the head of the loop whether or not the queue cap was hit. */
  ghost predicate Sound(w: Web, limit: nat, queue: seq<Visit>, queued: set<string>, visited: set<string>, processed: seq<Visit>) {
    && Ordered(queue) && Reached(w, limit, queue)
    && Ascending(processed) && Reached(w, limit, processed)
    && queued == visited + UrlsOf(queue) && SeedSet(w) <= queued
    && UrlsOf(processed) == (set u | u in visited && w.inScope(u))
    && (forall u :: u in queued ==> Within(w, u, limit))
    && forall e, f :: e in processed && f in queue ==> e.depth <= f.depth
  }

  /** What holds as well until the queue cap drops a link. */
  ghost predicate Exact(w: Web, limit: nat, queue: seq<Visit>, queued: set<string>, processed: seq<Visit>) {
    && (forall e :: e in queue ==> AtDistance(w, e.url, e.depth))
    && (forall e :: e in processed ==> AtDistance(w, e.url, e.depth))
    && forall e, u :: e in processed && e.depth < limit && LinksTo(w, e.url, u) ==> u in queued
  }

  /** Once only entries of depth `n` or more are left, everything within `n` hops has been queued. */
  lemma {:induction false} NearIsQueued(w: Web, limit: nat, queue: seq<Visit>, queued: set<string>, visited: set<string>,
                                        processed: seq<Visit>, u: string, n: nat)
    requires Sound(w, limit, queue, queued, visited, processed) && Exact(w, limit, queue, queued, processed)
    requires n <= limit && Within(w, u, n) && forall e :: e in queue ==> e.depth >= n
    ensures u in queued
    decreases n
  {
    if u in w.seeds {
      assert u in SeedSet(w);
    } else {
      var v :| LinksTo(w, v, u) && Within(w, v, n - 1);
      NearIsQueued(w, limit, queue, queued, visited, processed, v, n - 1);
      NearIsProcessed(w, limit, queue, queued, visited, processed, v, n - 1);
      var e :| e in processed && e.url == v;
      assert e.depth <= n - 1;
    }
  }

  /** A queued in-scope URL nearer than every queue entry was processed. */
  lemma NearIsProcessed(w: Web, limit: nat, queue: seq<Visit>, queued: set<string>, visited: set<string>,
                        processed: seq<Visit>, u: string, n: nat)
    requires Sound(w, limit, queue, queued, visited, processed) && Exact(w, limit, queue, queued, processed)
    requires u in queued && w.inScope(u) && Within(w, u, n) && forall e :: e in queue ==> e.depth > n
    ensures u in UrlsOf(processed)
  {
    hide Within;
    forall e | e in queue
      ensures e.url != u
    {
      assert AtDistance(w, e.url, e.depth);
    }
    assert u in visited;
  }

  lemma UrlsOfAppend(visits: seq<Visit>, more: seq<Visit>)
    ensures UrlsOf(visits + more) == UrlsOf(visits) + UrlsOf(more)
  {
  }

  lemma UrlsOfOne(e: Visit)
    ensures UrlsOf([e]) == {e.url}
  {
    assert e in [e];
  }

  /** Taking the head off the queue. */
  lemma TailKeeps(w: Web, limit: nat, queue: seq<Visit>)
    requires |queue| > 0 && Ordered(queue) && Reached(w, limit, queue)
    ensures Ordered(queue[1..]) && Reached(w, limit, queue[1..])
    ensures queue[0].depth <= limit && Within(w, queue[0].url, queue[0].depth)
    ensures UrlsOf(queue) == {queue[0].url} + UrlsOf(queue[1..])
    ensures forall e :: e in queue[1..] ==> e in queue && queue[0].depth <= e.depth <= queue[0].depth + 1
  {
    hide Within, UrlsOf;
    assert queue == [queue[0]] + queue[1..];
    UrlsOfAppend([queue[0]], queue[1..]);
    UrlsOfOne(queue[0]);
    assert queue[0] in queue;
    forall e | e in queue[1..]
      ensures e in queue && queue[0].depth <= e.depth <= queue[0].depth + 1
    {
      var j :| 0 <= j < |queue[1..]| && queue[1..][j] == e;
      assert queue[j + 1] == e;
    }
  }

  /** Taking an entry that was visited before, or is out of scope. */
  lemma SkipKeeps(w: Web, limit: nat, queue: seq<Visit>, queued: set<string>, visited: set<string>, processed: seq<Visit>)
    requires Sound(w, limit, queue, queued, visited, processed) && |queue| > 0
    requires queue[0].url in visited || !w.inScope(queue[0].url)
    ensures Sound(w, limit, queue[1..], queued, visited + {queue[0].url}, processed)
    ensures Exact(w, limit, queue, queued, processed) ==> Exact(w, limit, queue[1..], queued, processed)
  {
    hide Within, Ordered, Reached, Ascending, UrlsOf, AtDistance;
    TailKeeps(w, limit, queue);
  }

  /** Processing the head entry, before its links are queued. */
  lemma VisitKeeps(w: Web, limit: nat, queue: seq<Visit>, queued: set<string>, visited: set<string>, processed: seq<Visit>)
    requires Sound(w, limit, queue, queued, visited, processed) && |queue| > 0
    requires queue[0].url !in visited && w.inScope(queue[0].url)
    ensures Sound(w, limit, queue[1..], queued, visited + {queue[0].url}, processed + [queue[0]])
  {
    hide Within, Ordered, Reached, Ascending, UrlsOf;
    var head := queue[0];
    TailKeeps(w, limit, queue);
    UrlsOfAppend(processed, [head]);
    UrlsOfOne(head);
    assert head in queue;
    AscendingAppend(w, limit, processed, head);
  }

  lemma AscendingAppend(w: Web, limit: nat, processed: seq<Visit>, head: Visit)
    requires Ascending(processed) && Reached(w, limit, processed) && head.depth <= limit && Within(w, head.url, head.depth)
    requires head.url !in UrlsOf(processed) && forall e :: e in processed ==> e.depth <= head.depth
    ensures Ascending(processed + [head]) && Reached(w, limit, processed + [head])
  {
    hide Within;
    forall i | 0 <= i < |processed|
      ensures processed[i].depth <= head.depth && processed[i].url != head.url
    {
      assert processed[i] in processed;
    }
  }

  /** What one page's links add to the queue. */
  ghost predicate IsExtension(links: seq<string>, depth: nat, queue: seq<Visit>, queued: set<string>, queue': seq<Visit>, queued': set<string>) {
    && queue <= queue'
    && (forall i :: |queue| <= i < |queue'| ==> queue'[i].depth == depth + 1 && queue'[i].url in links && queue'[i].url !in queued)
    && queued' == queued + UrlsOf(queue'[|queue|..])
  }

  lemma ExtendKeeps(w: Web, limit: nat, head: Visit, links: seq<string>, queue: seq<Visit>, queued: set<string>,
                    queue': seq<Visit>, queued': set<string>, visited: set<string>, processed: seq<Visit>)
    requires Sound(w, limit, queue, queued, visited, processed) && w.page(head.url) == Some(links)
    requires head in processed && head.depth < limit && forall e :: e in queue ==> e.depth <= head.depth + 1
    requires forall e :: e in processed ==> e.depth <= head.depth
    requires IsExtension(links, head.depth, queue, queued, queue', queued')
    ensures Sound(w, limit, queue', queued', visited, processed)
  {
    hide Within, Ordered, Reached, Ascending, UrlsOf;
    UrlsOfExtension(links, head.depth, queue, queued, queue', queued');
    InScopeIfProcessed(w, limit, queue, queued, visited, processed, head);
    ExtensionReached(w, limit, head, links, queue, queued, queue', queued');
    OrderedExtension(queue, queue', head.depth);
  }

  lemma UrlsOfExtension(links: seq<string>, depth: nat, queue: seq<Visit>, queued: set<string>, queue': seq<Visit>, queued': set<string>)
    requires IsExtension(links, depth, queue, queued, queue', queued')
    ensures UrlsOf(queue') == UrlsOf(queue) + UrlsOf(queue'[|queue|..])
    ensures queued' == queued + UrlsOf(queue'[|queue|..])
  {
    hide UrlsOf;
    assert queue' == queue + queue'[|queue|..];
    UrlsOfAppend(queue, queue'[|queue|..]);
  }

  lemma InScopeIfProcessed(w: Web, limit: nat, queue: seq<Visit>, queued: set<string>, visited: set<string>, processed: seq<Visit>, e: Visit)
    requires Sound(w, limit, queue, queued, visited, processed) && e in processed
    ensures w.inScope(e.url) && Within(w, e.url, e.depth)
  {
    hide Within, Ordered, Ascending;
    assert e.url in UrlsOf(processed);
  }

  lemma ExtensionReached(w: Web, limit: nat, head: Visit, links: seq<string>, queue: seq<Visit>, queued: set<string>,
                         queue': seq<Visit>, queued': set<string>)
    requires w.page(head.url) == Some(links) && w.inScope(head.url) && head.depth < limit && Within(w, head.url, head.depth)
    requires IsExtension(links, head.depth, queue, queued, queue', queued') && Reached(w, limit, queue)
    requires forall u :: u in queued ==> Within(w, u, limit)
    ensures Reached(w, limit, queue') && forall u :: u in queued' ==> Within(w, u, limit)
    ensures forall e :: e in queue' ==> e in queue || e.depth == head.depth + 1
  {
    hide Within;
    forall u | u in links
      ensures Within(w, u, head.depth + 1) && Within(w, u, limit)
    {
      StepOut(w, head, u);
      WithinGrows(w, u, head.depth + 1, limit);
    }
    forall e | e in queue'
      ensures e in queue || (e.depth == head.depth + 1 && e.url in links)
    {
      var i :| 0 <= i < |queue'| && queue'[i] == e;
      if i < |queue| {
        assert e == queue[i];
      }
    }
    forall u | u in queued'
      ensures Within(w, u, limit)
    {
      if u !in queued {
        var i :| |queue| <= i < |queue'| && queue'[i].url == u;
      }
    }
  }

  lemma OrderedExtension(queue: seq<Visit>, queue': seq<Visit>, depth: nat)
    requires Ordered(queue) && queue <= queue' && forall e :: e in queue ==> depth <= e.depth <= depth + 1
    requires forall i :: |queue| <= i < |queue'| ==> queue'[i].depth == depth + 1
    ensures Ordered(queue')
  {
    forall i, j | 0 <= i <= j < |queue'|
      ensures queue'[i].depth <= queue'[j].depth <= queue'[i].depth + 1
    {
      if i < |queue| {
        assert queue'[i] == queue[i] && queue[i] in queue;
      }
      if j < |queue| {
        assert queue'[j] == queue[j];
      }
    }
  }

  lemma StepOut(w: Web, head: Visit, u: string)
    requires LinksTo(w, head.url, u) && Within(w, head.url, head.depth)
    ensures Within(w, u, head.depth + 1)
  {
  }

  /** New entries sit at their shortest distance, as everything nearer was queued before. */
  lemma ExtendKeepsExact(w: Web, limit: nat, queue: seq<Visit>, queued: set<string>, visited: set<string>, processed: seq<Visit>,
                         links: seq<string>, queue': seq<Visit>, queued': set<string>)
    requires Sound(w, limit, queue, queued, visited, processed) && Exact(w, limit, queue, queued, processed)
    requires |queue| > 0 && queue[0].depth < limit && w.inScope(queue[0].url) && w.page(queue[0].url) == Some(links)
    requires IsExtension(links, queue[0].depth, queue[1..], queued, queue', queued') && forall u :: u in links ==> u in queued'
    ensures Exact(w, limit, queue', queued', processed + [queue[0]])
  {
    hide Within;
    var head := queue[0];
    assert head in queue;
    forall e | e in queue'
      ensures AtDistance(w, e.url, e.depth)
    {
      var i :| 0 <= i < |queue'| && queue'[i] == e;
      if i < |queue[1..]| {
        assert e == queue[1..][i];
      } else {
        StepOut(w, head, e.url);
        forall fewer: nat | fewer < e.depth
          ensures !Within(w, e.url, fewer)
        {
          if Within(w, e.url, fewer) {
            WithinGrows(w, e.url, fewer, head.depth);
            NearIsQueued(w, limit, queue, queued, visited, processed, e.url, head.depth);
          }
        }
      }
    }
  }

  /** A page whose links are not followed: the depth limit is reached, or there is no HTML. */
  lemma StopKeepsExact(w: Web, limit: nat, queue: seq<Visit>, queued: set<string>, processed: seq<Visit>)
    requires Exact(w, limit, queue, queued, processed) && |queue| > 0
    requires w.page(queue[0].url).None? || queue[0].depth >= limit
    ensures Exact(w, limit, queue[1..], queued, processed + [queue[0]])
  {
    hide Within;
    assert queue[0] in queue;
  }

  // ---------------------------------------------------------------- the crawl

  lemma NoExtension(links: seq<string>, depth: nat, queue: seq<Visit>, queued: set<string>)
    ensures IsExtension(links, depth, queue, queued, queue, queued)
  {
  }

  lemma OneMore(links: seq<string>, depth: nat, queue: seq<Visit>, queued: set<string>, queue': seq<Visit>, queued': set<string>, i: nat)
    requires IsExtension(links, depth, queue, queued, queue', queued') && i < |links| && links[i] !in queued'
    ensures IsExtension(links, depth, queue, queued, queue' + [Visit(links[i], depth + 1)], queued' + {links[i]})
  {
    hide UrlsOf;
    var e := Visit(links[i], depth + 1);
    assert (queue' + [e])[|queue|..] == queue'[|queue|..] + [e];
    UrlsOfAppend(queue'[|queue|..], [e]);
    UrlsOfOne(e);
  }

  /** The links not known yet, in page order, each once. */
  function NewLinks(links: seq<string>, known: set<string>): seq<string> {
    if links == [] then []
    else
      var rest, u := NewLinks(links[..|links| - 1], known), links[|links| - 1];
      if u in known || u in rest then rest else rest + [u]
  }

  /** A link is new once, at its first place on the page, and new links keep the order of those places. */
  lemma {:induction false} NewLinksInOrder(links: seq<string>, known: set<string>)
    ensures forall u :: u in NewLinks(links, known) <==> u in links && u !in known
    ensures forall i, j :: 0 <= i < j < |NewLinks(links, known)| ==>
      exists k :: 0 <= k < |links| && links[k] == NewLinks(links, known)[i] && NewLinks(links, known)[j] !in links[..k + 1]
  {
    if links != [] {
      var front, u := links[..|links| - 1], links[|links| - 1];
      var rest := NewLinks(front, known);
      NewLinksInOrder(front, known);
      forall i, j | 0 <= i < j < |NewLinks(links, known)|
        ensures exists k :: 0 <= k < |links| && links[k] == NewLinks(links, known)[i] && NewLinks(links, known)[j] !in links[..k + 1]
      {
        if j < |rest| {
          var k :| 0 <= k < |front| && front[k] == rest[i] && rest[j] !in front[..k + 1];
          assert links[..k + 1] == front[..k + 1];
        } else {
          assert rest[i] in front && u !in front;
          var k :| 0 <= k < |front| && front[k] == rest[i];
          assert links[k] == rest[i] && u !in links[..k + 1];
        }
      }
    }
  }

  function AsVisits(urls: seq<string>, depth: nat): (visits: seq<Visit>)
    ensures |visits| == |urls|
  {
    seq(|urls|, i requires 0 <= i < |urls| => Visit(urls[i], depth))
  }

  /** How many of `count` new entries still fit. */
  function Fitting(count: nat, size: nat, cap: int): nat {
    if size + count <= cap then count else if size <= cap then cap - size else 0
  }

  /** Queues the links not queued before, in page order, while the queue is below its cap. */
  method QueueLinks(links: seq<string>, depth: nat, cap: int, queue: seq<Visit>, queued: set<string>)
    returns (queue': seq<Visit>, queued': set<string>, ghost dropped: Option<string>)
    ensures IsExtension(links, depth, queue, queued, queue', queued')
    ensures |queue'| - |queue| == |queued'| - |queued|
    ensures dropped.None? ==> forall u :: u in links ==> u in queued'
    ensures dropped.Some? ==> dropped.value in links && dropped.value !in queued' && |queue'| >= cap
    ensures var news := NewLinks(links, queued);
      queue' == queue + AsVisits(news[..Fitting(|news|, |queue|, cap)], depth + 1)
    ensures dropped.None? <==> queue' == queue + AsVisits(NewLinks(links, queued), depth + 1)
  {
    hide UrlsOf, IsExtension, NewLinks;
    queue', queued', dropped := queue, queued, None;
    NoExtension(links, depth, queue, queued);
    ghost var added: seq<string> := [];
    NewLinksStep(links, queued, 0);
    for i := 0 to |links|
      invariant IsExtension(links, depth, queue, queued, queue', queued')
      invariant |queue'| - |queue| == |queued'| - |queued|
      invariant dropped.None? ==> forall j :: 0 <= j < i ==> links[j] in queued'
      invariant dropped.Some? ==> dropped.value in links && dropped.value !in queued' && |queue'| >= cap
      invariant queue' == queue + AsVisits(added, depth + 1) && queued' == queued + set u | u in added
      invariant var news := NewLinks(links[..i], queued);
        added == news[..Fitting(|news|, |queue|, cap)] && (dropped.None? <==> added == news)
    {
      NewLinksStep(links, queued, i);
      if links[i] !in queued' {
        if |queue'| < cap {
          OneMore(links, depth, queue, queued, queue', queued', i);
          queue' := queue' + [Visit(links[i], depth + 1)];
          queued' := queued' + {links[i]};
          added := added + [links[i]];
        } else {
          dropped := Some(links[i]);
        }
      }
    }
    assert links[..|links|] == links;
  }

  lemma NewLinksStep(links: seq<string>, known: set<string>, i: nat)
    requires i <= |links|
    ensures NewLinks(links[..0], known) == []
    ensures var rest := NewLinks(links[..i], known);
      i < |links| ==> NewLinks(links[..i + 1], known) == if links[i] in known || links[i] in rest then rest else rest + [links[i]]
  {
    if i < |links| {
      assert links[..i + 1][..i] == links[..i];
    }
  }

  /** The seeds are queued at depth 0 unconditionally: no cap, repeats included. */
  method QueueSeeds(w: Web) returns (queue: seq<Visit>, queued: set<string>)
    ensures |queue| == |w.seeds| && forall i :: 0 <= i < |queue| ==> queue[i] == Visit(w.seeds[i], 0)
    ensures queued == SeedSet(w)
  {
    queue, queued := [], {};
    for i := 0 to |w.seeds|
      invariant |queue| == i && forall j :: 0 <= j < i ==> queue[j] == Visit(w.seeds[j], 0)
      invariant queued == set u | u in w.seeds[..i]
    {
      assert w.seeds[..i + 1] == w.seeds[..i] + [w.seeds[i]];
      queue := queue + [Visit(w.seeds[i], 0)];
      queued := queued + {w.seeds[i]};
    }
    assert w.seeds[..|w.seeds|] == w.seeds;
  }

  lemma SeedsAreSound(w: Web, limit: nat, queue: seq<Visit>)
    requires |queue| == |w.seeds| && forall i :: 0 <= i < |queue| ==> queue[i] == Visit(w.seeds[i], 0)
    ensures Sound(w, limit, queue, SeedSet(w), {}, []) && Exact(w, limit, queue, SeedSet(w), [])
  {
    assert forall u :: u in w.seeds ==> exists i :: 0 <= i < |queue| && queue[i].url == u;
    assert UrlsOf(queue) == SeedSet(w) by {
      forall u | u in SeedSet(w)
        ensures u in UrlsOf(queue)
      {
        var i :| 0 <= i < |w.seeds| && w.seeds[i] == u;
        assert queue[i] in queue;
      }
    }
  }

  /** `reach` holds every URL within `limit` hops. */
  ghost predicate Covers(w: Web, limit: nat, reach: set<string>) {
    forall u :: Within(w, u, limit) ==> u in reach
  }

  lemma RoomLeft(w: Web, limit: nat, queued: set<string>, reach: set<string>, u: string)
    requires Covers(w, limit, reach) && Within(w, u, limit) && u !in queued && forall v :: v in queued ==> Within(w, v, limit)
    ensures |queued| < |reach|
  {
    SubsetSize(queued + {u}, reach);
  }

  lemma SoundMeans(w: Web, limit: nat, queue: seq<Visit>, queued: set<string>, visited: set<string>, processed: seq<Visit>)
    requires Sound(w, limit, queue, queued, visited, processed)
    ensures Ordered(queue) && Ascending(processed) && Reached(w, limit, processed)
    ensures forall e :: e in processed ==> w.inScope(e.url)
  {
    hide Within;
    forall e | e in processed
      ensures w.inScope(e.url)
    {
      assert e.url in UrlsOf(processed);
    }
  }

  /** Before a page is processed every other entry is at its depth or one below, and every processed
      page at its depth or above. */
  lemma HeadBounds(w: Web, limit: nat, queue: seq<Visit>, queued: set<string>, visited: set<string>, processed: seq<Visit>)
    requires Sound(w, limit, queue, queued, visited, processed) && |queue| > 0
    ensures forall e :: e in queue[1..] ==> e.depth <= queue[0].depth + 1
    ensures forall e :: e in processed + [queue[0]] ==> e.depth <= queue[0].depth
  {
    hide Within, Ordered, Reached, Ascending, UrlsOf;
    TailKeeps(w, limit, queue);
    assert queue[0] in queue;
  }

  /** A dropped link is a URL within the limit that is not queued. */
  lemma DroppedOverflows(w: Web, limit: nat, head: Visit, queue: seq<Visit>, queued: set<string>, visited: set<string>,
                         processed: seq<Visit>, u: string, reach: set<string>)
    requires Sound(w, limit, queue, queued, visited, processed) && head in processed && head.depth < limit
    requires LinksTo(w, head.url, u) && u !in queued
    ensures Covers(w, limit, reach) ==> |queued| < |reach|
  {
    StepOut(w, head, u);
    WithinGrows(w, u, head.depth + 1, limit);
    if Covers(w, limit, reach) {
      RoomLeft(w, limit, queued, reach, u);
    }
  }

  function Limit(depth: int): nat {
    if depth < 0 then 0 else depth
  }

  /** Nearest first: an in-scope URL nearer than a processed page was processed too. */
  ghost predicate NearestFirst(w: Web, processed: seq<Visit>) {
    forall e, u, n: nat :: e in processed && n < e.depth && w.inScope(u) && Within(w, u, n) ==> u in UrlsOf(processed)
  }

  lemma ExactIsNearestFirst(w: Web, limit: nat, queue: seq<Visit>, queued: set<string>, visited: set<string>, processed: seq<Visit>)
    requires Sound(w, limit, queue, queued, visited, processed) && Exact(w, limit, queue, queued, processed)
    ensures NearestFirst(w, processed) && forall e :: e in processed ==> AtDistance(w, e.url, e.depth)
    ensures queue == [] ==> forall u :: w.inScope(u) && Within(w, u, limit) ==> u in UrlsOf(processed)
  {
    hide Within;
    forall e, u, n: nat | e in processed && n < e.depth && w.inScope(u) && Within(w, u, n)
      ensures u in UrlsOf(processed)
    {
      NearIsQueued(w, limit, queue, queued, visited, processed, u, n);
      NearIsProcessed(w, limit, queue, queued, visited, processed, u, n);
    }
    if queue == [] {
      forall u | w.inScope(u) && Within(w, u, limit)
        ensures u in UrlsOf(processed)
      {
        NearIsQueued(w, limit, queue, queued, visited, processed, u, limit);
        NearIsProcessed(w, limit, queue, queued, visited, processed, u, limit);
      }
    }
  }

  // ---------------------------------------------------------------- the order of the crawl

  function SeedVisits(w: Web): seq<Visit> {
    AsVisits(w.seeds, 0)
  }

  /** The entries taken off the queue that are fetched: the first for each URL in scope. */
  ghost function Fetched(w: Web, taken: seq<Visit>): seq<Visit> {
    if taken == [] then []
    else
      var front, last := taken[..|taken| - 1], taken[|taken| - 1];
      if last.url in UrlsOf(front) || !w.inScope(last.url) then Fetched(w, front) else Fetched(w, front) + [last]
  }

  /** What one page adds: its links that are not known, if it lies above the depth limit. */
  ghost function LinksOf(w: Web, depth: int, page: Visit, known: set<string>): seq<Visit> {
    if w.page(page.url).Some? && page.depth < depth then AsVisits(NewLinks(w.page(page.url).value, known), page.depth + 1) else []
  }

  /** What the pages add to an uncapped queue, page by page. */
  ghost function Discovered(w: Web, depth: int, pages: seq<Visit>): seq<Visit> {
    if pages == [] then []
    else
      var before, last := Discovered(w, depth, pages[..|pages| - 1]), pages[|pages| - 1];
      before + LinksOf(w, depth, last, SeedSet(w) + UrlsOf(before))
  }

  lemma FetchedStep(w: Web, taken: seq<Visit>, last: Visit)
    ensures Fetched(w, taken + [last]) ==
      if last.url in UrlsOf(taken) || !w.inScope(last.url) then Fetched(w, taken) else Fetched(w, taken) + [last]
    ensures UrlsOf(taken + [last]) == UrlsOf(taken) + {last.url}
  {
    assert (taken + [last])[..|taken|] == taken;
    UrlsOfAppend(taken, [last]);
    UrlsOfOne(last);
  }

  lemma DiscoveredStep(w: Web, depth: int, pages: seq<Visit>, last: Visit)
    ensures var before := Discovered(w, depth, pages);
      Discovered(w, depth, pages + [last]) == before + LinksOf(w, depth, last, SeedSet(w) + UrlsOf(before))
  {
    assert (pages + [last])[..|pages|] == pages;
  }

  /** The queue is worked off first in, first out: what was taken and what is left are the seeds and then,
      until the cap drops a link, what the fetched pages add. */
  ghost predicate FirstInFirstOut(w: Web, depth: int, taken: seq<Visit>, queue: seq<Visit>, processed: seq<Visit>, capped: bool) {
    && processed == Fetched(w, taken)
    && SeedVisits(w) <= taken + queue
    && (!capped ==> taken + queue == SeedVisits(w) + Discovered(w, depth, processed))
  }

  lemma StartsWithSeeds(w: Web, depth: int, queue: seq<Visit>)
    requires |queue| == |w.seeds| && forall i :: 0 <= i < |queue| ==> queue[i] == Visit(w.seeds[i], 0)
    ensures FirstInFirstOut(w, depth, [], queue, [], false)
  {
    assert queue == SeedVisits(w);
  }

  lemma SkipKeepsOrder(w: Web, depth: int, taken: seq<Visit>, queue: seq<Visit>, processed: seq<Visit>, capped: bool)
    requires FirstInFirstOut(w, depth, taken, queue, processed, capped) && queue != []
    requires queue[0].url in UrlsOf(taken) || !w.inScope(queue[0].url)
    ensures FirstInFirstOut(w, depth, taken + [queue[0]], queue[1..], processed, capped)
  {
    hide UrlsOf;
    FetchedStep(w, taken, queue[0]);
    assert taken + [queue[0]] + queue[1..] == taken + queue;
  }

  /** `added` is what the head's page contributed, or part of it if the cap was reached. */
  lemma VisitKeepsOrder(w: Web, depth: int, taken: seq<Visit>, queue: seq<Visit>, processed: seq<Visit>, capped: bool, queued: set<string>,
                        added: seq<Visit>, capped': bool)
    requires FirstInFirstOut(w, depth, taken, queue, processed, capped) && queue != []
    requires queue[0].url !in UrlsOf(taken) && w.inScope(queue[0].url)
    requires !capped' ==> !capped && queued == UrlsOf(taken + queue) && added == LinksOf(w, depth, queue[0], queued)
    ensures FirstInFirstOut(w, depth, taken + [queue[0]], queue[1..] + added, processed + [queue[0]], capped')
  {
    hide UrlsOf, LinksOf, Fetched, Discovered, SeedVisits, SeedSet;
    FetchedStep(w, taken, queue[0]);
    DiscoveredStep(w, depth, processed, queue[0]);
    assert taken + [queue[0]] + (queue[1..] + added) == (taken + queue) + added;
    if !capped' {
      UrlsOfAppend(SeedVisits(w), Discovered(w, depth, processed));
      UrlsOfSeeds(w);
    }
  }

  lemma NoUrls()
    ensures UrlsOf([]) == {}
  {
  }

  /** The URLs queued so far are those taken or still queued. */
  lemma QueuedIsKnown(w: Web, limit: nat, queue: seq<Visit>, queued: set<string>, visited: set<string>, processed: seq<Visit>,
                      taken: seq<Visit>)
    requires Sound(w, limit, queue, queued, visited, processed) && visited == UrlsOf(taken)
    ensures queued == UrlsOf(taken + queue)
  {
    hide UrlsOf;
    UrlsOfAppend(taken, queue);
  }

  lemma UrlsOfSeeds(w: Web)
    ensures UrlsOf(SeedVisits(w)) == SeedSet(w)
  {
    forall u | u in SeedSet(w)
      ensures u in UrlsOf(SeedVisits(w))
    {
      var i :| 0 <= i < |w.seeds| && w.seeds[i] == u;
      assert SeedVisits(w)[i] in SeedVisits(w);
    }
  }

  function Larger(a: int, b: int): int {
    if a < b then b else a
  }

  /** The crawl: `processed` lists the pages fetched with the depth each carried, `queue` what was left,
      `taken` what was taken off it, one entry a round, and `capped` whether the queue cap ever dropped a
      link. `abort(t)` is what the abort flag says on round `t`. */
  method Sync(w: Web, depth: int, maxPages: int, abort: nat -> bool, ghost reach: set<string>)
    returns (processed: seq<Visit>, queue: seq<Visit>, aborted: bool, ghost taken: seq<Visit>, ghost capped: bool)
    ensures FirstInFirstOut(w, depth, taken, queue, processed, capped)
    ensures (forall t :: 0 <= t < |taken| ==> !abort(t)) && (aborted ==> abort(|taken|))
    ensures |queue| <= Larger(|w.seeds|, maxPages * QUEUE_SIZE_MULTIPLIER)
    ensures |processed| <= Limit(maxPages) && Ascending(processed)
    ensures forall e :: e in processed ==> w.inScope(e.url)
    ensures Reached(w, Limit(depth), processed)
    ensures Ordered(queue)
    ensures !aborted && queue != [] ==> |processed| >= maxPages
    ensures !capped ==> forall e :: e in processed ==> AtDistance(w, e.url, e.depth)
    ensures !capped ==> NearestFirst(w, processed)
    ensures !capped && queue == [] ==> forall u :: w.inScope(u) && Within(w, u, Limit(depth)) ==> u in UrlsOf(processed)
    ensures Covers(w, Limit(depth), reach) && |w.seeds| + |reach| <= maxPages * QUEUE_SIZE_MULTIPLIER ==> !capped
  {
    hide Within, Sound, Exact, AtDistance, FirstInFirstOut, NewLinks, UrlsOf, AsVisits, IsExtension, Covers, NearestFirst, Ordered,
      Ascending, Reached, Fetched;
    ghost var limit := Limit(depth);
    var cap := maxPages * QUEUE_SIZE_MULTIPLIER;
    var visited: set<string> := {};
    var queued;
    queue, queued := QueueSeeds(w);
    processed, aborted, capped, taken := [], false, false, [];
    SeedsAreSound(w, limit, queue);
    StartsWithSeeds(w, depth, queue);
    NoUrls();
    var round := 0;
    while queue != [] && |processed| < maxPages
      invariant |processed| <= Limit(maxPages) && !aborted
      invariant FirstInFirstOut(w, depth, taken, queue, processed, capped) && visited == UrlsOf(taken)
      invariant round == |taken| && forall t :: 0 <= t < round ==> !abort(t)
      invariant |queue| <= Larger(|w.seeds|, cap)
      invariant Sound(w, limit, queue, queued, visited, processed)
      invariant !capped ==> Exact(w, limit, queue, queued, processed)
      invariant |queue| + |SeedSet(w)| <= |w.seeds| + |queued|
      invariant Covers(w, limit, reach) && |w.seeds| + |reach| <= cap ==> !capped
      decreases maxPages - |processed|, |queue|
    {
      if abort(round) {
        aborted := true;
        break;
      }
      round := round + 1;
      var head := queue[0];
      ghost var takenBefore := taken;
      taken := taken + [head];
      FetchedStep(w, takenBefore, head);
      if head.url in visited || !w.inScope(head.url) {
        SkipKeeps(w, limit, queue, queued, visited, processed);
        SkipKeepsOrder(w, depth, takenBefore, queue, processed, capped);
        queue, visited := queue[1..], visited + {head.url};
        continue;
      }
      VisitKeeps(w, limit, queue, queued, visited, processed);
      ghost var before, seen, wasProcessed, known, wasCapped := queue, visited, processed, queued, capped;
      QueuedIsKnown(w, limit, queue, queued, visited, processed, takenBefore);
      queue, visited, processed := queue[1..], visited + {head.url}, processed + [head];
      var html := w.page(head.url);
      if html.Some? && head.depth < depth {
        HeadBounds(w, limit, before, queued, seen, wasProcessed);
        ghost var rest := queue;
        ghost var dropped;
        queue, queued, dropped := QueueLinks(html.value, head.depth, cap, queue, queued);
        ExtendKeeps(w, limit, head, html.value, rest, known, queue, queued, visited, processed);
        if dropped.Some? {
          capped := true;
          DroppedOverflows(w, limit, head, queue, queued, visited, processed, dropped.value, reach);
        } else if !capped {
          ExtendKeepsExact(w, limit, before, known, seen, wasProcessed, html.value, queue, queued);
        }
      } else if !capped {
        StopKeepsExact(w, limit, before, queued, wasProcessed);
      }
      VisitKeepsOrder(w, depth, takenBefore, before, wasProcessed, wasCapped, known, queue[|before| - 1..], capped);
      assert queue == before[1..] + queue[|before| - 1..];
    }
    SoundMeans(w, limit, queue, queued, visited, processed);
    if !capped {
      ExactIsNearestFirst(w, limit, queue, queued, visited, processed);
    }
  }
}
