/**
The same-origin crawler of the black-box agent: a work list that marks a URL as visited
when it is popped, so one URL may wait in the list several times. The loop is proved to return
the crawl result that `CrawlOrder` defines.
*/
module Crawler {
  import opened Prelude
  import opened CrawlOrder

  /** The foreign part: `urlparse(u).netloc`, `urljoin(base, href)` and `client.get(u)`, where
      `None` is a request that raised. */
  datatype Web = Web(netloc: Url -> string,
                     join: (Url, string) -> Url,
                     get: Url -> Option<Response>)

  /** The links among `hrefs` of page `url` that stay on `origin`. */
  function SameOrigin(w: Web, origin: string, url: Url, hrefs: seq<string>): seq<Url> {
    if hrefs == [] then [] else
      var candidate := w.join(url, hrefs[0]);
      (if w.netloc(candidate) == origin then [candidate] else [])
      + SameOrigin(w, origin, url, hrefs[1..])
  }

  /** Out-links of `url`: none unless it can be fetched and is some kind of HTML. */
  function Links(w: Web, start: Url, url: Url): seq<Url> {
    match w.get(url)
    case None => []
    case Some(response) =>
      if Contains(response.contentType, "html")
      then SameOrigin(w, w.netloc(start), url, response.hrefs)
      else []
  }

  function SiteOf(w: Web, start: Url): Site {
    Site(start, url => Links(w, start, url), w.get)
  }

  // ----- the links in terms of the web

  /** Page `v` is some kind of HTML and has an `href` that joins to `u`, of the start URL's origin. */
  ghost predicate LinksTo(w: Web, start: Url, v: Url, u: Url) {
    exists r, h ::
      && w.get(v) == Some(r) && Surrounds(r.contentType, "html")
      && h in r.hrefs && u == w.join(v, h) && w.netloc(u) == w.netloc(start)
  }

  lemma LinksAreHtmlHrefs(w: Web, start: Url, v: Url, u: Url)
    ensures u in SiteOf(w, start).links(v) <==> LinksTo(w, start, v, u)
  {
    if w.get(v).Some? {
      var r := w.get(v).value;
      ContainsMeans(r.contentType, "html");
      SameOriginMembers(w, w.netloc(start), v, r.hrefs);
    }
  }

  /** The links of a page keep the order of its `href`s: they are the joined `href`s at the positions
      `at`, which are all those of the start URL's origin. */
  lemma LinksKeepHrefOrder(w: Web, start: Url, v: Url, r: Response) returns (at: seq<nat>)
    requires w.get(v) == Some(r) && Surrounds(r.contentType, "html")
    ensures |at| == |SiteOf(w, start).links(v)|
    ensures forall i :: 0 <= i < |at| ==> at[i] < |r.hrefs| && SiteOf(w, start).links(v)[i] == w.join(v, r.hrefs[at[i]])
    ensures forall i, j :: 0 <= i < j < |at| ==> at[i] < at[j]
    ensures forall k :: 0 <= k < |r.hrefs| ==> (k in at <==> w.netloc(w.join(v, r.hrefs[k])) == w.netloc(start))
  {
    ContainsMeans(r.contentType, "html");
    at := SameOriginPositions(w, w.netloc(start), v, r.hrefs, 0);
    assert r.hrefs[0..] == r.hrefs;
  }

  /** The `links` are the joined `href`s at the positions `at`, all those from `i` on of the origin. */
  ghost predicate AreAt(w: Web, origin: string, v: Url, hrefs: seq<string>, i: nat, links: seq<Url>, at: seq<nat>) {
    && |at| == |links|
    && (forall k :: 0 <= k < |at| ==> i <= at[k] < |hrefs| && links[k] == w.join(v, hrefs[at[k]]))
    && (forall k, m :: 0 <= k < m < |at| ==> at[k] < at[m])
    && (forall k :: i <= k < |hrefs| ==> (k in at <==> w.netloc(w.join(v, hrefs[k])) == origin))
  }

  lemma OneMoreLink(w: Web, origin: string, v: Url, hrefs: seq<string>, i: nat, links: seq<Url>, at: seq<nat>)
    requires i < |hrefs| && AreAt(w, origin, v, hrefs, i + 1, links, at)
    ensures var u := w.join(v, hrefs[i]);
            if w.netloc(u) == origin then AreAt(w, origin, v, hrefs, i, [u] + links, [i] + at)
            else AreAt(w, origin, v, hrefs, i, links, at)
  {
    var more := [i] + at;
    assert forall k :: k in more <==> k == i || k in at;
  }

  lemma SameOriginFrom(w: Web, origin: string, v: Url, hrefs: seq<string>, i: nat)
    requires i < |hrefs|
    ensures var u, rest := w.join(v, hrefs[i]), SameOrigin(w, origin, v, hrefs[i + 1..]);
            SameOrigin(w, origin, v, hrefs[i..]) == if w.netloc(u) == origin then [u] + rest else rest
  {
    assert hrefs[i..][1..] == hrefs[i + 1..];
  }

  lemma {:induction false} SameOriginPositions(w: Web, origin: string, v: Url, hrefs: seq<string>, i: nat)
    returns (at: seq<nat>)
    requires i <= |hrefs|
    ensures AreAt(w, origin, v, hrefs, i, SameOrigin(w, origin, v, hrefs[i..]), at)
    decreases |hrefs| - i
  {
    at := [];
    if i < |hrefs| {
      at := SameOriginPositions(w, origin, v, hrefs, i + 1);
      OneMoreLink(w, origin, v, hrefs, i, SameOrigin(w, origin, v, hrefs[i + 1..]), at);
      SameOriginFrom(w, origin, v, hrefs, i);
      if w.netloc(w.join(v, hrefs[i])) == origin {
        at := [i] + at;
      }
    }
  }

  /** `u` can be reached from `start` by following exactly `n` links of the web. */
  ghost predicate WalksTo(w: Web, start: Url, u: Url, n: nat)
    decreases n
  {
    if n == 0 then u == start
    else exists v :: WalksTo(w, start, v, n - 1) && LinksTo(w, start, v, u)
  }

  ghost predicate CanWalkTo(w: Web, start: Url, u: Url) {
    exists n: nat :: WalksTo(w, start, u, n)
  }

  ghost predicate WalkDistance(w: Web, start: Url, u: Url, n: nat) {
    WalksTo(w, start, u, n) && forall k: nat :: k < n ==> !WalksTo(w, start, u, k)
  }

  lemma {:induction false} WalkIsReach(w: Web, start: Url, u: Url, n: nat)
    requires WalksTo(w, start, u, n)
    ensures Reaches(SiteOf(w, start), u, n)
    decreases n
  {
    if n > 0 {
      var v :| WalksTo(w, start, v, n - 1) && LinksTo(w, start, v, u);
      WalkIsReach(w, start, v, n - 1);
      LinksAreHtmlHrefs(w, start, v, u);
    }
  }

  lemma {:induction false} ReachIsWalk(w: Web, start: Url, u: Url, n: nat)
    requires Reaches(SiteOf(w, start), u, n)
    ensures WalksTo(w, start, u, n)
    decreases n
  {
    if n > 0 {
      var v :| Reaches(SiteOf(w, start), v, n - 1) && u in SiteOf(w, start).links(v);
      ReachIsWalk(w, start, v, n - 1);
      LinksAreHtmlHrefs(w, start, v, u);
    }
  }

  lemma WalksAreReaches(w: Web, start: Url, u: Url, n: nat)
    ensures WalksTo(w, start, u, n) <==> Reaches(SiteOf(w, start), u, n)
  {
    if WalksTo(w, start, u, n) {
      WalkIsReach(w, start, u, n);
    }
    if Reaches(SiteOf(w, start), u, n) {
      ReachIsWalk(w, start, u, n);
    }
  }

  lemma WalkDistanceIsDistance(w: Web, start: Url, u: Url, n: nat)
    ensures WalkDistance(w, start, u, n) <==> Distance(SiteOf(w, start), u, n)
  {
    WalksAreReaches(w, start, u, n);
    forall k: nat | k < n ensures WalksTo(w, start, u, k) <==> Reaches(SiteOf(w, start), u, k) {
      WalksAreReaches(w, start, u, k);
    }
  }

  /** What a caller gets, in terms of the web alone: at most fifteen distinct pages with what they
      answered, each reached by walking, nearest first. */
  ghost predicate NearestPages(w: Web, start: Url, pages: seq<Page>) {
    && |pages| <= 15
    && (forall i :: 0 <= i < |pages| ==> w.get(pages[i].0) == Some(pages[i].1) && CanWalkTo(w, start, pages[i].0))
    && (forall i, j :: 0 <= i < j < |pages| ==> pages[i].0 != pages[j].0)
    && (forall i, j, d, e
          | 0 <= i < j < |pages| && WalkDistance(w, start, pages[i].0, d) && WalkDistance(w, start, pages[j].0, e)
          :: d <= e)
  }

  ghost predicate InPages(u: Url, pages: seq<Page>) {
    exists i :: 0 <= i < |pages| && pages[i].0 == u
  }

  /** And what is left out: nothing that can be walked to and fetched, unless there are fifteen pages
      that are no farther away. */
  ghost predicate NoneNearerMissed(w: Web, start: Url, pages: seq<Page>) {
    forall u, d :: WalkDistance(w, start, u, d) && w.get(u).Some? && !InPages(u, pages) ==>
      && |pages| == 15
      && forall i, e :: 0 <= i < |pages| && WalkDistance(w, start, pages[i].0, e) ==> e <= d
  }

  /** Below fifteen the pages are all that can be walked to and fetched. */
  ghost predicate CompleteBelowCap(w: Web, start: Url, pages: seq<Page>) {
    |pages| < 15 ==> forall u :: InPages(u, pages) <==> CanWalkTo(w, start, u) && w.get(u).Some?
  }

  lemma BelowCapInWebTerms(w: Web, start: Url, pages: seq<Page>)
    requires IsCrawl(SiteOf(w, start), pages)
    ensures CompleteBelowCap(w, start, pages)
  {
    if |pages| < 15 {
      forall u ensures InPages(u, pages) <==> CanWalkTo(w, start, u) && w.get(u).Some? {
        CrawlBelowCapIsComplete(SiteOf(w, start), pages, u);
        forall n: nat ensures WalksTo(w, start, u, n) <==> Reaches(SiteOf(w, start), u, n) {
          WalksAreReaches(w, start, u, n);
        }
      }
    }
  }

  lemma CrawlInWebTerms(w: Web, start: Url, pages: seq<Page>)
    requires IsCrawl(SiteOf(w, start), pages)
    ensures NearestPages(w, start, pages) && NoneNearerMissed(w, start, pages)
  {
    CrawlIsNearestFirst(SiteOf(w, start), pages);
    forall i | 0 <= i < |pages| ensures CanWalkTo(w, start, pages[i].0) {
      var n: nat :| Reaches(SiteOf(w, start), pages[i].0, n);
      ReachIsWalk(w, start, pages[i].0, n);
    }
    forall u, n: nat
      ensures WalksTo(w, start, u, n) <==> Reaches(SiteOf(w, start), u, n)
      ensures WalkDistance(w, start, u, n) <==> Distance(SiteOf(w, start), u, n)
    {
      WalksAreReaches(w, start, u, n);
      WalkDistanceIsDistance(w, start, u, n);
    }
  }

  // ----- the rounds of the loop

  /** Where the loop is in the layered order: in round `n` the URLs of `done` were visited,
      `current` is what is left of the round's raw list and `next` the raw list of the next
      round, without some URLs that were already visited when they were found. */
  datatype Round = Round(n: nat, order: seq<Url>, done: seq<Url>, current: seq<Url>, next: seq<Url>)

  ghost predicate InRound(g: Site, r: Round) {
    && r.order == Before(g, r.n) + r.done
    && Level(g, r.n) == r.done + Fresh(r.current, Elems(r.order))
    && Drop(r.next, Elems(r.order)) == Drop(AllLinks(g, r.done), Elems(r.order))
  }

  ghost predicate Follows(g: Site, r: Round, visited: set<Url>, queue: seq<Url>, pages: seq<Page>) {
    && InRound(g, r)
    && visited == Elems(r.order)
    && queue == r.current + r.next
    && pages == Fetched(g, r.order)
    && |pages| <= MAX_CRAWL_PAGES
  }

  lemma StartsInRoundZero(g: Site)
    ensures Follows(g, Round(0, [], [], [g.start], []), {}, [g.start], [])
  {
    assert Fetched(g, []) == [];
    assert AllLinks(g, []) == [];
    assert Fresh([g.start], {}) == [g.start];
    assert Elems<Url>([]) == {};
  }

  lemma VisitedOnce(g: Site, r: Round)
    requires InRound(g, r)
    ensures Distinct(r.order) && r.order <= Order(g, r.n)
  {
    OrderIsDistinct(g, r.n);
    assert r.order <= Order(g, r.n);
  }

  lemma NextRound(g: Site, r: Round)
    requires InRound(g, r) && r.current == []
    ensures r.order == Order(g, r.n)
    ensures InRound(g, Round(r.n + 1, r.order, [], r.next, []))
  {
    var raw, seen := AllLinks(g, r.done), Elems(r.order);
    assert Fresh(r.current, seen) == [];
    assert r.done == Level(g, r.n);
    assert r.order == Order(g, r.n) == Before(g, r.n + 1);
    assert Level(g, r.n + 1) == Fresh(raw, seen);
    FreshIgnoresKnown(raw, seen, seen);
    FreshIgnoresKnown(r.next, seen, seen);
    assert AllLinks(g, []) == [] && Drop([], seen) == [];
  }

  ghost function Visit(r: Round, added: seq<Url>): Round
    requires r.current != []
  {
    Round(r.n, r.order + [r.current[0]], r.done + [r.current[0]], r.current[1..], r.next + added)
  }

  lemma VisitKeepsRound(g: Site, r: Round, added: seq<Url>)
    requires InRound(g, r) && r.current != [] && r.current[0] !in r.order
    requires added == Drop(g.links(r.current[0]), Elems(r.order) + {r.current[0]})
    ensures InRound(g, Visit(r, added))
  {
    OrderAfterVisit(r, added);
    LevelAfterVisit(g, r, added);
    NextAfterVisit(g, r, added);
    Associative(Before(g, r.n), r.done, [r.current[0]]);
  }

  lemma OrderAfterVisit(r: Round, added: seq<Url>)
    requires r.current != []
    ensures Elems(Visit(r, added).order) == Elems(r.order) + {r.current[0]}
  {
  }

  lemma LevelAfterVisit(g: Site, r: Round, added: seq<Url>)
    requires InRound(g, r) && r.current != [] && r.current[0] !in r.order
    ensures Level(g, r.n) == Visit(r, added).done + Fresh(r.current[1..], Elems(Visit(r, added).order))
  {
    OrderAfterVisit(r, added);
    Associative(r.done, [r.current[0]], Fresh(r.current[1..], Elems(Visit(r, added).order)));
  }

  lemma NextAfterVisit(g: Site, r: Round, added: seq<Url>)
    requires r.current != [] && Drop(r.next, Elems(r.order)) == Drop(AllLinks(g, r.done), Elems(r.order))
    requires added == Drop(g.links(r.current[0]), Elems(r.order) + {r.current[0]})
    ensures var r' := Visit(r, added);
            Drop(r'.next, Elems(r'.order)) == Drop(AllLinks(g, r'.done), Elems(r'.order))
  {
    OrderAfterVisit(r, added);
    var seen, seen' := Elems(r.order), Elems(Visit(r, added).order);
    var raw, links := AllLinks(g, r.done), g.links(r.current[0]);
    assert AllLinks(g, r.done + [r.current[0]]) == raw + links by {
      assert (r.done + [r.current[0]])[..|r.done|] == r.done;
    }
    DropConcat(raw, links, seen');
    DropConcat(r.next, added, seen');
    DropTwice(links, seen', seen');
    DropTwice(r.next, seen, seen');
    DropTwice(raw, seen, seen');
  }

  /** The round the next URL of the queue belongs to: the next one if this one is finished. */
  ghost function Entered(r: Round): Round {
    if r.current == [] then Round(r.n + 1, r.order, [], r.next, []) else r
  }

  lemma EnterRound(g: Site, r: Round, visited: set<Url>, queue: seq<Url>, pages: seq<Page>)
    requires Follows(g, r, visited, queue, pages) && queue != []
    ensures Follows(g, Entered(r), visited, queue, pages) && Entered(r).current != []
  {
    if r.current == [] {
      NextRound(g, r);
    }
  }

  lemma PopNew(g: Site, r: Round, visited: set<Url>, queue: seq<Url>, pages: seq<Page>, added: seq<Url>)
    requires Follows(g, r, visited, queue, pages) && r.current != [] && |pages| < MAX_CRAWL_PAGES
    requires queue[0] !in visited && added == Drop(g.links(queue[0]), visited + {queue[0]})
    ensures Follows(g, Visit(r, added), visited + {queue[0]}, queue[1..] + added, pages + Fetched(g, [queue[0]]))
  {
    var r' := Visit(r, added);
    assert InRound(g, r') by {
      VisitKeepsRound(g, r, added);
    }
    assert visited + {queue[0]} == Elems(r'.order) by {
      OrderAfterVisit(r, added);
    }
    assert queue[1..] + added == r'.current + r'.next by {
      QueueAfterVisit(r, added);
    }
    assert Fetched(g, r'.order) == pages + Fetched(g, [queue[0]]) && |Fetched(g, [queue[0]])| <= 1 by {
      FetchedConcat(g, r.order, [queue[0]]);
      OneFetched(g, queue[0]);
    }
  }

  lemma QueueAfterVisit(r: Round, added: seq<Url>)
    requires r.current != []
    ensures (r.current + r.next)[1..] + added == r.current[1..] + (r.next + added)
  {
    QueueAfterSkip(r);
    Associative(r.current[1..], r.next, added);
  }

  lemma OneFetched(g: Site, url: Url)
    ensures Fetched(g, [url]) == match g.get(url) case None => [] case Some(response) => [(url, response)]
  {
    assert [url][..0] == [];
  }

  ghost function Skip(r: Round): Round
    requires r.current != []
  {
    Round(r.n, r.order, r.done, r.current[1..], r.next)
  }

  lemma PopSeen(g: Site, r: Round, visited: set<Url>, queue: seq<Url>, pages: seq<Page>)
    requires Follows(g, r, visited, queue, pages) && r.current != [] && queue[0] in visited
    ensures Follows(g, Skip(r), visited, queue[1..], pages)
  {
    assert InRound(g, Skip(r)) by {
      SkipKeepsRound(g, r);
    }
    assert queue[1..] == Skip(r).current + Skip(r).next by {
      QueueAfterSkip(r);
    }
  }

  lemma QueueAfterSkip(r: Round)
    requires r.current != []
    ensures (r.current + r.next)[1..] == r.current[1..] + r.next
  {
  }

  lemma SkipKeepsRound(g: Site, r: Round)
    requires InRound(g, r) && r.current != [] && r.current[0] in Elems(r.order)
    ensures InRound(g, Skip(r))
  {
    assert Fresh(r.current, Elems(r.order)) == Fresh(r.current[1..], Elems(r.order));
  }

  /** A URL that cannot be fetched is only marked as visited. */
  lemma PopFailed(g: Site, r: Round, visited: set<Url>, queue: seq<Url>, pages: seq<Page>)
    requires Follows(g, r, visited, queue, pages) && r.current != [] && |pages| < MAX_CRAWL_PAGES
    requires queue[0] !in visited && g.get(queue[0]).None? && g.links(queue[0]) == []
    ensures Follows(g, Visit(r, []), visited + {queue[0]}, queue[1..], pages)
  {
    PopNew(g, r, visited, queue, pages, []);
    OneFetched(g, queue[0]);
    assert queue[1..] + [] == queue[1..] && pages + [] == pages;
  }

  lemma PopPage(g: Site, r: Round, visited: set<Url>, queue: seq<Url>, pages: seq<Page>, added: seq<Url>,
                response: Response)
    requires Follows(g, r, visited, queue, pages) && r.current != [] && |pages| < MAX_CRAWL_PAGES
    requires queue[0] !in visited && g.get(queue[0]) == Some(response)
    requires added == Drop(g.links(queue[0]), visited + {queue[0]})
    ensures Follows(g, Visit(r, added), visited + {queue[0]}, queue[1..] + added, pages + [(queue[0], response)])
  {
    PopNew(g, r, visited, queue, pages, added);
    OneFetched(g, queue[0]);
  }

  lemma CrawlExhausted(g: Site, r: Round, visited: set<Url>, pages: seq<Page>)
    requires Follows(g, r, visited, [], pages)
    ensures IsCrawl(g, pages)
  {
    NextRound(g, r);
    assert Level(g, r.n + 1) == [];
    forall m: nat | r.n <= m
      ensures pages == Capped(Fetched(g, Order(g, m)))
    {
      OrderGrows(g, r.n, m);
    }
    assert StableFrom(g, pages, r.n);
  }

  lemma CrawlCapped(g: Site, r: Round, visited: set<Url>, queue: seq<Url>, pages: seq<Page>)
    requires Follows(g, r, visited, queue, pages) && |pages| == MAX_CRAWL_PAGES
    ensures IsCrawl(g, pages)
  {
    assert Order(g, r.n) == r.order + Fresh(r.current, Elems(r.order));
    forall m: nat | r.n <= m
      ensures pages == Capped(Fetched(g, Order(g, m)))
    {
      OrderGrows(g, r.n, m);
      FetchedPrefix(g, r.order, Order(g, m));
    }
    assert StableFrom(g, pages, r.n);
  }

  lemma CrawlEnds(g: Site, r: Round, visited: set<Url>, queue: seq<Url>, pages: seq<Page>)
    requires Follows(g, r, visited, queue, pages) && (queue == [] || |pages| == MAX_CRAWL_PAGES)
    ensures IsCrawl(g, pages) && IsRequestLog(g, r.order, pages)
  {
    VisitedOnce(g, r);
    if |pages| == MAX_CRAWL_PAGES {
      CrawlCapped(g, r, visited, queue, pages);
    } else {
      CrawlExhausted(g, r, visited, pages);
    }
  }

  // ----- origin

  lemma {:induction false} SameOriginMembers(w: Web, origin: string, url: Url, hrefs: seq<string>)
    ensures forall u :: u in SameOrigin(w, origin, url, hrefs) <==>
              w.netloc(u) == origin && exists h :: h in hrefs && u == w.join(url, h)
  {
    if hrefs != [] {
      SameOriginMembers(w, origin, url, hrefs[1..]);
      assert hrefs == [hrefs[0]] + hrefs[1..];
    }
  }

  lemma {:induction false} ReachedIsSameOrigin(w: Web, start: Url, u: Url, n: nat)
    requires Reaches(SiteOf(w, start), u, n)
    ensures w.netloc(u) == w.netloc(start)
  {
    if n > 0 {
      var v :| Reaches(SiteOf(w, start), v, n - 1) && u in Links(w, start, v);
      SameOriginMembers(w, w.netloc(start), v, w.get(v).value.hrefs);
    }
  }

  /** Every page the crawl returns has the start URL's origin. */
  lemma CrawlStaysOnOrigin(w: Web, start: Url, pages: seq<Page>)
    requires GenuinePages(SiteOf(w, start), pages)
    ensures forall i :: 0 <= i < |pages| ==> w.netloc(pages[i].0) == w.netloc(start)
  {
    forall i | 0 <= i < |pages|
      ensures w.netloc(pages[i].0) == w.netloc(start)
    {
      var n: nat :| Reaches(SiteOf(w, start), pages[i].0, n);
      ReachedIsSameOrigin(w, start, pages[i].0, n);
    }
  }

  // ----- the loop

  /** The requests were for distinct URLs, in the layered order, and gave the pages. */
  ghost predicate IsRequestLog(g: Site, requested: seq<Url>, pages: seq<Page>) {
    && Distinct(requested)
    && pages == Fetched(g, requested)
    && exists n: nat :: requested <= Order(g, n)
  }

  /** `requested` logs the URLs passed to `client.get`: each once, in the layered order. */
  method Crawl(w: Web, start: Url) returns (pages: seq<Page>, ghost requested: seq<Url>)
    ensures IsCrawl(SiteOf(w, start), pages)
    ensures GenuinePages(SiteOf(w, start), pages)
    ensures ByDistance(SiteOf(w, start), pages)
    ensures NothingNearerMissed(SiteOf(w, start), pages)
    ensures forall i :: 0 <= i < |pages| ==> w.netloc(pages[i].0) == w.netloc(start)
    ensures IsRequestLog(SiteOf(w, start), requested, pages)
    ensures NearestPages(w, start, pages) && NoneNearerMissed(w, start, pages) && CompleteBelowCap(w, start, pages)
  {
    ghost var g := SiteOf(w, start);
    var origin := w.netloc(start);
    var visited: set<Url> := {};
    var queue := [start];
    pages, requested := [], [];
    ghost var r := Round(0, [], [], [start], []);
    StartsInRoundZero(g);

    while queue != [] && |pages| < MAX_CRAWL_PAGES
      invariant Follows(g, r, visited, queue, pages) && requested == r.order
      decreases MAX_CRAWL_PAGES - |pages|, |queue|
    {
      EnterRound(g, r, visited, queue, pages);
      r := Entered(r);
      var url := queue[0];
      if url in visited {
        PopSeen(g, r, visited, queue, pages);
        queue, r := queue[1..], Skip(r);
        continue;
      }
      ghost var visited0, queue0, pages0 := visited, queue, pages;
      queue := queue[1..];
      visited := visited + {url};

      requested := requested + [url];
      var outcome := w.get(url);
      if outcome.None? {
        PopFailed(g, r, visited0, queue0, pages0);
        r := Visit(r, []);
        continue;
      }
      var response := outcome.value;
      pages := pages + [(url, response)];

      ghost var added := Drop(g.links(url), visited);
      if Contains(response.contentType, "html") {
        queue := Enqueue(w, origin, url, response.hrefs, visited, queue);
      }
      assert queue == queue0[1..] + added;
      PopPage(g, r, visited0, queue0, pages0, added, response);
      r := Visit(r, added);
    }
    CrawlEnds(g, r, visited, queue, pages);
    CrawlIsNearestFirst(g, pages);
    CrawlStaysOnOrigin(w, start, pages);
    CrawlInWebTerms(w, start, pages);
    BelowCapInWebTerms(w, start, pages);
  }

  lemma NextIsEnqueued(w: Web, origin: string, url: Url, hrefs: seq<string>, i: nat, visited: set<Url>)
    requires i < |hrefs|
    ensures var candidate := w.join(url, hrefs[i]);
            Drop(SameOrigin(w, origin, url, hrefs[i..]), visited)
            == (if w.netloc(candidate) == origin && candidate !in visited then [candidate] else [])
               + Drop(SameOrigin(w, origin, url, hrefs[i + 1..]), visited)
  {
    SameOriginFrom(w, origin, url, hrefs, i);
    DropConcat([w.join(url, hrefs[i])], SameOrigin(w, origin, url, hrefs[i + 1..]), visited);
  }

  /** The loop over the links of one page. */
  method Enqueue(w: Web, origin: string, url: Url, hrefs: seq<string>, visited: set<Url>, queue: seq<Url>)
    returns (longer: seq<Url>)
    ensures longer == queue + Drop(SameOrigin(w, origin, url, hrefs), visited)
  {
    longer := queue;
    for i := 0 to |hrefs|
      invariant longer + Drop(SameOrigin(w, origin, url, hrefs[i..]), visited)
             == queue + Drop(SameOrigin(w, origin, url, hrefs), visited)
    {
      var candidate := w.join(url, hrefs[i]);
      NextIsEnqueued(w, origin, url, hrefs, i, visited);
      if w.netloc(candidate) == origin && candidate !in visited {
        longer := longer + [candidate];
      }
    }
  }
}
