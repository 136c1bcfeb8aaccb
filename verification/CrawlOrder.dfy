/**
The order in which a breadth-first crawl finds URLs, without a work list: `Level(n)` lists the URLs
first reached by the n-th round of following links, each once, and `Order(n)` is the rounds 0 to n
in a row. A crawl result is the first fifteen fetchable URLs of that order, which is proved to be
the order of shortest link distance.
*/
module CrawlOrder {
  import opened Prelude

  const MAX_CRAWL_PAGES := 15

  datatype Url = Url(text: string)

  /** What the crawler reads of an HTTP response: its content type and the `href` values in
      its text, in text order. */
  datatype Response = Response(contentType: string, hrefs: seq<string>)

  type Page = (Url, Response)

  // ----- the link graph

  /** What the crawl depends on: where it starts, the out-links of each URL and the outcome of
      fetching it. */
  datatype Site = Site(start: Url, links: Url -> seq<Url>, get: Url -> Option<Response>)

  /** `url` can be reached from `start` by following exactly `n` links. */
  ghost predicate Reaches(g: Site, url: Url, n: nat)
    decreases n
  {
    if n == 0 then url == g.start
    else exists v :: Reaches(g, v, n - 1) && url in g.links(v)
  }

  ghost predicate Reachable(g: Site, url: Url) {
    exists n: nat :: Reaches(g, url, n)
  }

  /** The shortest link distance from `start` to `url` is `n`. */
  ghost predicate Distance(g: Site, url: Url, n: nat) {
    && Reaches(g, url, n)
    && forall k: nat | k < n :: !Reaches(g, url, k)
  }

  // ----- the layered reference order

  /** First occurrences in `raw` of what is not in `seen`. */
  function Fresh(raw: seq<Url>, seen: set<Url>): seq<Url> {
    if raw == [] then []
    else if raw[0] in seen then Fresh(raw[1..], seen)
    else [raw[0]] + Fresh(raw[1..], seen + {raw[0]})
  }

  function AllLinks(g: Site, urls: seq<Url>): seq<Url> {
    if urls == [] then []
    else AllLinks(g, urls[..|urls| - 1]) + g.links(urls[|urls| - 1])
  }

  ghost function Level(g: Site, n: nat): seq<Url>
    decreases n, 0
  {
    if n == 0 then [g.start]
    else Fresh(AllLinks(g, Level(g, n - 1)), Elems(Order(g, n - 1)))
  }

  ghost function Before(g: Site, n: nat): seq<Url>
    decreases n, 0
  {
    if n == 0 then [] else Order(g, n - 1)
  }

  ghost function Order(g: Site, n: nat): seq<Url>
    decreases n, 1
  {
    Before(g, n) + Level(g, n)
  }

  /** The pages of those of `urls` that can be fetched, in the same order. */
  function Fetched(g: Site, urls: seq<Url>): seq<Page> {
    if urls == [] then [] else
      var last := urls[|urls| - 1];
      Fetched(g, urls[..|urls| - 1])
      + match g.get(last) case None => [] case Some(response) => [(last, response)]
  }

  function Capped(pages: seq<Page>): seq<Page> {
    if |pages| <= MAX_CRAWL_PAGES then pages else pages[..MAX_CRAWL_PAGES]
  }

  /** `pages` is the capped layered order: from some round on, more rounds change nothing. */
  ghost predicate IsCrawl(g: Site, pages: seq<Page>) {
    exists n: nat :: StableFrom(g, pages, n)
  }

  ghost predicate StableFrom(g: Site, pages: seq<Page>, n: nat) {
    forall m: nat | n <= m :: pages == Capped(Fetched(g, Order(g, m)))
  }

  // ----- removing known elements

  function Drop(raw: seq<Url>, known: set<Url>): seq<Url> {
    if raw == [] then []
    else (if raw[0] in known then [] else [raw[0]]) + Drop(raw[1..], known)
  }

  lemma {:induction false} DropConcat(a: seq<Url>, b: seq<Url>, known: set<Url>)
    ensures Drop(a + b, known) == Drop(a, known) + Drop(b, known)
  {
    if a == [] {
      assert a + b == b;
    } else {
      var c := a + b;
      assert c[0] == a[0] && c[1..] == a[1..] + b;
      DropConcat(a[1..], b, known);
      if a[0] !in known {
        Associative([a[0]], Drop(a[1..], known), Drop(b, known));
      }
    }
  }

  lemma {:induction false} DropTwice(a: seq<Url>, known: set<Url>, more: set<Url>)
    requires known <= more
    ensures Drop(Drop(a, known), more) == Drop(a, more)
  {
    if a != [] {
      DropTwice(a[1..], known, more);
      DropConcat(if a[0] in known then [] else [a[0]], Drop(a[1..], known), more);
    }
  }

  lemma {:induction false} FreshIgnoresKnown(a: seq<Url>, known: set<Url>, seen: set<Url>)
    requires known <= seen
    ensures Fresh(Drop(a, known), seen) == Fresh(a, seen)
  {
    if a != [] {
      if a[0] in seen {
        FreshIgnoresKnown(a[1..], known, seen);
      } else {
        FreshIgnoresKnown(a[1..], known, seen + {a[0]});
      }
      if a[0] in known {
        assert Drop(a, known) == Drop(a[1..], known);
      } else {
        assert Drop(a, known)[1..] == Drop(a[1..], known);
      }
    }
  }

  lemma {:induction false} FreshMembers(raw: seq<Url>, seen: set<Url>)
    ensures forall u :: u in Fresh(raw, seen) <==> u in raw && u !in seen
    ensures Distinct(Fresh(raw, seen))
  {
    if raw != [] {
      FreshMembers(raw[1..], if raw[0] in seen then seen else seen + {raw[0]});
    }
  }

  lemma {:induction false} AllLinksMembers(g: Site, urls: seq<Url>)
    ensures forall u :: u in AllLinks(g, urls) <==> exists v :: v in urls && u in g.links(v)
  {
    if urls != [] {
      var init, last := urls[..|urls| - 1], urls[|urls| - 1];
      AllLinksMembers(g, init);
      assert urls == init + [last];
    }
  }

  // ----- the layered order is the order of shortest distance

  ghost predicate Within(g: Site, u: Url, n: nat) {
    exists k: nat :: k <= n && Reaches(g, u, k)
  }

  lemma LevelMembers(g: Site, u: Url, n: nat)
    requires n > 0
    ensures u in Level(g, n) <==> u !in Order(g, n - 1) && exists v :: v in Level(g, n - 1) && u in g.links(v)
  {
    FreshMembers(AllLinks(g, Level(g, n - 1)), Elems(Order(g, n - 1)));
    AllLinksMembers(g, Level(g, n - 1));
  }

  /** Round n finds exactly the URLs at distance n. */
  lemma {:induction false} LevelIsDistance(g: Site, u: Url, n: nat)
    ensures u in Level(g, n) <==> Distance(g, u, n)
    decreases n, 0
  {
    if n > 0 {
      LevelMembers(g, u, n);
      OrderIsWithin(g, u, n - 1);
      if u in Level(g, n) {
        var v :| v in Level(g, n - 1) && u in g.links(v);
        LevelIsDistance(g, v, n - 1);
        OneLinkFarther(g, u, v, n);
      } else if Distance(g, u, n) {
        var v := StepBack(g, u, n);
        LevelIsDistance(g, v, n - 1);
        assert false;
      }
    }
  }

  lemma OneLinkFarther(g: Site, u: Url, v: Url, n: nat)
    requires n > 0 && Reaches(g, v, n - 1) && u in g.links(v) && !Within(g, u, n - 1)
    ensures Distance(g, u, n)
  {
    assert Reaches(g, u, n);
  }

  /** Rounds 0 to n together find exactly the URLs within n links. */
  lemma {:induction false} OrderIsWithin(g: Site, u: Url, n: nat)
    ensures u in Order(g, n) <==> Within(g, u, n)
    decreases n, 1
  {
    LevelIsDistance(g, u, n);
    if n > 0 {
      OrderIsWithin(g, u, n - 1);
      assert Within(g, u, n) <==> Within(g, u, n - 1) || Distance(g, u, n);
    } else {
      assert Distance(g, u, n) <==> Reaches(g, u, 0);
    }
  }

  /** No URL is listed twice. */
  lemma {:induction false} OrderIsDistinct(g: Site, n: nat)
    ensures Distinct(Order(g, n))
  {
    if n > 0 {
      OrderIsDistinct(g, n - 1);
      FreshMembers(AllLinks(g, Level(g, n - 1)), Elems(Order(g, n - 1)));
      DistinctConcat(Order(g, n - 1), Level(g, n));
    }
  }

  lemma DistinctConcat(a: seq<Url>, b: seq<Url>)
    requires Distinct(a) && Distinct(b) && Elems(a) !! Elems(b)
    ensures Distinct(a + b)
  {
    forall i, j | 0 <= i < j < |a + b|
      ensures (a + b)[i] != (a + b)[j]
    {
      if i < |a| <= j {
        assert a[i] in Elems(a) && b[j - |a|] in Elems(b);
      }
    }
  }

  /** The next-to-last URL on a shortest walk is one closer. */
  lemma StepBack(g: Site, u: Url, n: nat) returns (v: Url)
    requires n > 0 && Distance(g, u, n)
    ensures Distance(g, v, n - 1) && u in g.links(v)
  {
    v :| Reaches(g, v, n - 1) && u in g.links(v);
    forall k: nat | k < n - 1
      ensures !Reaches(g, v, k)
    {
      if Reaches(g, v, k) {
        assert Reaches(g, u, k + 1);
      }
    }
  }

  /** Every reachable URL has a shortest distance, no longer than any walk to it. */
  lemma {:induction false} HasDistance(g: Site, u: Url, n: nat) returns (d: nat)
    requires Reaches(g, u, n)
    ensures d <= n && Distance(g, u, d)
  {
    if k: nat :| k < n && Reaches(g, u, k) {
      d := HasDistance(g, u, k);
    } else {
      d := n;
    }
  }

  // ----- how the order grows

  lemma {:induction false} OrderGrows(g: Site, n: nat, m: nat)
    requires n <= m
    ensures Order(g, n) <= Order(g, m)
    ensures Level(g, n + 1) == [] ==> Order(g, m) == Order(g, n)
    ensures Level(g, n + 1) == [] && n < m ==> Level(g, m) == []
  {
    if n < m {
      OrderGrows(g, n, m - 1);
    }
  }

  lemma {:induction false} FetchedConcat(g: Site, a: seq<Url>, b: seq<Url>)
    ensures Fetched(g, a + b) == Fetched(g, a) + Fetched(g, b)
  {
    if b == [] {
      assert a + b == a;
    } else {
      FetchedConcat(g, a, b[..|b| - 1]);
      assert (a + b)[..|a + b| - 1] == a + b[..|b| - 1];
    }
  }

  lemma FetchedPrefix(g: Site, a: seq<Url>, b: seq<Url>)
    requires a <= b
    ensures Fetched(g, a) <= Fetched(g, b)
  {
    FetchedConcat(g, a, b[|a|..]);
    assert b == a + b[|a|..];
  }

  /** The pages of a URL list are its fetchable members, in its order. */
  lemma {:induction false} FetchedMembers(g: Site, urls: seq<Url>) returns (at: seq<nat>)
    ensures |at| == |Fetched(g, urls)|
    ensures forall i :: 0 <= i < |at| ==>
              at[i] < |urls| && g.get(urls[at[i]]) == Some(Fetched(g, urls)[i].1)
              && Fetched(g, urls)[i].0 == urls[at[i]]
    ensures forall i, j :: 0 <= i < j < |at| ==> at[i] < at[j]
    ensures forall k :: 0 <= k < |urls| && g.get(urls[k]).Some? ==> k in at
  {
    at := [];
    if urls != [] {
      at := FetchedMembers(g, urls[..|urls| - 1]);
      if g.get(urls[|urls| - 1]).Some? {
        at := at + [|urls| - 1];
      }
    }
  }

  // ----- what a crawl result means

  lemma {:induction false} OrderIsByDistance(g: Site, n: nat, a: nat, b: nat, d: nat, e: nat)
    requires a < b < |Order(g, n)|
    requires Distance(g, Order(g, n)[a], d) && Distance(g, Order(g, n)[b], e)
    ensures d <= e
  {
    var order, before := Order(g, n), Before(g, n);
    if b < |before| {
      OrderIsByDistance(g, n - 1, a, b, d, e);
    } else {
      assert order[b] in Level(g, n);
      LevelIsDistance(g, order[b], n);
      assert e == n;
      assert order[a] in order;
      OrderIsWithin(g, order[a], n);
    }
  }

  /** Every page is a distinct, reachable URL together with the response it gave, and there are
      at most fifteen. */
  ghost predicate GenuinePages(g: Site, pages: seq<Page>) {
    && |pages| <= MAX_CRAWL_PAGES
    && (forall i :: 0 <= i < |pages| ==>
          && g.get(pages[i].0) == Some(pages[i].1)
          && Reachable(g, pages[i].0))
    && (forall i, j :: 0 <= i < j < |pages| ==> pages[i].0 != pages[j].0)
  }

  /** Pages come in non-decreasing shortest distance. */
  ghost predicate ByDistance(g: Site, pages: seq<Page>) {
    forall i, j, d: nat, e: nat
      | 0 <= i < j < |pages| && Distance(g, pages[i].0, d) && Distance(g, pages[j].0, e)
      :: d <= e
  }

  /** A reachable, fetchable URL is left out only by a full crawl of pages no farther away. */
  ghost predicate NothingNearerMissed(g: Site, pages: seq<Page>) {
    forall u, d: nat
      | Distance(g, u, d) && g.get(u).Some? && (forall i :: 0 <= i < |pages| ==> pages[i].0 != u)
      :: |pages| == MAX_CRAWL_PAGES
         && forall i, e: nat :: 0 <= i < |pages| && Distance(g, pages[i].0, e) ==> e <= d
  }

  lemma CrawlIsNearestFirst(g: Site, pages: seq<Page>)
    requires IsCrawl(g, pages)
    ensures GenuinePages(g, pages)
    ensures ByDistance(g, pages)
    ensures NothingNearerMissed(g, pages)
  {
    var n: nat :| StableFrom(g, pages, n);
    PagesAreGenuine(g, pages, n);
    PagesAreByDistance(g, pages, n);
    forall u, d: nat | Distance(g, u, d) && g.get(u).Some? && (forall i :: 0 <= i < |pages| ==> pages[i].0 != u)
      ensures |pages| == MAX_CRAWL_PAGES
      ensures forall i, e: nat :: 0 <= i < |pages| && Distance(g, pages[i].0, e) ==> e <= d
    {
      LeftOut(g, pages, if n < d then d else n, u, d);
    }
  }

  lemma PagesAreGenuine(g: Site, pages: seq<Page>, n: nat)
    requires pages == Capped(Fetched(g, Order(g, n)))
    ensures GenuinePages(g, pages)
  {
    var urls := Order(g, n);
    var at := FetchedMembers(g, urls);
    OrderIsDistinct(g, n);
    forall i | 0 <= i < |pages|
      ensures g.get(pages[i].0) == Some(pages[i].1) && Reachable(g, pages[i].0)
    {
      assert pages[i] == Fetched(g, urls)[i] && urls[at[i]] in urls;
      OrderIsWithin(g, pages[i].0, n);
    }
    forall i, j | 0 <= i < j < |pages|
      ensures pages[i].0 != pages[j].0
    {
      assert at[i] < at[j];
    }
  }

  lemma PagesAreByDistance(g: Site, pages: seq<Page>, n: nat)
    requires pages == Capped(Fetched(g, Order(g, n)))
    ensures ByDistance(g, pages)
  {
    var at := FetchedMembers(g, Order(g, n));
    forall i, j, d: nat, e: nat | 0 <= i < j < |pages| && Distance(g, pages[i].0, d) && Distance(g, pages[j].0, e)
      ensures d <= e
    {
      OrderIsByDistance(g, n, at[i], at[j], d, e);
    }
  }

  lemma LeftOut(g: Site, pages: seq<Page>, m: nat, u: Url, d: nat)
    requires pages == Capped(Fetched(g, Order(g, m)))
    requires d <= m && Distance(g, u, d) && g.get(u).Some?
    requires forall i :: 0 <= i < |pages| ==> pages[i].0 != u
    ensures |pages| == MAX_CRAWL_PAGES
    ensures forall i, e: nat :: 0 <= i < |pages| && Distance(g, pages[i].0, e) ==> e <= d
  {
    var urls := Order(g, m);
    var at := FetchedMembers(g, urls);
    OrderIsWithin(g, u, m);
    var k :| 0 <= k < |urls| && urls[k] == u;
    var q :| 0 <= q < |at| && at[q] == k;
    assert Fetched(g, urls)[q].0 == u;
    assert forall i :: 0 <= i < |pages| ==> pages[i] == Fetched(g, urls)[i];
    assert |pages| == MAX_CRAWL_PAGES <= q;
    forall i, e: nat | 0 <= i < |pages| && Distance(g, pages[i].0, e)
      ensures e <= d
    {
      assert pages[i] == Fetched(g, urls)[i] && at[i] < at[q];
      OrderIsByDistance(g, m, at[i], k, e, d);
    }
  }

  /** Below the cap the crawl is complete: it returns exactly the reachable, fetchable URLs. */
  lemma CrawlBelowCapIsComplete(g: Site, pages: seq<Page>, u: Url)
    requires IsCrawl(g, pages)
    requires |pages| < MAX_CRAWL_PAGES
    ensures (exists i :: 0 <= i < |pages| && pages[i].0 == u) <==> Reachable(g, u) && g.get(u).Some?
  {
    CrawlIsNearestFirst(g, pages);
    if Reachable(g, u) && g.get(u).Some? {
      var n: nat :| Reaches(g, u, n);
      var d := HasDistance(g, u, n);
    }
  }

  /** The crawl result is determined by the web and the start URL. */
  lemma CrawlIsUnique(g: Site, a: seq<Page>, b: seq<Page>)
    requires IsCrawl(g, a) && IsCrawl(g, b)
    ensures a == b
  {
    var n: nat :| StableFrom(g, a, n);
    var m: nat :| StableFrom(g, b, m);
    var top := if n < m then m else n;
    assert a == Capped(Fetched(g, Order(g, top)));
  }
}
