/** The crawl engine (`process_link` and `scan_website`), run by a single
    worker: the coordinator pops the oldest frontier item and processes it
    to completion before popping the next. */
module Crawler {
  import opened Wrappers
  import opened Urls
  import opened LinkParser
  import opened Fetcher
  import opened Registry
  import opened ImageTracker

  /** Everything the crawl consults but does not compute: the site's base URL
      (`MAIN_URL`), the network, `urljoin`, the image download and SHA-256. */
  datatype Web = Web(
    mainUrl: Url,
    net: Network,
    join: Resolver,
    download: Downloader,
    sha256: Hasher)

  /** What `broken_links` records: an HTTP status code, or a `URLError` reason. */
  datatype Reason = Status(code: int) | Unreachable(reason: string)

  /** The shared state of one crawl. `fetched` lists the URLs whose processing
      went past the claim, in order. */
  datatype Crawl = Crawl(
    frontier: seq<Item>,
    visited: Visited,
    broken: map<Url, Reason>,
    tracker: Tracker,
    fetched: seq<Url>)

  /** `scan_website(seed)` before the loop: the seed at depth 0, all else empty. */
  function Start(seed: Url): (r: Crawl)
    ensures r.frontier == [Item(seed, 0)]
    ensures forall u :: u !in r.visited && u !in r.broken && u !in r.tracker.counts && u !in r.fetched
  {
    Crawl([Item(seed, 0)], map[], map[], ImageTracker.Empty, [])
  }

  /** The lists parsed from the page at `url`, when the fetch yields a page
      whose final URL is still inside the site; nothing otherwise. */
  function Discover(web: Web, url: Url): (r: Option<Parsed>)
    ensures r.Some? <==> GenerateHtml(web.net, url).outcome.Page? && StartsWith(GenerateHtml(web.net, url).outcome.finalUrl, web.mainUrl)
    ensures r.Some? ==> r.value == Feed(GenerateHtml(web.net, url).outcome.html, GenerateHtml(web.net, url).outcome.finalUrl, web.join)
  {
    match GenerateHtml(web.net, url).outcome
    case Page(html, finalUrl) =>
      if StartsWith(finalUrl, web.mainUrl) then Some(Feed(html, finalUrl, web.join)) else None
    case _ => None
  }

  /** The page at `u` has an in-scope link to `l`: the edges a crawl follows. */
  predicate LinksTo(web: Web, u: Url, l: Url) {
    Discover(web, u).Some? && l in Discover(web, u).value.links && InScope(web.mainUrl, l)
  }

  /** The entry `broken_links` should hold for `url`: the status of an
      `HTTPError` in [400, 600), or the reason of any other `URLError`. */
  function BrokenReason(web: Web, url: Url): (r: Option<Reason>)
    ensures r.Some? <==> match GenerateHtml(web.net, url).outcome
                         case HttpError(code) => 400 <= code < 600
                         case UrlError(_) => true
                         case _ => false
    ensures r.Some? ==> Discover(web, url).None?
    ensures r.Some? && r.value.Status? ==> GenerateHtml(web.net, url).outcome == HttpError(r.value.code)
    ensures r.Some? && r.value.Unreachable? ==> GenerateHtml(web.net, url).outcome == UrlError(r.value.reason)
  {
    match GenerateHtml(web.net, url).outcome
    case HttpError(code) => if 400 <= code < 600 then Some(Status(code)) else None
    case UrlError(reason) => Some(Unreachable(reason))
    case _ => None
  }

  /** `process_link((url, cur_depth, …))`. A lost claim ends it with no
      effect. Otherwise the URL is fetched; a page that stayed inside the site
      is parsed, its admissible links are appended at depth + 1 and its images
      recorded; a 4xx/5xx status or a `URLError` is recorded against the URL;
      `None` from the fetch, a page that left the site, or another status
      discovers nothing. (With `None`, `html` is unbound, and the `NameError`
      raised when feeding it is swallowed with the parse errors.) */
  function ProcessLink(web: Web, s: Crawl, item: Item): (r: Crawl)
    ensures item.url in s.visited ==> r == s
    ensures item.url !in s.visited ==>
      && r.visited == s.visited[item.url := item.depth]
      && r.fetched == s.fetched + [item.url]
      && r.broken == (match BrokenReason(web, item.url)
                      case Some(reason) => s.broken[item.url := reason]
                      case None => s.broken)
    ensures s.frontier <= r.frontier
    ensures forall i :: |s.frontier| <= i < |r.frontier| ==>
      && r.frontier[i].depth == item.depth + 1
      && r.frontier[i].url !in r.visited
      && LinksTo(web, item.url, r.frontier[i].url)
    ensures item.url !in s.visited ==>
      forall l :: LinksTo(web, item.url, l) && l !in r.visited ==> Item(l, item.depth + 1) in r.frontier[|s.frontier|..]
    ensures Discover(web, item.url).None? ==> r.frontier == s.frontier && r.tracker == s.tracker
    ensures item.url !in s.visited && Discover(web, item.url).Some? ==>
      && r.frontier == EnqueueLinks(s.frontier, Discover(web, item.url).value.links, web.mainUrl, r.visited, item.depth + 1)
      && r.tracker == RecordImages(s.tracker, Discover(web, item.url).value.images, web.download, web.sha256)
  {
    var claim := Claim(s.visited, item.url, item.depth);
    if !claim.won then s
    else
      var s := s.(visited := claim.visited, fetched := s.fetched + [item.url]);
      match GenerateHtml(web.net, item.url).outcome
      case Page(html, finalUrl) =>
        if !StartsWith(finalUrl, web.mainUrl) then s
        else
          var found := Feed(html, finalUrl, web.join);
          s.(frontier := EnqueueLinks(s.frontier, found.links, web.mainUrl, s.visited, item.depth + 1),
             tracker := RecordImages(s.tracker, found.images, web.download, web.sha256))
      case NoPage => s
      case HttpError(code) =>
        if 400 <= code < 600 then s.(broken := s.broken[item.url := Status(code)]) else s
      case UrlError(reason) => s.(broken := s.broken[item.url := Unreachable(reason)])
  }

  /** One turn of the coordinator: `links_to_parse.pop(0)`, then process it. */
  function Step(web: Web, s: Crawl): (r: Crawl)
    requires s.frontier != []
    ensures s.frontier[0].url in r.visited
    ensures s.frontier[0].url !in s.visited ==> r.visited[s.frontier[0].url] == s.frontier[0].depth
    ensures s.frontier[0].url in s.visited ==> r == s.(frontier := s.frontier[1..])
    ensures s.frontier[1..] <= r.frontier
  {
    ProcessLink(web, s.(frontier := s.frontier[1..]), s.frontier[0])
  }

  /** `url` is waiting on the frontier. */
  ghost predicate Pending(s: Crawl, url: Url) {
    exists i :: 0 <= i < |s.frontier| && s.frontier[i].url == url
  }

  ghost predicate NoDuplicates(xs: seq<Url>) {
    forall i, j :: 0 <= i < j < |xs| ==> xs[i] != xs[j]
  }

  /** No URL is fetched twice, and the fetched URLs are the claimed ones. */
  ghost predicate FetchedOnce(s: Crawl) {
    && NoDuplicates(s.fetched)
    && (forall u :: u in s.fetched <==> u in s.visited)
  }

  /** Exactly the claimed URLs whose fetch failed for good are broken, each
      with the failure's code or reason. */
  ghost predicate BrokenExact(web: Web, s: Crawl) {
    && (forall u :: u in s.broken <==> u in s.visited && BrokenReason(web, u).Some?)
    && (forall u :: u in s.broken ==> s.broken[u] == BrokenReason(web, u).value)
  }

  /** The image references of the page at `url` that `process_link` records. */
  function ImagesOf(web: Web, url: Url): seq<Url> {
    match Discover(web, url)
    case Some(found) => found.images
    case None => []
  }

  /** The image references of the given pages, in processing order. */
  function PageImages(web: Web, urls: seq<Url>): seq<Url>
    decreases |urls|
  {
    if urls == [] then []
    else PageImages(web, urls[..|urls| - 1]) + ImagesOf(web, urls[|urls| - 1])
  }

  /** The image tracker is what recording, in order, every image reference of
      every fetched page yields. */
  ghost predicate TrackerReplays(web: Web, s: Crawl) {
    s.tracker == RecordImages(ImageTracker.Empty, PageImages(web, s.fetched), web.download, web.sha256)
  }

  /** `p` is a chain of in-scope links starting at the seed. */
  ghost predicate IsPath(web: Web, seed: Url, p: seq<Url>) {
    && |p| > 0
    && p[0] == seed
    && (forall i :: 0 <= i < |p| - 1 ==> LinksTo(web, p[i], p[i + 1]))
  }

  /** Some chain of `depth` links leads from the seed to `url`. */
  ghost predicate ReachedAt(web: Web, seed: Url, url: Url, depth: nat) {
    exists p :: IsPath(web, seed, p) && |p| == depth + 1 && p[|p| - 1] == url
  }

  /** Every recorded and every pending depth is the length of some chain of
      links from the seed (not necessarily the shortest). */
  ghost predicate DepthsWitnessed(web: Web, seed: Url, s: Crawl) {
    && (forall u :: u in s.visited ==> ReachedAt(web, seed, u, s.visited[u]))
    && (forall i :: 0 <= i < |s.frontier| ==> ReachedAt(web, seed, s.frontier[i].url, s.frontier[i].depth))
  }

  /** Nothing out of scope is ever scheduled, except the seed itself. */
  ghost predicate Scoped(web: Web, seed: Url, s: Crawl) {
    forall i :: 0 <= i < |s.frontier| ==> s.frontier[i].url == seed || InScope(web.mainUrl, s.frontier[i].url)
  }

  /** No work is lost: the seed and every link of a processed page are
      claimed or pending. */
  ghost predicate Covered(web: Web, seed: Url, s: Crawl) {
    && (seed in s.visited || Pending(s, seed))
    && (forall u, l :: u in s.visited && LinksTo(web, u, l) ==> l in s.visited || Pending(s, l))
  }

  /** What holds of the crawl state between two turns of the coordinator. */
  ghost predicate Inv(web: Web, seed: Url, s: Crawl) {
    && FetchedOnce(s)
    && BrokenExact(web, s)
    && TrackerReplays(web, s)
    && DepthsWitnessed(web, seed, s)
    && Scoped(web, seed, s)
    && Covered(web, seed, s)
  }

  lemma StartInv(web: Web, seed: Url)
    ensures Inv(web, seed, Start(seed))
  {
    assert Start(seed).frontier[0].url == seed;
    assert IsPath(web, seed, [seed]);
  }

  /** A URL pending before a turn, and not the one just claimed, is still pending after it. */
  lemma StepKeepsPending(web: Web, s: Crawl, l: Url)
    requires s.frontier != [] && Pending(s, l) && l != s.frontier[0].url
    ensures Pending(Step(web, s), l)
  {
    var r := Step(web, s);
    assert s.frontier[1..] <= r.frontier;
    var i :| 0 <= i < |s.frontier| && s.frontier[i].url == l;
    assert r.frontier[i - 1].url == l;
  }

  lemma StepFetchedOnce(web: Web, s: Crawl)
    requires FetchedOnce(s) && s.frontier != []
    ensures FetchedOnce(Step(web, s))
  {
    var item := s.frontier[0];
    var r := Step(web, s);
    if item.url !in s.visited {
      forall i, j | 0 <= i < j < |r.fetched|
        ensures r.fetched[i] != r.fetched[j]
      {
        if j == |r.fetched| - 1 {
          assert s.fetched[i] in s.visited;
        }
      }
    }
  }

  lemma StepBrokenExact(web: Web, s: Crawl)
    requires BrokenExact(web, s) && s.frontier != []
    ensures BrokenExact(web, Step(web, s))
  {
  }

  lemma StepTrackerReplays(web: Web, s: Crawl)
    requires TrackerReplays(web, s) && s.frontier != []
    ensures TrackerReplays(web, Step(web, s))
  {
    var item := s.frontier[0];
    var s' := s.(frontier := s.frontier[1..]);
    var r := Step(web, s);
    if item.url !in s.visited {
      assert r.fetched[..|r.fetched| - 1] == s.fetched;
      assert PageImages(web, r.fetched) == PageImages(web, s.fetched) + ImagesOf(web, item.url);
      RecordImagesConcat(ImageTracker.Empty, PageImages(web, s.fetched), ImagesOf(web, item.url), web.download, web.sha256);
      assert r == ProcessLink(web, s', item);
    }
  }

  /** The tracker of a crawl that replays its pages is well formed and holds
      only true digests. */
  lemma ReplayedTrackerSound(web: Web, s: Crawl)
    requires TrackerReplays(web, s)
    ensures WellFormed(s.tracker) && HashesFaithful(s.tracker, web.download, web.sha256)
  {
    assert WellFormed(ImageTracker.Empty);
  }

  lemma ExtendPath(web: Web, seed: Url, p: seq<Url>, l: Url)
    requires IsPath(web, seed, p) && LinksTo(web, p[|p| - 1], l)
    ensures IsPath(web, seed, p + [l])
  {
    var q := p + [l];
    forall i | 0 <= i < |q| - 1
      ensures LinksTo(web, q[i], q[i + 1])
    {
      if i < |p| - 1 {
        assert q[i] == p[i] && q[i + 1] == p[i + 1];
      }
    }
  }

  lemma StepVisitedWitnessed(web: Web, seed: Url, s: Crawl)
    requires DepthsWitnessed(web, seed, s) && s.frontier != []
    ensures forall u :: u in Step(web, s).visited ==> ReachedAt(web, seed, u, Step(web, s).visited[u])
  {
    var item := s.frontier[0];
    var r := Step(web, s);
    forall u | u in r.visited
      ensures ReachedAt(web, seed, u, r.visited[u])
    {
      if u !in s.visited {
        assert u == item.url && r.visited[u] == item.depth;
      }
    }
  }

  /** Following one more link from a page reached at some depth reaches
      its target one deeper. */
  lemma ExtendReached(web: Web, seed: Url, u: Url, depth: nat, l: Url)
    requires ReachedAt(web, seed, u, depth) && LinksTo(web, u, l)
    ensures ReachedAt(web, seed, l, depth + 1)
  {
    var p :| IsPath(web, seed, p) && |p| == depth + 1 && p[|p| - 1] == u;
    ExtendPath(web, seed, p, l);
    assert (p + [l])[|p|] == l;
  }

  /** Every link appended for a page reached at some depth is reached one deeper. */
  lemma ProcessLinkWitnessed(web: Web, seed: Url, s: Crawl, item: Item)
    requires ReachedAt(web, seed, item.url, item.depth)
    ensures var r := ProcessLink(web, s, item);
      forall i :: |s.frontier| <= i < |r.frontier| ==> ReachedAt(web, seed, r.frontier[i].url, r.frontier[i].depth)
  {
    var r := ProcessLink(web, s, item);
    forall i | |s.frontier| <= i < |r.frontier|
      ensures ReachedAt(web, seed, r.frontier[i].url, r.frontier[i].depth)
    {
      ExtendReached(web, seed, item.url, item.depth, r.frontier[i].url);
    }
  }

  lemma StepFrontierWitnessed(web: Web, seed: Url, s: Crawl)
    requires DepthsWitnessed(web, seed, s) && s.frontier != []
    ensures forall i :: 0 <= i < |Step(web, s).frontier| ==>
      ReachedAt(web, seed, Step(web, s).frontier[i].url, Step(web, s).frontier[i].depth)
  {
    var item := s.frontier[0];
    var s' := s.(frontier := s.frontier[1..]);
    var r := Step(web, s);
    assert r == ProcessLink(web, s', item);
    assert ReachedAt(web, seed, item.url, item.depth);
    forall i | 0 <= i < |r.frontier|
      ensures ReachedAt(web, seed, r.frontier[i].url, r.frontier[i].depth)
    {
      if i < |s'.frontier| {
        assert r.frontier[i] == s.frontier[i + 1];
      } else {
        ProcessLinkWitnessed(web, seed, s', item);
      }
    }
  }

  lemma StepDepthsWitnessed(web: Web, seed: Url, s: Crawl)
    requires DepthsWitnessed(web, seed, s) && s.frontier != []
    ensures DepthsWitnessed(web, seed, Step(web, s))
  {
    StepVisitedWitnessed(web, seed, s);
    StepFrontierWitnessed(web, seed, s);
  }

  lemma StepScoped(web: Web, seed: Url, s: Crawl)
    requires Scoped(web, seed, s) && s.frontier != []
    ensures Scoped(web, seed, Step(web, s))
  {
    var r := Step(web, s);
    var rest := s.frontier[1..];
    assert rest <= r.frontier;
    forall i | 0 <= i < |r.frontier|
      ensures r.frontier[i].url == seed || InScope(web.mainUrl, r.frontier[i].url)
    {
      if i < |rest| {
        assert r.frontier[i] == s.frontier[i + 1];
      }
    }
  }

  /** Every in-scope link of a freshly claimed page is claimed or pending afterwards. */
  lemma ProcessLinkSchedules(web: Web, s: Crawl, item: Item, l: Url)
    requires item.url !in s.visited && LinksTo(web, item.url, l)
    ensures l in ProcessLink(web, s, item).visited || Pending(ProcessLink(web, s, item), l)
  {
    var r := ProcessLink(web, s, item);
    if l !in r.visited {
      var added := r.frontier[|s.frontier|..];
      var k :| 0 <= k < |added| && added[k] == Item(l, item.depth + 1);
      assert r.frontier[|s.frontier| + k].url == l;
    }
  }

  lemma StepCovered(web: Web, seed: Url, s: Crawl)
    requires Covered(web, seed, s) && s.frontier != []
    ensures Covered(web, seed, Step(web, s))
  {
    var item := s.frontier[0];
    var s' := s.(frontier := s.frontier[1..]);
    var r := Step(web, s);
    assert r == ProcessLink(web, s', item);
    if seed !in r.visited {
      StepKeepsPending(web, s, seed);
    }
    forall u, l | u in r.visited && LinksTo(web, u, l) && l !in r.visited
      ensures Pending(r, l)
    {
      if u == item.url && item.url !in s.visited {
        ProcessLinkSchedules(web, s', item, l);
      } else {
        assert u in s.visited;
        StepKeepsPending(web, s, l);
      }
    }
  }

  /** One turn of the coordinator keeps the invariant. */
  lemma StepKeepsInv(web: Web, seed: Url, s: Crawl)
    requires s.frontier != []
    ensures Inv(web, seed, s) ==> Inv(web, seed, Step(web, s))
  {
    if Inv(web, seed, s) {
      StepFetchedOnce(web, s);
      StepBrokenExact(web, s);
      StepTrackerReplays(web, s);
      StepDepthsWitnessed(web, seed, s);
      StepScoped(web, seed, s);
      StepCovered(web, seed, s);
    }
  }
}
