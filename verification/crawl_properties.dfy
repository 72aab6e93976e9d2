/** Properties of whole crawls: what a turn of the coordinator never undoes,
    when the crawl ends, and what it has found once it has ended. */
module CrawlProperties {
  import opened Urls
  import opened Fetcher
  import opened Registry
  import opened ImageTracker
  import opened Crawler
  import opened Scanner

  /** `t` is a later state of the same crawl than `s`: a recorded depth never
      changes, the fetch log only grows, a broken link stays recorded with the
      same reason, and the image tracker only grows. */
  ghost predicate Extends(s: Crawl, t: Crawl) {
    && (forall u :: u in s.visited ==> u in t.visited && t.visited[u] == s.visited[u])
    && s.fetched <= t.fetched
    && (forall u :: u in s.broken ==> u in t.broken && t.broken[u] == s.broken[u])
    && Grows(s.tracker, t.tracker)
  }

  lemma StepExtends(web: Web, s: Crawl)
    requires s.broken.Keys <= s.visited.Keys && WellFormed(s.tracker) && s.frontier != []
    ensures Extends(s, Step(web, s))
  {
    var item := s.frontier[0];
    var s' := s.(frontier := s.frontier[1..]);
    assert Step(web, s) == ProcessLink(web, s', item);
  }

  lemma ExtendsTransitive(s: Crawl, t: Crawl, u: Crawl)
    requires Extends(s, t) && Extends(t, u)
    ensures Extends(s, u)
  {
  }

  /** However long it runs, the crawl only extends its state: in particular
      the depth recorded by a URL's first claim is final. */
  lemma RunExtends(web: Web, seed: Url, s: Crawl, fuel: nat)
    requires Inv(web, seed, s)
    ensures Extends(s, Run(web, s, fuel))
  {
    var p := (c: Crawl) => Inv(web, seed, c) && Extends(s, c);
    forall c: Crawl | c.frontier != [] && p(c)
      ensures p(Turn(web)(c))
    {
      ReplayedTrackerSound(web, c);
      StepExtends(web, c);
      StepKeepsInv(web, seed, c);
      ExtendsTransitive(s, c, Step(web, c));
    }
    assert Extends(s, s);
    LoopPreserves(Turn(web), p, s, fuel);
  }

  /** A turn whose URL was already claimed only drops it from the frontier:
      the URL is not fetched again. */
  lemma ClaimedUrlNotRefetched(web: Web, s: Crawl)
    requires s.frontier != [] && s.frontier[0].url in s.visited
    ensures Step(web, s) == s.(frontier := s.frontier[1..])
  {
  }

  /** A fetch that fails for good records the failure against the URL and
      discovers no links and no images. */
  lemma BrokenLinkDiscoversNothing(web: Web, s: Crawl, item: Item)
    requires item.url !in s.visited && BrokenReason(web, item.url).Some?
    ensures var r := ProcessLink(web, s, item);
      && r.broken == s.broken[item.url := BrokenReason(web, item.url).value]
      && r.frontier == s.frontier
      && r.tracker == s.tracker
  {
  }

  /** A page whose final URL, after redirects, lies outside the site is not
      parsed: nothing is put on the frontier and no image is recorded. */
  lemma RedirectAwayIsLeaf(web: Web, s: Crawl, item: Item)
    requires GenerateHtml(web.net, item.url).outcome.Page?
    requires !StartsWith(GenerateHtml(web.net, item.url).outcome.finalUrl, web.mainUrl)
    ensures ProcessLink(web, s, item).frontier == s.frontier
    ensures ProcessLink(web, s, item).tracker == s.tracker
    ensures ProcessLink(web, s, item).broken == s.broken
  {
  }

  /** Every link of a page in `U` leads back into `U`. */
  ghost predicate Closed(web: Web, urls: set<Url>) {
    forall u, l :: u in urls && LinksTo(web, u, l) ==> l in urls
  }

  /** A turn stays inside a closed set of URLs, and either claims one more of
      them or shortens the frontier. */
  lemma StepWithin(web: Web, s: Crawl, urls: set<Url>)
    requires Closed(web, urls) && s.visited.Keys <= urls && s.frontier != []
    requires forall i :: 0 <= i < |s.frontier| ==> s.frontier[i].url in urls
    ensures Step(web, s).visited.Keys <= urls
    ensures forall i :: 0 <= i < |Step(web, s).frontier| ==> Step(web, s).frontier[i].url in urls
    ensures || |urls - Step(web, s).visited.Keys| < |urls - s.visited.Keys|
            || (Step(web, s).visited == s.visited && |Step(web, s).frontier| < |s.frontier|)
  {
    var item := s.frontier[0];
    var t := Step(web, s);
    assert item.url in urls;
    forall i | 0 <= i < |t.frontier|
      ensures t.frontier[i].url in urls
    {
      if i < |s.frontier| - 1 {
        assert s.frontier[1..] <= t.frontier;
        assert t.frontier[i] == s.frontier[i + 1];
      } else {
        assert LinksTo(web, item.url, t.frontier[i].url);
      }
    }
    if item.url !in s.visited {
      assert urls - t.visited.Keys == (urls - s.visited.Keys) - {item.url};
      assert item.url in urls - s.visited.Keys;
    }
  }

  /** A crawl whose reachable URLs lie in a finite set comes to an end: each
      turn either claims a new URL of the set or shortens the frontier. */
  lemma {:induction false} RunTerminates(web: Web, s: Crawl, urls: set<Url>)
    requires Closed(web, urls) && s.visited.Keys <= urls
    requires forall i :: 0 <= i < |s.frontier| ==> s.frontier[i].url in urls
    ensures exists fuel :: Run(web, s, fuel).frontier == []
    decreases |urls - s.visited.Keys|, |s.frontier|
  {
    if s.frontier == [] {
      assert Run(web, s, 0).frontier == [];
    } else {
      StepWithin(web, s, urls);
      RunTerminates(web, Step(web, s), urls);
      var fuel: nat :| Run(web, Step(web, s), fuel).frontier == [];
      RunUnfold(web, s, fuel + 1);
    }
  }

  /** On a site whose pages, from the seed on, only link into a finite set of
      URLs, `scan_website` returns after finitely many turns. */
  lemma ScanTerminates(web: Web, seed: Url, urls: set<Url>)
    requires seed in urls && Closed(web, urls)
    ensures exists fuel :: ScanWebsite(web, seed, fuel).frontier == []
  {
    RunTerminates(web, Start(seed), urls);
    var fuel :| Run(web, Start(seed), fuel).frontier == [];
    assert ScanWebsite(web, seed, fuel) == Run(web, Start(seed), fuel);
  }

  lemma {:induction false} PathVisited(web: Web, seed: Url, r: Crawl, p: seq<Url>, k: nat)
    requires Inv(web, seed, r) && r.frontier == []
    requires IsPath(web, seed, p) && k < |p|
    ensures p[k] in r.visited
  {
    if k == 0 {
      assert !Pending(r, seed);
    } else {
      PathVisited(web, seed, r, p, k - 1);
      assert LinksTo(web, p[k - 1], p[k]);
      assert !Pending(r, p[k]);
    }
  }

  /** Once the frontier is empty, every URL reachable from the seed through
      in-scope links has been claimed, exactly once, at the length of some
      such chain of links. */
  lemma FinishedCrawlComplete(web: Web, seed: Url, fuel: nat, p: seq<Url>)
    requires IsPath(web, seed, p)
    ensures var r := ScanWebsite(web, seed, fuel);
      r.frontier == [] ==>
        && (forall k :: 0 <= k < |p| ==> p[k] in r.visited)
        && (forall u :: u in r.visited ==> ReachedAt(web, seed, u, r.visited[u]))
  {
    var r := ScanWebsite(web, seed, fuel);
    if r.frontier == [] {
      forall k | 0 <= k < |p|
        ensures p[k] in r.visited
      {
        PathVisited(web, seed, r, p, k);
      }
    }
  }

  /** Across the whole crawl, an image's count is the number of times it is
      referenced on the fetched pages; an image whose download fails is
      BROKEN, and one that loads carries the digest of its bytes. */
  lemma ImageCountIsReferenceCount(web: Web, seed: Url, fuel: nat, img: Url)
    ensures var r := ScanWebsite(web, seed, fuel);
      var refs := PageImages(web, r.fetched);
      img in refs ==>
        && img in r.tracker.counts
        && (web.download(img).None? ==> r.tracker.counts[img] == BROKEN && img !in r.tracker.hashes)
        && (web.download(img).Some? ==>
              && r.tracker.counts[img] == multiset(refs)[img]
              && img in r.tracker.hashes && r.tracker.hashes[img] == web.sha256(web.download(img).value))
  {
    var r := ScanWebsite(web, seed, fuel);
    var refs := PageImages(web, r.fetched);
    assert WellFormed(ImageTracker.Empty);
    RecordImagesCounts(ImageTracker.Empty, refs, img, web.download, web.sha256);
    ReplayedTrackerSound(web, r);
  }
}
