/** A small site with a cycle and an external link, crawled from its root:
    `/` links to `/a`; `/a` links back to `/` and on to `/b`; `/b` links to
    another site. */
module CrawlExample {
  import opened Wrappers
  import opened Urls
  import opened LinkParser
  import opened Fetcher
  import opened Registry
  import opened ImageTracker
  import opened Crawler
  import opened Scanner
  import opened Seqs

  const Root: Url := "https://site.test/"
  const PageA: Url := "https://site.test/a"
  const PageB: Url := "https://site.test/b"
  const External: Url := "https://other.test/x"

  function SiteNet(url: Url, attempt: nat): Attempt {
    if url == Root then Loaded(url, RootHtml)
    else if url == PageA then Loaded(url, AHtml)
    else if url == PageB then Loaded(url, BHtml)
    else HttpFailure(404)
  }

  /** Enough of `urljoin` for this site: root-relative references are
      resolved against the host, everything else is already absolute. */
  function SiteJoin(base: Url, ref: string): Option<Url> {
    if |ref| > 0 && ref[0] == '/' then Some("https://site.test" + ref) else Some(ref)
  }

  function SiteWeb(): Web {
    Web(Root, SiteNet, SiteJoin, (u: Url) => None, (b: Bytes) => "")
  }

  const RootHtml: Html := [Tag("a", [("href", "/a")])]
  const AHtml: Html := [Tag("A", [("href", "/")]), Tag("a", [("href", "/b")])]
  const BHtml: Html := [Tag("a", [("href", External)])]

  lemma WebParts()
    ensures SiteWeb().mainUrl == Root && SiteWeb().net == SiteNet && SiteWeb().join == SiteJoin
  {
  }

  lemma FetchPages()
    ensures GenerateHtml(SiteNet, Root) == FetchRun(Page(RootHtml, Root), 1)
    ensures GenerateHtml(SiteNet, PageA) == FetchRun(Page(AHtml, PageA), 1)
    ensures GenerateHtml(SiteNet, PageB) == FetchRun(Page(BHtml, PageB), 1)
  {
    assert AttemptFrom(SiteNet, Root, 0) == FetchRun(Page(RootHtml, Root), 1);
    assert AttemptFrom(SiteNet, PageA, 0) == FetchRun(Page(AHtml, PageA), 1);
    assert AttemptFrom(SiteNet, PageB, 0) == FetchRun(Page(BHtml, PageB), 1);
  }

  lemma JoinFacts()
    ensures SiteJoin(Root, "/a") == Some(PageA)
    ensures SiteJoin(PageA, "/") == Some(Root)
    ensures SiteJoin(PageA, "/b") == Some(PageB)
    ensures SiteJoin(PageB, External) == Some(External)
  {
    assert "https://site.test" + "/a" == PageA && "/a"[0] == '/';
    assert "https://site.test" + "/" == Root && "/"[0] == '/';
    assert "https://site.test" + "/b" == PageB && "/b"[0] == '/';
    assert External[0] == 'h';
  }

  lemma ResolveOne(base: Url, ref: string, u: Url, join: Resolver)
    requires join(base, ref) == Some(u)
    ensures ResolveAll(base, [ref], join) == ([u], true)
  {
    assert [ref][0] == ref && [ref][1..] == [];
    var rest := ResolveAll(base, [ref][1..], join);
    assert rest == ([], true);
    assert ResolveAll(base, [ref], join) == ([u] + rest.0, rest.1);
    assert [u] + rest.0 == [u];
  }

  /** One link tag with one resolvable reference appends exactly that URL. */
  lemma HandleOneLink(p: Parsed, tag: Tag, base: Url, join: Resolver, ref: string, u: Url)
    requires RoleOf(tag) == PageLink && Refs(tag) == [ref] && join(base, ref) == Some(u)
    ensures HandleStartTag(p, tag, base, join) == (Parsed(p.links + [u], p.images), true)
  {
    ResolveOne(base, ref, u, join);
  }

  /** A single-tag page whose tag completes yields the lists after that tag. */
  lemma FeedOne(tag: Tag, base: Url, join: Resolver, r: Parsed)
    requires HandleStartTag(Parsed([], []), tag, base, join) == (r, true)
    ensures Feed([tag], base, join) == r
  {
    assert [tag][0] == tag && [tag][1..] == [];
    assert FeedFrom(r, [], base, join) == r;
    assert FeedFrom(Parsed([], []), [tag], base, join) == FeedFrom(r, [tag][1..], base, join);
  }

  lemma ParseRoot()
    ensures Feed(RootHtml, Root, SiteJoin) == Parsed([PageA], [])
  {
    JoinFacts();
    assert Lower("a") == "a";
    LinkTagRefs("a", "/a");
    HandleOneLink(Parsed([], []), RootHtml[0], Root, SiteJoin, "/a", PageA);
    Single(PageA);
    FeedOne(RootHtml[0], Root, SiteJoin, Parsed([PageA], []));
    assert RootHtml == [RootHtml[0]];
  }

  /** A two-tag page whose tags both complete yields the lists after the second. */
  lemma FeedTwo(t1: Tag, t2: Tag, base: Url, join: Resolver, p1: Parsed, p2: Parsed)
    requires HandleStartTag(Parsed([], []), t1, base, join) == (p1, true)
    requires HandleStartTag(p1, t2, base, join) == (p2, true)
    ensures Feed([t1, t2], base, join) == p2
  {
    assert [t1, t2][0] == t1 && [t1, t2][1..] == [t2];
    assert [t2][0] == t2 && [t2][1..] == [];
    FeedFromUnfold(Parsed([], []), [t1, t2], base, join);
    FeedFromUnfold(p1, [t2], base, join);
    assert FeedFrom(p2, [], base, join) == p2;
  }

  /** A tag named `a` in any case with one `href` refers to that value only. */
  lemma LinkTagRefs(name: string, v: string)
    requires Lower(name) == "a"
    ensures RoleOf(Tag(name, [("href", v)])) == PageLink
    ensures Refs(Tag(name, [("href", v)])) == [v]
  {
    ValuesInOrder([], [], HREF);
  }

  /** `/a` first links back to `/` (its tag name is upper-case)… */
  lemma HandleAFirst()
    ensures HandleStartTag(Parsed([], []), AHtml[0], PageA, SiteJoin) == (Parsed([Root], []), true)
  {
    JoinFacts();
    assert Lower("A") == "a";
    LinkTagRefs("A", "/");
    HandleOneLink(Parsed([], []), AHtml[0], PageA, SiteJoin, "/", Root);
    Single(Root);
  }

  /** … and then on to `/b`. */
  lemma HandleASecond()
    ensures HandleStartTag(Parsed([Root], []), AHtml[1], PageA, SiteJoin) == (Parsed([Root, PageB], []), true)
  {
    JoinFacts();
    assert Lower("a") == "a";
    LinkTagRefs("a", "/b");
    HandleOneLink(Parsed([Root], []), AHtml[1], PageA, SiteJoin, "/b", PageB);
    Pair(Root, PageB);
  }

  lemma ParseA()
    ensures Feed(AHtml, PageA, SiteJoin) == Parsed([Root, PageB], [])
  {
    HandleAFirst();
    HandleASecond();
    FeedTwo(AHtml[0], AHtml[1], PageA, SiteJoin, Parsed([Root], []), Parsed([Root, PageB], []));
    assert AHtml == [AHtml[0], AHtml[1]];
  }

  lemma ParseB()
    ensures Feed(BHtml, PageB, SiteJoin) == Parsed([External], [])
  {
    JoinFacts();
    assert Lower("a") == "a";
    LinkTagRefs("a", External);
    HandleOneLink(Parsed([], []), BHtml[0], PageB, SiteJoin, External, External);
    Single(External);
    FeedOne(BHtml[0], PageB, SiteJoin, Parsed([External], []));
    assert BHtml == [BHtml[0]];
  }

  lemma Scopes()
    ensures StartsWith(Root, Root) && StartsWith(PageA, Root) && StartsWith(PageB, Root)
    ensures StartsWith(External, ABSOLUTE_PATH_START) && !StartsWith(External, Root)
  {
    assert PageA[..|Root|] == Root;
    assert PageB[..|Root|] == Root;
    assert External[..4] == "http";
    assert External[8] != Root[8];
  }

  const V1: Visited := map[][Root := 0]
  const V2: Visited := V1[PageA := 1]
  const V3: Visited := V2[PageB := 2]

  lemma EnqueueFromRoot()
    ensures EnqueueLinks([], [PageA], Root, V1, 1) == [Item(PageA, 1)]
  {
    Scopes();
    assert [PageA][1..] == [];
  }

  /** The link back to `/` is already claimed; only `/b` is scheduled. */
  lemma EnqueueFromA()
    ensures EnqueueLinks([], [Root, PageB], Root, V2, 2) == [Item(PageB, 2)]
  {
    Scopes();
    assert [Root, PageB][1..] == [PageB] && [PageB][1..] == [];
    assert !Admissible(Root, V2, Root) && Admissible(Root, V2, PageB);
    Single(Item(PageB, 2));
    assert EnqueueLinks([Item(PageB, 2)], [], Root, V2, 2) == [Item(PageB, 2)];
    assert EnqueueLinks([], [PageB], Root, V2, 2) == [Item(PageB, 2)];
  }

  /** The link to another site is not scheduled. */
  lemma EnqueueFromB()
    ensures EnqueueLinks([], [External], Root, V3, 3) == []
  {
    Scopes();
    assert [External][1..] == [];
  }

  const S1 := Crawl([Item(PageA, 1)], V1, map[], ImageTracker.Empty, [Root])
  const S2 := Crawl([Item(PageB, 2)], V2, map[], ImageTracker.Empty, [Root, PageA])
  const S3 := Crawl([], V3, map[], ImageTracker.Empty, [Root, PageA, PageB])

  /** Processing an unclaimed page that stays inside the site and has no
      images claims it and schedules its admissible links. */
  lemma ProcessPlainPage(web: Web, s: Crawl, item: Item, html: Html, links: seq<Url>)
    requires item.url !in s.visited
    requires GenerateHtml(web.net, item.url).outcome == Page(html, item.url)
    requires StartsWith(item.url, web.mainUrl)
    requires Feed(html, item.url, web.join) == Parsed(links, [])
    ensures ProcessLink(web, s, item) == Crawl(
      EnqueueLinks(s.frontier, links, web.mainUrl, s.visited[item.url := item.depth], item.depth + 1),
      s.visited[item.url := item.depth],
      s.broken,
      s.tracker,
      s.fetched + [item.url])
  {
    var r := ProcessLink(web, s, item);
    assert Discover(web, item.url) == Some(Parsed(links, []));
    assert BrokenReason(web, item.url) == None;
    assert RecordImages(s.tracker, [], web.download, web.sha256) == s.tracker;
  }

  /** A turn on a one-item frontier processes that item with nothing left behind it. */
  lemma StepOfSingle(web: Web, s: Crawl)
    requires |s.frontier| == 1
    ensures Step(web, s) == ProcessLink(web, s.(frontier := []), s.frontier[0])
  {
    assert s.frontier[1..] == [];
  }

  lemma ProcessRoot()
    ensures ProcessLink(SiteWeb(), Start(Root).(frontier := []), Item(Root, 0)) == S1
  {
    var web, s := SiteWeb(), Start(Root).(frontier := []);
    assert GenerateHtml(web.net, Root).outcome == Page(RootHtml, Root) by { WebParts(); FetchPages(); }
    assert StartsWith(Root, web.mainUrl) by { WebParts(); Scopes(); }
    assert Feed(RootHtml, Root, web.join) == Parsed([PageA], []) by { WebParts(); ParseRoot(); }
    ProcessPlainPage(web, s, Item(Root, 0), RootHtml, [PageA]);
    assert EnqueueLinks([], [PageA], web.mainUrl, V1, 1) == [Item(PageA, 1)] by { WebParts(); EnqueueFromRoot(); }
    Single(Root);
  }

  lemma ProcessA()
    ensures ProcessLink(SiteWeb(), S1.(frontier := []), Item(PageA, 1)) == S2
  {
    var web, s := SiteWeb(), S1.(frontier := []);
    assert GenerateHtml(web.net, PageA).outcome == Page(AHtml, PageA) by { WebParts(); FetchPages(); }
    assert StartsWith(PageA, web.mainUrl) by { WebParts(); Scopes(); }
    assert Feed(AHtml, PageA, web.join) == Parsed([Root, PageB], []) by { WebParts(); ParseA(); }
    ProcessPlainPage(web, s, Item(PageA, 1), AHtml, [Root, PageB]);
    assert EnqueueLinks([], [Root, PageB], web.mainUrl, V2, 2) == [Item(PageB, 2)] by { WebParts(); EnqueueFromA(); }
    Pair(Root, PageA);
  }

  lemma ProcessB()
    ensures ProcessLink(SiteWeb(), S2.(frontier := []), Item(PageB, 2)) == S3
  {
    var web, s := SiteWeb(), S2.(frontier := []);
    assert GenerateHtml(web.net, PageB).outcome == Page(BHtml, PageB) by { WebParts(); FetchPages(); }
    assert StartsWith(PageB, web.mainUrl) by { WebParts(); Scopes(); }
    assert Feed(BHtml, PageB, web.join) == Parsed([External], []) by { WebParts(); ParseB(); }
    ProcessPlainPage(web, s, Item(PageB, 2), BHtml, [External]);
    assert EnqueueLinks([], [External], web.mainUrl, V3, 3) == [] by { WebParts(); EnqueueFromB(); }
    Triple(Root, PageA, PageB);
  }

  lemma Step1()
    ensures Step(SiteWeb(), Start(Root)) == S1
  {
    StepOfSingle(SiteWeb(), Start(Root));
    ProcessRoot();
  }

  lemma Step2()
    ensures Step(SiteWeb(), S1) == S2
  {
    StepOfSingle(SiteWeb(), S1);
    ProcessA();
  }

  lemma Step3()
    ensures Step(SiteWeb(), S2) == S3
  {
    StepOfSingle(SiteWeb(), S2);
    ProcessB();
  }

  /** The crawl ends with `/` at depth 0, `/a` at depth 1 and `/b` at depth 2,
      fetches each page once although `/a` links back to `/`, and never
      schedules the external link. */
  lemma CycleCrawl()
    ensures var r := ScanWebsite(SiteWeb(), Root, 4);
      && r.frontier == []
      && r.visited == map[Root := 0, PageA := 1, PageB := 2]
      && r.fetched == [Root, PageA, PageB]
      && r.broken == map[]
  {
    var web := SiteWeb();
    Step1();
    RunUnfold(web, Start(Root), 4);
    Step2();
    RunUnfold(web, S1, 3);
    Step3();
    RunUnfold(web, S2, 2);
    assert Run(web, S3, 1) == S3;
  }
}
