# Website crawler: a Dafny model of the crawl engine

This project models the crawl engine of `crawler.py`. Starting from a seed URL, the crawler:

- fetches each page of one site, with a small retry policy;
- keeps in-site links and follows them;
- records every URL with the depth at which it was first claimed;
- records broken links with their HTTP status or network error;
- counts and hashes the images it meets;
- finally selects broken images, repeated images and images with identical content for its report.

The model is sequential. One worker pops the oldest pending `(url, depth)` pair and processes it to completion before popping the next. Everything the crawl consults but does not compute is a parameter (`Crawler.Web`):

- the site's base URL (`MAIN_URL`);
- the network, as the outcome of the k-th attempt at a URL;
- `urljoin`, where `None` stands for the `ValueError` it raises;
- the image download;
- SHA-256.

Modules, following the program's structure:

| file | module | models |
|---|---|---|
| `urls.dfy` | `Urls` | `str.startswith`, `ABSOLUTE_PATH_START`, the scope test |
| `link_parser.dfy` | `LinkParser` | `LinkParser.handle_starttag` fed a page's start tags |
| `fetcher.dfy` | `Fetcher` | `generate_html` and its retry loop |
| `registry.dfy` | `Registry` | the visited map (`all_links_depths`) and the admission of links to `links_to_parse` |
| `image_tracker.dfy` | `ImageTracker` | `image_links` / `hash_images` and their updates |
| `crawler.dfy` | `Crawler` | `process_link`, one turn of the coordinator, and the crawl invariant |
| `scanner.dfy` | `Scanner` | `scan_website`'s loop |
| `crawl_properties.dfy` | `CrawlProperties` | properties of whole crawls |
| `report.dfy` | `Report` | the selection logic of the three image report writers |
| `crawl_example.dfy` | `CrawlExample` | one concrete site crawled end to end |
| `seqs.dfy` | `Seqs` | generic facts about sequence concatenation and slicing used by the proofs |

Three behaviours of the code that are easy to miss:

- **Images are tracked on every parsed page, whatever the image's host.** They are downloaded, counted and hashed even when they live on another site.
- **A fetch that returns `None` leaves only the claim.** This happens when the third attempt ends in `IncompleteRead` or a swallowed exception, after two attempts that each raised `URLError`, `IncompleteRead` or a swallowed exception. When the requested URL is in the site, `html` is then unbound, and the `NameError` raised by `parser.feed(html)` is caught by the `except Exception` around it; when it is outside the site, nothing is parsed at all. Either way no link, image or broken entry is recorded, and the URL keeps its depth in the visited map.
- **A retry requests the redirect target, not the original URL.** `url` is rebound to `geturl()` before `read()`, so a retry after a failed read goes to where the first request was redirected.

## Model

| member | source | states |
|---|---|---|
| Registry.Claim | crawler.py:86-90 | The claim is won exactly when the URL is unclaimed. The URL is claimed afterwards in every case. Every earlier depth is kept, and a won claim records the current depth. |
| Registry.EnqueueLinks | crawler.py:106-109 | The old frontier is a prefix of the new one. Every appended item sits at depth + 1 and is a page link that is unclaimed and in scope. Every such link is appended. |
| Urls.InScope | crawler.py:108 | The scope half of the admission test: a link is followed when it starts with the base URL or is not an absolute `http…` reference. `https` links count as absolute. |
| Registry.Admissible | crawler.py:108 | A discovered link is admitted when nobody has claimed it yet and it is in scope. |
| Registry.ExternalNeverEnqueued | crawler.py:108 | An absolute `http…` link outside the base URL is never appended. |
| LinkParser.RoleOf | crawler.py:42-48 | The tag name, lower-cased, picks the role: `a` gives page links, `img` gives image sources, and any other tag is ignored. |
| LinkParser.Values | crawler.py:43-44 | The selected values are exactly the values of the attributes with the wanted name. Each value occurs as often as an attribute with that name and value does. |
| LinkParser.ResolveAll | crawler.py:43-46 | Each resolved reference is the `urljoin` of the reference at the same position. Resolution stops at the first rejected reference. It completes exactly when every reference resolves. |
| LinkParser.ValuesInOrder | crawler.py:43-44 | The values keep document order. One attribute contributes its value or nothing, and the values of a concatenation are the values of each part, one after the other. |
| LinkParser.HandleStartTag | crawler.py:38-52 | A tag only appends to the lists. An `img` tag never touches the links and an `a` tag never touches the images. The list of the tag's role grows by the resolutions of its wanted attributes, in attribute order, up to the first one `urljoin` rejects. The tag completes without raising exactly when every one of those attributes resolves. |
| LinkParser.FeedFrom | crawler.py:100-104 | Feeding tags one after another, stopping after the first tag that raised, only appends to the lists it starts from. |
| LinkParser.Feed | crawler.py:100-104 | `parser.feed(html)` from empty lists, inside the `try` whose `except Exception: pass` keeps whatever was collected before an error. |
| LinkParser.FeedSound | crawler.py:38-52 | Every yielded link is the resolution of an `href` of an `a` tag of the page, and every yielded image the resolution of a `src` of an `img` tag. |
| LinkParser.FeedFromExact | crawler.py:38-52 | When no reference is malformed, feeding appends to the list of a role exactly the resolutions of that role's references, in document order. |
| LinkParser.FeedComplete | crawler.py:38-52 | When no reference is malformed, every such resolution is yielded. The links are the resolved `href`s of the `a` tags, and the images the resolved `src`s of the `img` tags, one entry per occurrence and in document order. |
| LinkParser.FeedPrefix | crawler.py:101-104 | A feed cut short by a parse error yields a prefix of each list the whole page yields. |
| LinkParser.TagNameCaseInsensitive | crawler.py:42-48 | Tag names are compared after lower-casing: `A` and `IMG` select like `a` and `img`. |
| Fetcher.NextUrl | crawler.py:64 | The URL of the next attempt is the redirect target when `urlopen` had returned before the failure, and the same URL otherwise. |
| Fetcher.Retried | crawler.py:68-77 | An attempt leads to another turn of the loop on `IncompleteRead`, a swallowed exception, or a `URLError` before the third attempt. |
| Fetcher.AttemptFrom | crawler.py:61-77 | The loop makes at most three attempts and ends after the one it is on. |
| Fetcher.GenerateHtml | crawler.py:54-77 | The result obeys the retry policy. There are 1 to 3 attempts, and every attempt but the last failed in a retried way. A page or `HTTPError` comes from the last attempt. A `URLError` or `None` comes only from the third attempt. |
| Fetcher.FetchSpecUnique | crawler.py:58-77 | The retry policy determines the result: any run that obeys it is the one `generate_html` produces. |
| Fetcher.HttpErrorNotRetried | crawler.py:66-67 | Whichever attempt gets an `HTTPError` is the last one, and its status is the result. |
| Fetcher.UrlErrorOnlyOnLastAttempt | crawler.py:68-72 | A `URLError` result comes from the third attempt and carries that attempt's reason. Both earlier attempts failed in a way the loop retries. |
| Fetcher.AllSwallowedYieldsNone | crawler.py:73-77 | When every attempt ends in `IncompleteRead` or a swallowed exception, all three attempts are made and the result is `None`. |
| ImageTracker.RecordImage | crawler.py:113-133 | An unseen image that downloads gets count 1 and its digest. An unseen image that fails gets -1 and no digest. A seen counted image is incremented. A -1 entry is left alone. |
| ImageTracker.RecordImageKeepsInvariant | crawler.py:113-133 | An update keeps the tracker well formed: counts are at least 1 or -1, and exactly the non-broken images have a digest. Counts only grow and stored digests never change. Every stored digest is the SHA-256 of what the URL serves. |
| ImageTracker.RecordImages | crawler.py:111-133 | The loop over a page's images keeps the same invariant. |
| ImageTracker.RecordImagesConcat | crawler.py:111 | Recording two lists one after the other is recording their concatenation. |
| ImageTracker.RecordImagesCounts | crawler.py:111-133 | After a list of occurrences, an image's entry is its old count plus its number of occurrences. A newly met image counts from 1, or is -1 when its download fails, and -1 stays -1. |
| ImageTracker.ImageCountedOncePerReference | crawler.py:113-128 | From an empty tracker, a loadable image referenced n times ends with count n and its digest. |
| Crawler.Discover | crawler.py:94-104 | Something is parsed exactly when the fetch returns a page whose final URL starts with the base URL. What is parsed is that page, resolved against its final URL. |
| Crawler.BrokenReason | crawler.py:135-141 | A URL is broken exactly when its fetch raised an `HTTPError` with a status in [400, 600) or a `URLError`. The entry is that status or reason, and a broken URL yields nothing to parse. |
| Crawler.ProcessLink | crawler.py:79-141 | A lost claim changes nothing. A won claim records the depth and logs the fetch. The broken entry is exactly the 4xx/5xx status or `URLError` reason. Appended items are unclaimed in-scope links of the page at depth + 1, and all of them are appended. A failed fetch, a `None` or a redirect off the site leaves frontier and tracker alone. |
| Crawler.Start | crawler.py:147-155 | The crawl starts with the seed at depth 0 as its only pending item, and nothing claimed, fetched, broken or tracked. |
| Crawler.Step | crawler.py:165-170 | A turn pops the oldest item and processes it. Afterwards its URL is claimed, with the item's depth if it was unclaimed. A claimed URL leaves only the rest of the frontier. The rest of the frontier stays ahead of anything appended. |
| Crawler.StartInv | crawler.py:147-151 | The initial state satisfies the crawl invariant. |
| Crawler.StepFetchedOnce | crawler.py:86-90 | No URL is fetched twice, and the fetched URLs are exactly the claimed ones. |
| Crawler.StepBrokenExact | crawler.py:135-141 | The broken map holds exactly the claimed URLs whose fetch failed for good, each with its code or reason. |
| Crawler.StepTrackerReplays | crawler.py:111-133 | The tracker is what recording every image reference of every fetched page, in fetch order, yields. |
| Crawler.StepDepthsWitnessed | crawler.py:106-109 | Every recorded and every pending depth is the length of some chain of in-scope links from the seed. |
| Crawler.StepScoped | crawler.py:106-109 | Nothing out of scope is ever pending, except the seed. |
| Crawler.ProcessLinkWitnessed | crawler.py:106-109 | When the processed URL was reached by a chain of in-scope links, so is every item the turn appends, at the depth it is appended with. |
| Crawler.ProcessLinkSchedules | crawler.py:106-109 | Every in-scope link of a freshly claimed page is claimed or pending afterwards. |
| Crawler.StepCovered | crawler.py:106-109 | No work is lost: the seed and every in-scope link of a claimed page are claimed or pending. |
| Crawler.StepKeepsInv | crawler.py:164-170 | One pop-and-process turn keeps the whole crawl invariant. |
| Scanner.Turn | crawler.py:164-170 | One turn of the loop: a state with nothing pending is left as it is, otherwise the oldest item is popped and processed. |
| Scanner.Loop | crawler.py:164 | `while links_to_parse`: on an empty frontier the loop takes no turn and returns the state unchanged. |
| Scanner.Run | crawler.py:164-174 | The coordinator loop over pop-and-process turns. A crawl with nothing pending is returned as it is. |
| Scanner.LoopPreserves | crawler.py:164-174 | A property every turn preserves holds after any number of turns. |
| Scanner.RunUnfold | crawler.py:164-170 | A turn taken on a non-empty frontier: the loop continues from the state after it. |
| Scanner.RunKeepsInv | crawler.py:164-174 | The crawl invariant holds after any number of turns. |
| Scanner.ScanWebsite | crawler.py:143-179 | The state `scan_website` returns satisfies the crawl invariant. |
| CrawlProperties.RunExtends | crawler.py:86-90 | A recorded depth never changes, the fetch log and broken map only grow, and the tracker only grows. |
| CrawlProperties.ClaimedUrlNotRefetched | crawler.py:86-90 | A turn on an already claimed URL only drops it from the frontier. |
| CrawlProperties.BrokenLinkDiscoversNothing | crawler.py:135-141 | A fetch that fails for good records its reason and discovers no links and no images. |
| CrawlProperties.RedirectAwayIsLeaf | crawler.py:98-99 | A page whose final URL left the site adds nothing to the frontier, the tracker or the broken map. |
| CrawlProperties.StepWithin | crawler.py:164-170 | On a set of URLs closed under links, a turn stays in the set. It either claims one more of its URLs or shortens the frontier. |
| CrawlProperties.RunTerminates | crawler.py:164-174 | From any state inside a finite closed set of URLs, some number of turns empties the frontier. |
| CrawlProperties.ScanTerminates | crawler.py:143-179 | `scan_website` ends on a site whose pages, from the seed on, link only into a finite set. |
| CrawlProperties.FinishedCrawlComplete | crawler.py:143-179 | Once the frontier is empty, every URL on a chain of in-scope links from the seed has been claimed. Each claimed depth is the length of such a chain. |
| CrawlProperties.ImageCountIsReferenceCount | crawler.py:111-133 | At the end, a referenced image's count is its number of references on the fetched pages. If its download fails it is -1 and has no digest; otherwise it carries the digest of its bytes. |
| Report.BrokenImageLinks | crawler.py:198-202 | The listed images are exactly the entries equal to -1. |
| Report.DuplicateImageLinks | crawler.py:204-208 | The listed images are exactly the entries above 1, each with its count. |
| Report.SameHashGroups | crawler.py:210-225 | The groups built through `hashcodes` are exactly the hash classes with more than one member. |
| Report.GroupsAreHashClasses | crawler.py:212-225 | A reported group is a whole class of equal digests with at least two members. |
| Report.SharedHashGrouped | crawler.py:212-225 | Two different images with the same digest are reported in one group. |
| Report.BrokenNeverGrouped | crawler.py:116-126 | An image in a group is tracked and not broken, because broken images have no digest. |
| Report.IdenticalBytesGrouped | crawler.py:116-120 | Two different image URLs that serve the same bytes end up in one group. |
| CrawlExample.CycleCrawl | crawler.py:143-179 | On a three-page site with a link cycle and an external link, a run allowed four turns stops after three, having fetched each page once, at depths 0, 1, 2. The external link is never scheduled and nothing is broken. |

## Left out

- Concurrency: the `Manager` proxies, the `Pool`, `apply_async`, `task_list` and the four locks (crawler.py:150-177). The model runs one worker that finishes each URL before popping the next.
- The unsynchronised check of `image_links` before a download (crawler.py:112-113) can let two workers download the same image. The unlocked increment at crawler.py:132-133 can lose counts. The locked `image_links.get(img, 0) + 1` at crawler.py:128 can turn a -1 written by a racing failed download into 0, while a digest is still stored at crawler.py:120. So the concurrent program's counts are not always the reference counts this sequential model proves; the model cannot exhibit these races.
- Network I/O: `urlopen`, `download_image_data`, the 5-second timeout and the one-second `time.sleep`. These are the `Network` and `Downloader` parameters. The waits change when an attempt happens, not what it returns.
- UTF-8 decoding: a body that fails to decode is one of the swallowed outcomes of an attempt.
- `hashlib.sha256` and `urljoin`: both are parameters. A `ValueError` from `urljoin` is `None` and aborts the feed.
- `HTMLParser` tokenisation: a page is the sequence of its start tags. Markup-error tolerance is the cut-short feed that `FeedPrefix` describes.
- Report text and file output (crawler.py:188-236): only the selection logic is modelled.
- The `__main__` block and the hard-coded `MAIN_URL`: the base URL and the seed are parameters.
- Scanner.ScanWebsite, Scanner.Run and Scanner.Loop: they run for at most `fuel` turns, because a site may keep producing new in-scope URLs. `ScanTerminates` states when a finite number of turns suffices.
- LinkParser.TagNameCaseInsensitive: `Lower` folds only ASCII letters. Tag names compared against `a` and `img` are not affected, but full Unicode `str.lower` is not modelled.
- The `URLError` reason is kept as a string. The source may store any object there.
