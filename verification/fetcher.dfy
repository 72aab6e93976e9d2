/** The retrying fetch (`generate_html`). Each attempt opens the URL, reads the
    body and decodes it; what the network does on the k-th attempt at a URL is
    given by a `Network`. Timeouts and the one-second pause between attempts
    are not modelled: they change when an attempt happens, not what the
    function returns. */
module Fetcher {
  import opened Wrappers
  import opened Urls
  import opened LinkParser

  /** `retries` */
  const RETRIES: nat := 3

  /** The outcome of one attempt. */
  datatype Attempt =
      /** Opened, read and decoded; `finalUrl` is `geturl()` after redirects. */
    | Loaded(finalUrl: Url, html: Html)
      /** `urlopen` raised `HTTPError` (the server's definitive answer). */
    | HttpFailure(code: int)
      /** `urlopen` raised another `URLError` (connection refused, timeout, unknown scheme…). */
    | NetFailure(reason: string)
      /** The response was opened at `finalUrl`, then `read` raised `IncompleteRead`. */
    | Truncated(finalUrl: Url)
      /** Any other exception; `reached` is `geturl()` when `urlopen` had already returned
          (a decoding error, for one), `None` when `urlopen` itself raised. */
    | Swallowed(reached: Option<Url>)

  /** The outcome of attempt number `k` (from 0) at a URL. */
  type Network = (Url, nat) -> Attempt

  /** What `generate_html` returns or raises. */
  datatype Fetched =
    | Page(html: Html, finalUrl: Url)
    | NoPage
    | HttpError(code: int)
    | UrlError(reason: string)

  datatype FetchRun = FetchRun(outcome: Fetched, attempts: nat)

  /** The attempt fails in a way that leads to another turn of the retry loop:
      `URLError` except on the last turn, `IncompleteRead`, anything swallowed. */
  predicate Retried(a: Attempt, k: nat) {
    match a
    case NetFailure(_) => k < RETRIES - 1
    case Truncated(_) => true
    case Swallowed(_) => true
    case _ => false
  }

  /** `url` is rebound to `geturl()` before the body is read, so the next
      attempt asks for the redirect target when the read failed. */
  function NextUrl(a: Attempt, url: Url): Url {
    match a
    case Truncated(finalUrl) => finalUrl
    case Swallowed(reached) => reached.GetOr(url)
    case _ => url
  }

  /** The URL requested on attempt `k` of a fetch of `url`. */
  function Requested(net: Network, url: Url, k: nat): Url
    decreases k
  {
    if k == 0 then url
    else
      var previous := Requested(net, url, k - 1);
      NextUrl(net(previous, k - 1), previous)
  }

  function AttemptAt(net: Network, url: Url, k: nat): Attempt {
    net(Requested(net, url, k), k)
  }

  /** The retry policy, stated over the sequence of attempts: every attempt
      but the last was retried, and the last one decides the result. */
  ghost predicate FetchSpec(net: Network, url: Url, run: FetchRun) {
    && 1 <= run.attempts <= RETRIES
    && (forall k :: 0 <= k < run.attempts - 1 ==> Retried(AttemptAt(net, url, k), k))
    && var last := AttemptAt(net, url, run.attempts - 1);
       match run.outcome
       case Page(html, finalUrl) => last == Loaded(finalUrl, html)
       case HttpError(code) => last == HttpFailure(code)
       case UrlError(reason) => run.attempts == RETRIES && last == NetFailure(reason)
       case NoPage => run.attempts == RETRIES && Retried(last, run.attempts - 1)
  }

  /** The loop of `generate_html` from attempt `attempt` on, requesting `url`. */
  function AttemptFrom(net: Network, url: Url, attempt: nat): (r: FetchRun)
    requires attempt <= RETRIES
    ensures attempt < r.attempts <= RETRIES || (attempt == RETRIES && r == FetchRun(NoPage, RETRIES))
    decreases RETRIES - attempt
  {
    if attempt == RETRIES then FetchRun(NoPage, RETRIES)
    else
      match net(url, attempt)
      case Loaded(finalUrl, html) => FetchRun(Page(html, finalUrl), attempt + 1)
      case HttpFailure(code) => FetchRun(HttpError(code), attempt + 1)
      case NetFailure(reason) =>
        if attempt < RETRIES - 1 then AttemptFrom(net, url, attempt + 1)
        else FetchRun(UrlError(reason), attempt + 1)
      case Truncated(finalUrl) => AttemptFrom(net, finalUrl, attempt + 1)
      case Swallowed(reached) => AttemptFrom(net, reached.GetOr(url), attempt + 1)
  }

  lemma {:induction false} AttemptFromMeetsSpec(net: Network, url: Url, k: nat)
    requires k <= RETRIES
    requires forall j :: 0 <= j < k ==> Retried(AttemptAt(net, url, j), j)
    ensures FetchSpec(net, url, AttemptFrom(net, Requested(net, url, k), k))
    decreases RETRIES - k
  {
    if k < RETRIES {
      var a := AttemptAt(net, url, k);
      assert Requested(net, url, k + 1) == NextUrl(a, Requested(net, url, k));
      if Retried(a, k) {
        AttemptFromMeetsSpec(net, url, k + 1);
      }
    }
  }

  /** `generate_html(url)`: at most `RETRIES` attempts; `HTTPError` is raised at
      once, `URLError` only when the last attempt fails with it, and `None`
      comes back when the last attempt ends in `IncompleteRead` or a swallowed
      exception. */
  function GenerateHtml(net: Network, url: Url): (r: FetchRun)
    ensures FetchSpec(net, url, r)
  {
    AttemptFromMeetsSpec(net, url, 0);
    AttemptFrom(net, url, 0)
  }

  /** The retry policy determines the result: any run that obeys it is the
      one `generate_html` produces. */
  lemma FetchSpecUnique(net: Network, url: Url, run: FetchRun)
    requires FetchSpec(net, url, run)
    ensures run == GenerateHtml(net, url)
  {
    var r := GenerateHtml(net, url);
    if run.attempts != r.attempts {
      assert false;
    }
  }

  /** An HTTP error status ends the fetch at once: whichever attempt gets
      it, that attempt is the last and its status is the result. */
  lemma HttpErrorNotRetried(net: Network, url: Url, k: nat)
    requires k < GenerateHtml(net, url).attempts && AttemptAt(net, url, k).HttpFailure?
    ensures GenerateHtml(net, url) == FetchRun(HttpError(AttemptAt(net, url, k).code), k + 1)
  {
    var r := GenerateHtml(net, url);
    if k < r.attempts - 1 {
      assert false;
    }
  }

  /** When every attempt ends in `IncompleteRead` or a swallowed exception,
      all three attempts are made and the result is `None`. */
  lemma AllSwallowedYieldsNone(net: Network, url: Url)
    requires forall k :: 0 <= k < RETRIES ==> AttemptAt(net, url, k).Truncated? || AttemptAt(net, url, k).Swallowed?
    ensures GenerateHtml(net, url) == FetchRun(NoPage, RETRIES)
  {
    var r := GenerateHtml(net, url);
    assert !AttemptAt(net, url, r.attempts - 1).NetFailure?;
  }

  /** Connection failures are retried: `URLError` surfaces only from the
      third attempt, after two earlier attempts that each failed in a way
      the loop retries. */
  lemma UrlErrorOnlyOnLastAttempt(net: Network, url: Url)
    requires GenerateHtml(net, url).outcome.UrlError?
    ensures GenerateHtml(net, url).attempts == RETRIES
    ensures forall k :: 0 <= k < RETRIES - 1 ==> Retried(AttemptAt(net, url, k), k)
    ensures AttemptAt(net, url, RETRIES - 1) == NetFailure(GenerateHtml(net, url).outcome.reason)
  {
  }
}
