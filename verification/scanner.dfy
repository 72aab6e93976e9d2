/** `scan_website`: the coordinator's loop from the seed, and the invariant
    every run of it keeps. */
module Scanner {
  import opened Urls
  import opened Crawler

  /** `while work: work = step(work)`, for at most `fuel` turns, where the
      work is done once the frontier is empty. */
  function Loop(step: Crawl -> Crawl, s: Crawl, fuel: nat): (r: Crawl)
    ensures s.frontier == [] ==> r == s
    decreases fuel
  {
    if fuel == 0 || s.frontier == [] then s else Loop(step, step(s), fuel - 1)
  }

  /** One turn of the coordinator; an empty frontier leaves the loop. */
  function Turn(web: Web): Crawl -> Crawl {
    (s: Crawl) => if s.frontier == [] then s else Step(web, s)
  }

  /** The coordinator loop (`while links_to_parse: …`) for at most `fuel`
      turns: a site may keep producing new in-scope URLs forever. */
  function Run(web: Web, s: Crawl, fuel: nat): (r: Crawl)
    ensures s.frontier == [] ==> r == s
  {
    Loop(Turn(web), s, fuel)
  }

  /** A turn taken: the run continues from the state after it. */
  lemma RunUnfold(web: Web, s: Crawl, fuel: nat)
    requires fuel > 0 && s.frontier != []
    ensures Run(web, s, fuel) == Run(web, Step(web, s), fuel - 1)
  {
    assert Turn(web)(s) == Step(web, s);
  }

  /** A property that every turn preserves holds after any number of turns. */
  lemma {:induction false} LoopPreserves(step: Crawl -> Crawl, p: Crawl -> bool, s: Crawl, fuel: nat)
    requires forall c: Crawl :: c.frontier != [] && p(c) ==> p(step(c))
    requires p(s)
    ensures p(Loop(step, s, fuel))
    decreases fuel
  {
    if fuel > 0 && s.frontier != [] {
      LoopPreserves(step, p, step(s), fuel - 1);
    }
  }

  /** Every turn of the coordinator keeps the invariant of a crawl from `seed`. */
  lemma RunKeepsInv(web: Web, seed: Url, s: Crawl, fuel: nat)
    requires Inv(web, seed, s)
    ensures Inv(web, seed, Run(web, s, fuel))
  {
    var inv := (c: Crawl) => Inv(web, seed, c);
    forall c: Crawl | c.frontier != [] && inv(c)
      ensures inv(Turn(web)(c))
    {
      StepKeepsInv(web, seed, c);
    }
    LoopPreserves(Turn(web), inv, s, fuel);
  }

  /** `scan_website(seed)`, run for at most `fuel` turns: the crawl state it
      returns satisfies the invariant. */
  function ScanWebsite(web: Web, seed: Url, fuel: nat): (r: Crawl)
    ensures Inv(web, seed, r)
  {
    StartInv(web, seed);
    RunKeepsInv(web, seed, Start(seed), fuel);
    Run(web, Start(seed), fuel)
  }
}
