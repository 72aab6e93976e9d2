/** The visited registry (`all_links_depths`) and the frontier
    (`links_to_parse`): claiming a URL and admitting discovered links. */
module Registry {
  import opened Urls

  /** URL -> depth at which it was first claimed. */
  type Visited = map<Url, nat>

  /** A pending `(url, depth)` pair of the frontier. */
  datatype Item = Item(url: Url, depth: nat)

  datatype Claimed = Claimed(won: bool, visited: Visited)

  /** The check-and-insert under `all_links_lock`: the first claim of a URL
      records its depth and wins; any later claim changes nothing and loses. */
  function Claim(visited: Visited, url: Url, depth: nat): (r: Claimed)
    ensures r.won <==> url !in visited
    ensures r.visited.Keys == visited.Keys + {url}
    ensures forall u :: u in visited ==> r.visited[u] == visited[u]
    ensures r.won ==> r.visited[url] == depth
  {
    if url !in visited then Claimed(true, visited[url := depth])
    else Claimed(false, visited)
  }

  /** A discovered link is put on the frontier when nobody has claimed it
      yet and it is in scope. */
  predicate Admissible(mainUrl: Url, visited: Visited, link: Url) {
    link !in visited && InScope(mainUrl, link)
  }

  /** The loop over `parser.links`: admissible links are appended, in order,
      at the given depth; nothing already on the frontier is touched. */
  function EnqueueLinks(frontier: seq<Item>, links: seq<Url>, mainUrl: Url, visited: Visited, depth: nat): (r: seq<Item>)
    ensures frontier <= r
    ensures forall i :: |frontier| <= i < |r| ==> r[i].depth == depth && r[i].url in links && Admissible(mainUrl, visited, r[i].url)
    ensures forall l :: l in links && Admissible(mainUrl, visited, l) ==> Item(l, depth) in r[|frontier|..]
    decreases |links|
  {
    if links == [] then frontier
    else
      var next := if Admissible(mainUrl, visited, links[0]) then frontier + [Item(links[0], depth)] else frontier;
      var r := EnqueueLinks(next, links[1..], mainUrl, visited, depth);
      assert forall l :: l in links ==> l == links[0] || l in links[1..];
      assert Admissible(mainUrl, visited, links[0]) ==> r[|frontier|] == Item(links[0], depth);
      r
  }

  /** Absolute links to other sites are never put on the frontier. */
  lemma ExternalNeverEnqueued(frontier: seq<Item>, links: seq<Url>, mainUrl: Url, visited: Visited, depth: nat, link: Url)
    requires StartsWith(link, ABSOLUTE_PATH_START) && !StartsWith(link, mainUrl)
    ensures Item(link, depth) !in EnqueueLinks(frontier, links, mainUrl, visited, depth)[|frontier|..]
  {
  }
}
