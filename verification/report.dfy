/** The selection part of the report writers: which tracked images are
    listed as broken, as repeated, and as sharing their content. The text
    layout and the file are left to the writers. */
module Report {
  import opened Urls
  import opened ImageTracker

  /** `write_report_broken_image_links`: the images whose entry is -1. */
  method BrokenImageLinks(counts: map<Url, int>) returns (broken: set<Url>)
    ensures forall u :: u in broken <==> u in counts && counts[u] == BROKEN
  {
    broken := {};
    var todo := counts.Keys;
    while todo != {}
      invariant todo <= counts.Keys
      invariant forall u :: u in broken <==> u in counts && u !in todo && counts[u] == BROKEN
      decreases todo
    {
      var u :| u in todo;
      if counts[u] == BROKEN {
        broken := broken + {u};
      }
      todo := todo - {u};
    }
  }

  /** `write_report_duplicate_image_links`: the images met more than once,
      with their counts. */
  method DuplicateImageLinks(counts: map<Url, int>) returns (dups: map<Url, int>)
    ensures forall u :: u in dups <==> u in counts && counts[u] > 1
    ensures forall u :: u in dups ==> dups[u] == counts[u]
  {
    dups := map[];
    var todo := counts.Keys;
    while todo != {}
      invariant todo <= counts.Keys
      invariant forall u :: u in dups <==> u in counts && u !in todo && counts[u] > 1
      invariant forall u :: u in dups ==> dups[u] == counts[u]
      decreases todo
    {
      var u :| u in todo;
      if counts[u] > 1 {
        dups := dups[u := counts[u]];
      }
      todo := todo - {u};
    }
  }

  /** All images whose content hashes to `h`. */
  function HashClass(hashes: map<Url, Digest>, h: Digest): set<Url> {
    set u | u in hashes && hashes[u] == h
  }

  /** The hash classes with more than one member. */
  function HashGroups(hashes: map<Url, Digest>): set<set<Url>> {
    set h | h in hashes.Values && |HashClass(hashes, h)| > 1 :: HashClass(hashes, h)
  }

  /** `write_report_same_hash`: groups the hashed images by digest into
      `hashcodes`, then keeps the groups of more than one image. */
  method SameHashGroups(hashes: map<Url, Digest>) returns (groups: set<set<Url>>)
    ensures groups == HashGroups(hashes)
  {
    var hashcodes: map<Digest, set<Url>> := map[];
    var todo := hashes.Keys;
    while todo != {}
      invariant todo <= hashes.Keys
      invariant forall h :: h in hashcodes <==> exists u :: u in hashes && u !in todo && hashes[u] == h
      invariant forall h :: h in hashcodes ==> hashcodes[h] == set u | u in hashes && u !in todo && hashes[u] == h
      decreases todo
    {
      var u :| u in todo;
      var h := hashes[u];
      if h !in hashcodes {
        hashcodes := hashcodes[h := {}];
      }
      hashcodes := hashcodes[h := hashcodes[h] + {u}];
      todo := todo - {u};
    }
    assert forall h :: h in hashcodes ==> hashcodes[h] == HashClass(hashes, h);
    assert hashcodes.Keys == hashes.Values;
    groups := set h | h in hashcodes && |hashcodes[h]| > 1 :: hashcodes[h];
  }

  lemma TwoElementsCardinality(s: set<Url>, u: Url, v: Url)
    requires u in s && v in s && u != v
    ensures |s| > 1
  {
    assert s == {u} + (s - {u});
    assert v in s - {u};
  }

  /** A reported group is a whole hash class: its members share one digest,
      every image with that digest belongs to it, and it has at least two
      members. */
  lemma GroupsAreHashClasses(hashes: map<Url, Digest>, g: set<Url>)
    requires g in HashGroups(hashes)
    ensures |g| > 1
    ensures forall u, v :: u in g && v in g ==> u in hashes && v in hashes && hashes[u] == hashes[v]
    ensures forall u, w :: u in g && w in hashes && hashes[w] == hashes[u] ==> w in g
  {
  }

  /** Two different images with the same digest are always reported
      together. */
  lemma SharedHashGrouped(hashes: map<Url, Digest>, u: Url, v: Url)
    requires u in hashes && v in hashes && u != v && hashes[u] == hashes[v]
    ensures exists g :: g in HashGroups(hashes) && u in g && v in g
  {
    var h := hashes[u];
    TwoElementsCardinality(HashClass(hashes, h), u, v);
    assert HashClass(hashes, h) in HashGroups(hashes);
  }

  /** A broken image has no hash, so it is never part of a group. */
  lemma BrokenNeverGrouped(t: Tracker, g: set<Url>, u: Url)
    requires WellFormed(t)
    requires g in HashGroups(t.hashes) && u in g
    ensures u in t.counts && t.counts[u] != BROKEN
  {
  }

  /** Two different image URLs serving the same bytes end up in one group. */
  lemma IdenticalBytesGrouped(t: Tracker, download: Downloader, sha256: Hasher, u: Url, v: Url)
    requires HashesFaithful(t, download, sha256)
    requires u in t.hashes && v in t.hashes && u != v
    requires download(u) == download(v)
    ensures exists g :: g in HashGroups(t.hashes) && u in g && v in g
  {
    SharedHashGrouped(t.hashes, u, v);
  }
}
