/** The image tracker: `image_links` (URL -> occurrence count, or -1 once the
    image failed to download) and `hash_images` (URL -> SHA-256 hex digest of
    the bytes). Downloading and hashing are collaborators passed in. */
module ImageTracker {
  import opened Wrappers
  import opened Urls

  type Bytes = seq<bv8>

  /** `hashlib.sha256(data).hexdigest()` */
  type Digest = string

  /** `download_image_data`; `None` is any exception it raises. */
  type Downloader = Url -> Option<Bytes>

  type Hasher = Bytes -> Digest

  /** The count that marks an image as broken. */
  const BROKEN: int := -1

  datatype Tracker = Tracker(counts: map<Url, int>, hashes: map<Url, Digest>)

  const Empty := Tracker(map[], map[])

  /** Every count is positive or BROKEN, and exactly the images that are not
      broken have a hash. */
  ghost predicate WellFormed(t: Tracker) {
    && (forall u :: u in t.counts ==> t.counts[u] == BROKEN || t.counts[u] >= 1)
    && (forall u :: u in t.hashes <==> u in t.counts && t.counts[u] != BROKEN)
  }

  /** Every recorded hash is the digest of what the image's URL serves. */
  ghost predicate HashesFaithful(t: Tracker, download: Downloader, sha256: Hasher) {
    forall u :: u in t.hashes ==> download(u).Some? && t.hashes[u] == sha256(download(u).value)
  }

  /** What an update may do to the tracker: counts never go down, a BROKEN
      entry and a recorded hash never change, no entry disappears. */
  ghost predicate Grows(t: Tracker, t': Tracker) {
    && t.counts.Keys <= t'.counts.Keys
    && (forall u :: u in t.counts && t.counts[u] == BROKEN ==> t'.counts[u] == BROKEN)
    && (forall u :: u in t.counts && t.counts[u] != BROKEN ==> t'.counts[u] >= t.counts[u])
    && (forall u :: u in t.hashes ==> u in t'.hashes && t'.hashes[u] == t.hashes[u])
  }

  /** One occurrence of `img` on a page. An unseen image is downloaded: on
      success its hash is stored and its count becomes 1, on failure it is
      marked BROKEN. A seen image is counted again without a download, unless
      it is BROKEN, which is left alone. */
  function RecordImage(t: Tracker, img: Url, download: Downloader, sha256: Hasher): (r: Tracker)
    ensures img !in t.counts && download(img).Some? ==>
      r.counts == t.counts[img := 1] && r.hashes == t.hashes[img := sha256(download(img).value)]
    ensures img !in t.counts && download(img).None? ==>
      r.counts == t.counts[img := BROKEN] && r.hashes == t.hashes
    ensures img in t.counts && t.counts[img] != BROKEN ==>
      r.counts == t.counts[img := t.counts[img] + 1] && r.hashes == t.hashes
    ensures img in t.counts && t.counts[img] == BROKEN ==> r == t
  {
    if img !in t.counts then
      match download(img)
      // `image_links.get(img, 0) + 1`: the entry is still absent in a sequential run
      case Some(data) => Tracker(t.counts[img := 1], t.hashes[img := sha256(data)])
      case None => Tracker(t.counts[img := BROKEN], t.hashes)
    else if t.counts[img] != BROKEN then
      t.(counts := t.counts[img := t.counts[img] + 1])
    else
      t
  }

  lemma RecordImageWellFormed(t: Tracker, img: Url, download: Downloader, sha256: Hasher)
    requires WellFormed(t)
    ensures WellFormed(RecordImage(t, img, download, sha256))
    ensures Grows(t, RecordImage(t, img, download, sha256))
  {
  }

  lemma RecordImageFaithful(t: Tracker, img: Url, download: Downloader, sha256: Hasher)
    requires HashesFaithful(t, download, sha256)
    ensures HashesFaithful(RecordImage(t, img, download, sha256), download, sha256)
  {
  }

  /** Recording an occurrence keeps the tracker well formed, only lets it
      grow, and stores only true digests. */
  lemma RecordImageKeepsInvariant(t: Tracker, img: Url, download: Downloader, sha256: Hasher)
    ensures var r := RecordImage(t, img, download, sha256);
      && (WellFormed(t) ==> WellFormed(r) && Grows(t, r))
      && (HashesFaithful(t, download, sha256) ==> HashesFaithful(r, download, sha256))
  {
    if WellFormed(t) {
      RecordImageWellFormed(t, img, download, sha256);
    }
    if HashesFaithful(t, download, sha256) {
      RecordImageFaithful(t, img, download, sha256);
    }
  }

  /** The loop over `parser.image_sources`. */
  function RecordImages(t: Tracker, imgs: seq<Url>, download: Downloader, sha256: Hasher): (r: Tracker)
    ensures WellFormed(t) ==> WellFormed(r) && Grows(t, r)
    ensures HashesFaithful(t, download, sha256) ==> HashesFaithful(r, download, sha256)
    decreases |imgs|
  {
    if imgs == [] then t
    else
      RecordImageKeepsInvariant(t, imgs[0], download, sha256);
      RecordImages(RecordImage(t, imgs[0], download, sha256), imgs[1..], download, sha256)
  }

  /** Recording two lists of occurrences one after the other is recording
      their concatenation. */
  lemma {:induction false} RecordImagesConcat(t: Tracker, a: seq<Url>, b: seq<Url>, download: Downloader, sha256: Hasher)
    ensures RecordImages(t, a + b, download, sha256) == RecordImages(RecordImages(t, a, download, sha256), b, download, sha256)
    decreases |a|
  {
    if a == [] {
      assert a + b == b;
    } else {
      var t' := RecordImage(t, a[0], download, sha256);
      assert (a + b)[0] == a[0] && (a + b)[1..] == a[1..] + b;
      assert RecordImages(t, a + b, download, sha256) == RecordImages(t', a[1..] + b, download, sha256);
      assert RecordImages(t, a, download, sha256) == RecordImages(t', a[1..], download, sha256);
      RecordImagesConcat(t', a[1..], b, download, sha256);
    }
  }

  function Lookup(counts: map<Url, int>, img: Url): Option<int> {
    if img in counts then Some(counts[img]) else None
  }

  /** The entry an image should end with after `n` more occurrences,
      stated without replaying them. */
  function Expected(t: Tracker, n: nat, img: Url, download: Downloader): Option<int> {
    if img in t.counts then
      Some(if t.counts[img] == BROKEN then BROKEN else t.counts[img] + n)
    else if n == 0 then None
    else if download(img).None? then Some(BROKEN)
    else Some(n)
  }

  /** One occurrence of `img` accounts for one of the occurrences `Expected` counts. */
  lemma RecordImageExpected(t: Tracker, img: Url, n: nat, download: Downloader, sha256: Hasher)
    requires WellFormed(t)
    ensures Expected(RecordImage(t, img, download, sha256), n, img, download) == Expected(t, n + 1, img, download)
  {
  }

  /** An occurrence of another image leaves what is expected of `img` alone. */
  lemma RecordImageOther(t: Tracker, other: Url, img: Url, n: nat, download: Downloader, sha256: Hasher)
    requires other != img
    ensures Expected(RecordImage(t, other, download, sha256), n, img, download) == Expected(t, n, img, download)
  {
  }

  /** What is expected of `img` after the first of a list of occurrences is
      recorded, from the rest of the list. */
  lemma ExpectedAfterFirst(t: Tracker, imgs: seq<Url>, img: Url, download: Downloader, sha256: Hasher)
    requires WellFormed(t) && imgs != []
    ensures Expected(RecordImage(t, imgs[0], download, sha256), multiset(imgs[1..])[img], img, download)
         == Expected(t, multiset(imgs)[img], img, download)
  {
    var n := multiset(imgs[1..])[img];
    assert imgs == [imgs[0]] + imgs[1..];
    if imgs[0] == img {
      assert multiset(imgs)[img] == n + 1;
      RecordImageExpected(t, img, n, download, sha256);
    } else {
      assert multiset(imgs)[img] == n;
      RecordImageOther(t, imgs[0], img, n, download, sha256);
    }
  }

  /** After recording a sequence of occurrences, an image's entry is its
      earlier count plus the number of its occurrences; an image first seen
      in the sequence is counted from 1, or is BROKEN if its download fails;
      a BROKEN image stays BROKEN. */
  lemma {:induction false} RecordImagesCounts(t: Tracker, imgs: seq<Url>, img: Url, download: Downloader, sha256: Hasher)
    requires WellFormed(t)
    ensures Lookup(RecordImages(t, imgs, download, sha256).counts, img) == Expected(t, multiset(imgs)[img], img, download)
    decreases |imgs|
  {
    if imgs != [] {
      var t' := RecordImage(t, imgs[0], download, sha256);
      RecordImageWellFormed(t, imgs[0], download, sha256);
      RecordImagesCounts(t', imgs[1..], img, download, sha256);
      ExpectedAfterFirst(t, imgs, img, download, sha256);
    }
  }

  /** An image referenced `n > 0` times whose download succeeds ends with
      count exactly `n` and the digest of its bytes. */
  lemma ImageCountedOncePerReference(imgs: seq<Url>, img: Url, download: Downloader, sha256: Hasher)
    requires img in imgs && download(img).Some?
    ensures var r := RecordImages(Empty, imgs, download, sha256);
      img in r.counts && r.counts[img] == multiset(imgs)[img] && img in r.hashes && r.hashes[img] == sha256(download(img).value)
  {
    RecordImagesCounts(Empty, imgs, img, download, sha256);
    var r := RecordImages(Empty, imgs, download, sha256);
    assert WellFormed(Empty) && HashesFaithful(Empty, download, sha256);
    assert img in r.hashes;
  }
}
