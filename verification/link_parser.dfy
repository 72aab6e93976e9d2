/** Link extraction (`LinkParser.handle_starttag` fed through `HTMLParser.feed`).
    Tokenising markup is the tokenizer's business: a page arrives here as the
    sequence of its start tags. Resolving a reference against the page URL is
    `urljoin`, passed in as a `Resolver`; `None` stands for the `ValueError` it
    raises on a malformed reference, which aborts the feed. */
module LinkParser {
  import opened Wrappers
  import opened Urls
  import opened Seqs

  /** A start tag as the tokenizer reports it. A valueless attribute carries
      the empty string, which `urljoin` treats exactly like a missing value
      (both resolve to the base URL). */
  datatype Tag = Tag(name: string, attrs: seq<(string, string)>)

  type Html = seq<Tag>

  type Resolver = (Url, string) -> Option<Url>

  const HREF: string := "href"
  const SRC: string := "src"

  /** Python's `str.lower` on the characters that can matter for the tag
      names compared here. */
  function LowerChar(c: char): char {
    if 'A' <= c <= 'Z' then (c as int + 32) as char else c
  }

  function Lower(s: string): string {
    seq(|s|, i requires 0 <= i < |s| => LowerChar(s[i]))
  }

  /** What a start tag contributes: `a` tags give page links through `href`,
      `img` tags give image sources through `src`, whatever the case of the
      tag name; every other tag gives nothing. */
  datatype Role = PageLink | ImageSource | Ignored

  function RoleOf(tag: Tag): Role {
    var name := Lower(tag.name);
    if name == "a" then PageLink
    else if name == "img" then ImageSource
    else Ignored
  }

  function WantedAttribute(role: Role): string {
    match role
    case PageLink => HREF
    case ImageSource => SRC
    case Ignored => ""
  }

  /** The values of the attributes called `key`, in document order (see
      `ValuesInOrder`). */
  function Values(attrs: seq<(string, string)>, key: string): (vs: seq<string>)
    ensures |vs| <= |attrs|
    ensures forall v :: v in vs <==> (key, v) in attrs
    ensures forall v :: multiset(vs)[v] == multiset(attrs)[(key, v)]
    decreases |attrs|
  {
    if attrs == [] then []
    else
      var rest := Values(attrs[1..], key);
      assert attrs == [attrs[0]] + attrs[1..];
      if attrs[0].0 == key then [attrs[0].1] + rest else rest
  }

  /** Order is kept: one attribute contributes its value or nothing, and the
      values of a concatenation are the values of each part, one after the
      other. Together these fix `Values` on every input. */
  lemma {:induction false} ValuesInOrder(a: seq<(string, string)>, b: seq<(string, string)>, key: string)
    ensures forall x :: Values([x], key) == (if x.0 == key then [x.1] else [])
    ensures Values(a + b, key) == Values(a, key) + Values(b, key)
    decreases |a|
  {
    forall x
      ensures Values([x], key) == (if x.0 == key then [x.1] else [])
    {
      assert [x][0] == x && [x][1..] == [];
    }
    if a == [] {
      assert a + b == b;
    } else {
      assert (a + b)[0] == a[0] && (a + b)[1..] == a[1..] + b;
      ValuesInOrder(a[1..], b, key);
      var head: seq<string> := if a[0].0 == key then [a[0].1] else [];
      ConcatAssoc(head, Values(a[1..], key), Values(b, key));
    }
  }

  /** The references a tag asks to resolve, in attribute order. */
  function Refs(tag: Tag): seq<string> {
    if RoleOf(tag) == Ignored then [] else Values(tag.attrs, WantedAttribute(RoleOf(tag)))
  }

  /** Resolves references one after another against `base`, stopping at the
      first one `urljoin` rejects; the flag says whether all of them resolved. */
  function ResolveAll(base: Url, refs: seq<string>, join: Resolver): (r: (seq<Url>, bool))
    ensures |r.0| <= |refs|
    ensures forall i :: 0 <= i < |r.0| ==> join(base, refs[i]) == Some(r.0[i])
    ensures r.1 ==> |r.0| == |refs|
    ensures !r.1 ==> |r.0| < |refs| && join(base, refs[|r.0|]).None?
    ensures r.1 <==> forall i :: 0 <= i < |refs| ==> join(base, refs[i]).Some?
    decreases |refs|
  {
    if refs == [] then ([], true)
    else
      match join(base, refs[0])
      case None => ([], false)
      case Some(u) =>
        var rest := ResolveAll(base, refs[1..], join);
        ([u] + rest.0, rest.1)
  }

  /** `parser.links` and `parser.image_sources`. */
  datatype Parsed = Parsed(links: seq<Url>, images: seq<Url>)

  function Append(p: Parsed, role: Role, urls: seq<Url>): Parsed {
    match role
    case PageLink => p.(links := p.links + urls)
    case ImageSource => p.(images := p.images + urls)
    case Ignored => p
  }

  /** The list a role appends to (`links` for `a`, `image_sources` otherwise). */
  function Selected(p: Parsed, role: Role): seq<Url> {
    if role == PageLink then p.links else p.images
  }

  /** `handle_starttag`: the lists after the tag, and whether it completed
      (false when `urljoin` raised part-way, after the earlier appends). */
  function HandleStartTag(p: Parsed, tag: Tag, base: Url, join: Resolver): (r: (Parsed, bool))
    ensures p.links <= r.0.links && p.images <= r.0.images
    ensures RoleOf(tag) != PageLink ==> r.0.links == p.links
    ensures RoleOf(tag) != ImageSource ==> r.0.images == p.images
    ensures r.1 <==> forall v :: v in Refs(tag) ==> join(base, v).Some?
    ensures Selected(r.0, RoleOf(tag)) == Selected(p, RoleOf(tag)) + ResolveAll(base, Refs(tag), join).0
  {
    var resolved := ResolveAll(base, Refs(tag), join);
    (Append(p, RoleOf(tag), resolved.0), resolved.1)
  }

  /** Feeds the tags in order; an exception ends the feed with what had been
      collected so far. */
  function FeedFrom(p: Parsed, html: Html, base: Url, join: Resolver): (r: Parsed)
    ensures p.links <= r.links && p.images <= r.images
    decreases |html|
  {
    if html == [] then p
    else
      var step := HandleStartTag(p, html[0], base, join);
      if step.1 then FeedFrom(step.0, html[1..], base, join) else step.0
  }

  lemma FeedFromUnfold(p: Parsed, html: Html, base: Url, join: Resolver)
    requires html != []
    ensures HandleStartTag(p, html[0], base, join).1 ==>
      FeedFrom(p, html, base, join) == FeedFrom(HandleStartTag(p, html[0], base, join).0, html[1..], base, join)
    ensures !HandleStartTag(p, html[0], base, join).1 ==>
      FeedFrom(p, html, base, join) == HandleStartTag(p, html[0], base, join).0
  {
  }

  /** `parser.feed(html)` inside the `try … except Exception: pass` of
      `process_link`, from empty lists. */
  function Feed(html: Html, base: Url, join: Resolver): Parsed {
    FeedFrom(Parsed([], []), html, base, join)
  }

  /** `u` is what one of the tag's references resolves to, and the tag has
      the given role. */
  ghost predicate TagRefersTo(tag: Tag, base: Url, join: Resolver, role: Role, u: Url) {
    RoleOf(tag) == role && exists v :: v in Refs(tag) && join(base, v) == Some(u)
  }

  /** `u` is what some tag of the page with the given role refers to, once
      resolved against `base`. */
  ghost predicate RefersTo(html: Html, base: Url, join: Resolver, role: Role, u: Url) {
    exists i :: 0 <= i < |html| && TagRefersTo(html[i], base, join, role, u)
  }

  /** Every reference on the page resolves, so feeding never aborts. */
  ghost predicate Tolerated(html: Html, base: Url, join: Resolver) {
    forall i, v :: 0 <= i < |html| && v in Refs(html[i]) ==> join(base, v).Some?
  }

  lemma RefersToAt(html: Html, base: Url, join: Resolver, role: Role, u: Url, i: nat, v: string)
    requires i < |html| && RoleOf(html[i]) == role && v in Refs(html[i]) && join(base, v) == Some(u)
    ensures RefersTo(html, base, join, role, u)
  {
    assert TagRefersTo(html[i], base, join, role, u);
  }

  /** A URL the first tag added refers to that tag. */
  lemma SoundHead(p: Parsed, html: Html, base: Url, join: Resolver, role: Role, u: Url)
    requires html != [] && role != Ignored
    requires u in Selected(HandleStartTag(p, html[0], base, join).0, role) && u !in Selected(p, role)
    ensures RefersTo(html, base, join, role, u)
  {
    var resolved := ResolveAll(base, Refs(html[0]), join);
    assert RoleOf(html[0]) == role;
    var k :| 0 <= k < |resolved.0| && resolved.0[k] == u;
    RefersToAt(html, base, join, role, u, 0, Refs(html[0])[k]);
  }

  /** A URL a later tag refers to is referred to by the page. */
  lemma SoundTail(html: Html, base: Url, join: Resolver, role: Role, u: Url)
    requires html != [] && RefersTo(html[1..], base, join, role, u)
    ensures RefersTo(html, base, join, role, u)
  {
    var i :| 0 <= i < |html[1..]| && TagRefersTo(html[1..][i], base, join, role, u);
    TailIndex(html, i);
    assert TagRefersTo(html[i + 1], base, join, role, u);
  }

  lemma {:induction false} FeedFromSound(p: Parsed, html: Html, base: Url, join: Resolver, role: Role, u: Url)
    requires role != Ignored
    requires u in Selected(FeedFrom(p, html, base, join), role)
    ensures u in Selected(p, role) || RefersTo(html, base, join, role, u)
    decreases |html|
  {
    if html != [] && u !in Selected(p, role) {
      var step := HandleStartTag(p, html[0], base, join);
      FeedFromUnfold(p, html, base, join);
      if u !in Selected(step.0, role) {
        assert step.1;
        FeedFromSound(step.0, html[1..], base, join, role, u);
        SoundTail(html, base, join, role, u);
      } else {
        SoundHead(p, html, base, join, role, u);
      }
    }
  }

  /** Every page link and image source the feed yields is the resolution of
      an `href` of an `a` tag, resp. a `src` of an `img` tag, of the page. */
  lemma FeedSound(html: Html, base: Url, join: Resolver)
    ensures forall u :: u in Feed(html, base, join).links ==> RefersTo(html, base, join, PageLink, u)
    ensures forall u :: u in Feed(html, base, join).images ==> RefersTo(html, base, join, ImageSource, u)
  {
    forall u | u in Feed(html, base, join).links
      ensures RefersTo(html, base, join, PageLink, u)
    {
      FeedFromSound(Parsed([], []), html, base, join, PageLink, u);
    }
    forall u | u in Feed(html, base, join).images
      ensures RefersTo(html, base, join, ImageSource, u)
    {
      FeedFromSound(Parsed([], []), html, base, join, ImageSource, u);
    }
  }

  lemma ToleratedTail(html: Html, base: Url, join: Resolver)
    requires html != [] && Tolerated(html, base, join)
    ensures Tolerated(html[1..], base, join)
    ensures forall k :: 0 <= k < |Refs(html[0])| ==> join(base, Refs(html[0])[k]).Some?
  {
    forall i, w | 0 <= i < |html[1..]| && w in Refs(html[1..][i])
      ensures join(base, w).Some?
    {
      assert html[1..][i] == html[i + 1];
    }
  }

  /** The references the page's tags with the given role ask to resolve, in
      document order: every `href` of every `a` tag, or every `src` of every
      `img` tag, repeats included. */
  function RoleRefs(html: Html, role: Role): seq<string>
    decreases |html|
  {
    if html == [] then []
    else (if RoleOf(html[0]) == role then Refs(html[0]) else []) + RoleRefs(html[1..], role)
  }

  lemma {:induction false} RoleRefsContains(html: Html, role: Role, i: nat, v: string)
    requires i < |html| && RoleOf(html[i]) == role && v in Refs(html[i])
    ensures v in RoleRefs(html, role)
    decreases |html|
  {
    if i > 0 {
      assert html[1..][i - 1] == html[i];
      RoleRefsContains(html[1..], role, i - 1, v);
    }
  }

  /** Every reference resolved against `base`, when none is malformed. */
  function JoinEach(base: Url, refs: seq<string>, join: Resolver): (us: seq<Url>)
    requires forall i :: 0 <= i < |refs| ==> join(base, refs[i]).Some?
    ensures |us| == |refs|
    ensures forall i :: 0 <= i < |refs| ==> join(base, refs[i]) == Some(us[i])
  {
    seq(|refs|, i requires 0 <= i < |refs| => join(base, refs[i]).value)
  }

  /** A resolution that completed is the resolution of each reference. */
  lemma ResolvedIsJoinEach(base: Url, refs: seq<string>, join: Resolver)
    requires ResolveAll(base, refs, join).1
    ensures forall i :: 0 <= i < |refs| ==> join(base, refs[i]).Some?
    ensures ResolveAll(base, refs, join).0 == JoinEach(base, refs, join)
  {
  }

  lemma JoinEachConcat(base: Url, a: seq<string>, b: seq<string>, join: Resolver)
    requires forall i :: 0 <= i < |a| ==> join(base, a[i]).Some?
    requires forall i :: 0 <= i < |b| ==> join(base, b[i]).Some?
    ensures forall i :: 0 <= i < |a + b| ==> join(base, (a + b)[i]).Some?
    ensures JoinEach(base, a + b, join) == JoinEach(base, a, join) + JoinEach(base, b, join)
  {
    forall i | 0 <= i < |a + b|
      ensures join(base, (a + b)[i]).Some?
    {
      if i >= |a| {
        assert (a + b)[i] == b[i - |a|];
      }
    }
  }

  lemma {:induction false} FeedFromExact(p: Parsed, html: Html, base: Url, join: Resolver, role: Role)
    requires role != Ignored
    requires Tolerated(html, base, join)
    ensures forall i :: 0 <= i < |RoleRefs(html, role)| ==> join(base, RoleRefs(html, role)[i]).Some?
    ensures Selected(FeedFrom(p, html, base, join), role) == Selected(p, role) + JoinEach(base, RoleRefs(html, role), join)
    decreases |html|
  {
    if html == [] {
      assert JoinEach(base, RoleRefs(html, role), join) == [];
    } else {
      var step := HandleStartTag(p, html[0], base, join);
      var head := if RoleOf(html[0]) == role then Refs(html[0]) else [];
      var tail := RoleRefs(html[1..], role);
      ToleratedTail(html, base, join);
      assert step.1;
      FeedFromUnfold(p, html, base, join);
      ResolvedIsJoinEach(base, Refs(html[0]), join);
      assert Selected(step.0, role) == Selected(p, role) + JoinEach(base, head, join);
      FeedFromExact(step.0, html[1..], base, join, role);
      JoinEachConcat(base, head, tail, join);
      assert RoleRefs(html, role) == head + tail;
      var x, y, z := Selected(p, role), JoinEach(base, head, join), JoinEach(base, tail, join);
      ConcatAssoc(x, y, z);
    }
  }

  lemma FedOnce(html: Html, base: Url, join: Resolver, role: Role, u: Url)
    requires role != Ignored && Tolerated(html, base, join) && RefersTo(html, base, join, role, u)
    requires forall i :: 0 <= i < |RoleRefs(html, role)| ==> join(base, RoleRefs(html, role)[i]).Some?
    ensures u in JoinEach(base, RoleRefs(html, role), join)
  {
    var i :| 0 <= i < |html| && TagRefersTo(html[i], base, join, role, u);
    var v :| v in Refs(html[i]) && join(base, v) == Some(u);
    RoleRefsContains(html, role, i, v);
    var k :| 0 <= k < |RoleRefs(html, role)| && RoleRefs(html, role)[k] == v;
    assert JoinEach(base, RoleRefs(html, role), join)[k] == u;
  }

  /** When no reference on the page is malformed, the feed yields every
      resolved `href` of an `a` tag and every resolved `src` of an `img` tag,
      once per occurrence and in document order. */
  lemma FeedComplete(html: Html, base: Url, join: Resolver)
    requires Tolerated(html, base, join)
    ensures forall u :: RefersTo(html, base, join, PageLink, u) ==> u in Feed(html, base, join).links
    ensures forall u :: RefersTo(html, base, join, ImageSource, u) ==> u in Feed(html, base, join).images
    ensures |Feed(html, base, join).links| == |RoleRefs(html, PageLink)|
    ensures forall i :: 0 <= i < |RoleRefs(html, PageLink)| ==>
      join(base, RoleRefs(html, PageLink)[i]) == Some(Feed(html, base, join).links[i])
    ensures |Feed(html, base, join).images| == |RoleRefs(html, ImageSource)|
    ensures forall i :: 0 <= i < |RoleRefs(html, ImageSource)| ==>
      join(base, RoleRefs(html, ImageSource)[i]) == Some(Feed(html, base, join).images[i])
  {
    FeedFromExact(Parsed([], []), html, base, join, PageLink);
    FeedFromExact(Parsed([], []), html, base, join, ImageSource);
    assert Feed(html, base, join).links == JoinEach(base, RoleRefs(html, PageLink), join);
    assert Feed(html, base, join).images == JoinEach(base, RoleRefs(html, ImageSource), join);
    forall u | RefersTo(html, base, join, PageLink, u)
      ensures u in Feed(html, base, join).links
    {
      FedOnce(html, base, join, PageLink, u);
    }
    forall u | RefersTo(html, base, join, ImageSource, u)
      ensures u in Feed(html, base, join).images
    {
      FedOnce(html, base, join, ImageSource, u);
    }
  }

  lemma {:induction false} FeedFromPrefix(p: Parsed, html: Html, k: nat, base: Url, join: Resolver)
    requires k <= |html|
    ensures FeedFrom(p, html[..k], base, join).links <= FeedFrom(p, html, base, join).links
    ensures FeedFrom(p, html[..k], base, join).images <= FeedFrom(p, html, base, join).images
    decreases |html|
  {
    if k > 0 {
      var step := HandleStartTag(p, html[0], base, join);
      assert html[..k][0] == html[0];
      assert html[..k][1..] == html[1..][..k - 1];
      FeedFromUnfold(p, html, base, join);
      FeedFromUnfold(p, html[..k], base, join);
      if step.1 {
        FeedFromPrefix(step.0, html[1..], k - 1, base, join);
      }
    }
  }

  /** Markup-error tolerance: what a feed cut short yields is a prefix of what
      the whole page yields, so an abort only loses the references after it. */
  lemma FeedPrefix(html: Html, k: nat, base: Url, join: Resolver)
    requires k <= |html|
    ensures Feed(html[..k], base, join).links <= Feed(html, base, join).links
    ensures Feed(html[..k], base, join).images <= Feed(html, base, join).images
  {
    FeedFromPrefix(Parsed([], []), html, k, base, join);
  }

  /** Tag names are compared case-insensitively: `A` and `IMG` select the same
      attributes as `a` and `img`. */
  lemma TagNameCaseInsensitive(name: string, attrs: seq<(string, string)>)
    ensures RoleOf(Tag(name, attrs)) == RoleOf(Tag(Lower(name), attrs))
    ensures RoleOf(Tag("A", attrs)) == PageLink
    ensures RoleOf(Tag("IMG", attrs)) == ImageSource
    ensures RoleOf(Tag("Img", attrs)) == ImageSource
  {
    assert Lower(Lower(name)) == Lower(name);
    assert Lower("A") == "a";
    assert Lower("IMG") == "img";
    assert Lower("Img") == "img";
  }
}
