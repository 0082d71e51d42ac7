/**
 * `fetchThumbnailFromPage` (src/utils/thumbnailUtils.js): try each CORS
 * proxy in order, read the page's image hint, normalise it into an ordered
 * list of candidate URLs and return the first one that serves an image.
 *
 * The network is a set of oracles: the page fetched through a proxy, the
 * URL parser, and the two probes of `isImageAccessible` (a HEAD request and
 * a one-byte ranged GET).  The parsed HTML is a list of elements.
 */
module ThumbnailFetch {
  import opened Wrappers
  import opened Strings
  import opened UrlNormalize

  const DefaultProxies: seq<string> := [
    "https://api.allorigins.win/raw?url=",
    "https://cors-anywhere.herokuapp.com/",
    "https://thingproxy.freeboard.io/fetch/",
    "https://api.codetabs.com/v1/proxy?quest=",
    "https://proxy.cors.sh/",
    "https://corsproxy.io/?"
  ]

  // ---------------------------------------------------------------------
  // Documents and the image hint
  // ---------------------------------------------------------------------

  /** An HTML element: its tag name and its attributes. */
  datatype Element = Element(tag: string, attrs: map<string, string>)

  /** A parsed page, its elements in document order. */
  type Document = seq<Element>

  /** `tag[attr="value"]` */
  predicate Matches(e: Element, tag: string, attr: string, value: string) {
    e.tag == tag && attr in e.attrs && e.attrs[attr] == value
  }

  /** `doc.querySelector('tag[attr="value"]')`: the first match in document order. */
  function QuerySelector(doc: Document, tag: string, attr: string, value: string): (r: Option<Element>)
    ensures r.Some? ==> exists i :: 0 <= i < |doc| && doc[i] == r.value && Matches(doc[i], tag, attr, value)
                                    && forall j :: 0 <= j < i ==> !Matches(doc[j], tag, attr, value)
    ensures r.None? ==> forall i :: 0 <= i < |doc| ==> !Matches(doc[i], tag, attr, value)
  {
    if doc == [] then None
    else if Matches(doc[0], tag, attr, value) then Some(doc[0])
    else
      var r := QuerySelector(doc[1..], tag, attr, value);
      assert forall i :: 1 <= i < |doc| ==> doc[i] == doc[1..][i - 1];
      r
  }

  /** `el.getAttribute('content') || el.getAttribute('href')`, as a non-empty string or nothing. */
  function HintValue(e: Element): (r: Option<string>)
    ensures r.Some? ==> r.value != []
    ensures r.Some? ==> r.value in e.attrs.Values
  {
    if "content" in e.attrs && e.attrs["content"] != [] then Some(e.attrs["content"])
    else if "href" in e.attrs && e.attrs["href"] != [] then Some(e.attrs["href"])
    else None
  }

  /**
   * The image hint of a page (thumbnailUtils.js lines 144-145): the first
   * `og:image` meta tag, else the first `twitter:image` meta tag, else the
   * first `image_src` link; only the chosen element's value is read.
   */
  function ImageHint(doc: Document): (r: Option<string>)
    ensures r.Some? ==> r.value != []
  {
    var og := QuerySelector(doc, "meta", "property", "og:image");
    var tw := QuerySelector(doc, "meta", "name", "twitter:image");
    var link := QuerySelector(doc, "link", "rel", "image_src");
    if og.Some? then HintValue(og.value)
    else if tw.Some? then HintValue(tw.value)
    else if link.Some? then HintValue(link.value)
    else None
  }

  /** The hint is taken from the highest-priority selector that matches. */
  lemma ImageHintPriority(doc: Document)
    ensures (exists i :: 0 <= i < |doc| && Matches(doc[i], "meta", "property", "og:image"))
            ==> ImageHint(doc) == HintValue(QuerySelector(doc, "meta", "property", "og:image").value)
    ensures (forall i :: 0 <= i < |doc| ==> !Matches(doc[i], "meta", "property", "og:image"))
            && (exists i :: 0 <= i < |doc| && Matches(doc[i], "meta", "name", "twitter:image"))
            ==> ImageHint(doc) == HintValue(QuerySelector(doc, "meta", "name", "twitter:image").value)
    ensures (forall i :: 0 <= i < |doc| ==> !Matches(doc[i], "meta", "property", "og:image"))
            && (forall i :: 0 <= i < |doc| ==> !Matches(doc[i], "meta", "name", "twitter:image"))
            ==> ImageHint(doc) == (if exists i :: 0 <= i < |doc| && Matches(doc[i], "link", "rel", "image_src")
                                   then HintValue(QuerySelector(doc, "link", "rel", "image_src").value)
                                   else None)
    ensures ImageHint(doc).Some? ==>
              exists i :: 0 <= i < |doc| && HintValue(doc[i]) == ImageHint(doc)
                          && (Matches(doc[i], "meta", "property", "og:image")
                              || Matches(doc[i], "meta", "name", "twitter:image")
                              || Matches(doc[i], "link", "rel", "image_src"))
  {
  }

  // ---------------------------------------------------------------------
  // The network
  // ---------------------------------------------------------------------

  /** Result of `fetch(proxy + pageUrl)` and reading its body; `FetchError` when either throws. */
  datatype PageResponse = FetchError | Page(ok: bool, doc: Document)

  /** Result of one probe of an image URL; `contentType` is `""` when the header is missing. */
  datatype Probe = ProbeError | ProbeResponse(ok: bool, contentType: string)

  /** The outside world the resolver talks to. */
  datatype Web = Web(
    fetch: string -> PageResponse,
    parse: UrlParser,
    head: string -> Probe,
    rangedGet: string -> Probe)

  predicate ServesImage(p: Probe) {
    p.ProbeResponse? && p.ok && StartsWith(p.contentType, "image/")
  }

  /**
   * `isImageAccessible` (thumbnailUtils.js lines 107-131): a HEAD request,
   * then a ranged GET for the first byte; either must succeed with an
   * `image/` content type.  The empty string is never accessible.
   */
  function IsImageAccessible(web: Web, candidate: string): (r: bool)
    ensures r <==> candidate != [] && (ServesImage(web.head(candidate)) || ServesImage(web.rangedGet(candidate)))
  {
    if candidate == [] then false
    else
      var h := web.head(candidate);
      if h.ProbeResponse? && h.ok && StartsWith(h.contentType, "image/") then true
      else
        match web.rangedGet(candidate)
        case ProbeError => false
        case ProbeResponse(ok, ct) => if ok then StartsWith(ct, "image/") else false
  }

  // ---------------------------------------------------------------------
  // Candidates
  // ---------------------------------------------------------------------

  /** The candidate after extraction (thumbnailUtils.js lines 156-160). */
  function CandidateFor(decoded: string): string {
    match FirstUrl(decoded)
    case Some(c) => c
    case None => if StartsWith(decoded, "//") then "https:" + decoded else decoded
  }

  function AsSeq(o: Option<string>): seq<string> {
    if o.Some? then [o.value] else []
  }

  /** The site unwraps that apply to the candidate's lower-cased host, in rule order. */
  function SiteUnwraps(web: Web, candidate: string): seq<string> {
    match web.parse(candidate)
    case None => []
    case Some(u) =>
      var host := ToLower(u.host);
      (if EndsWith(host, "dev.to") then AsSeq(UnwrapDevto(web.parse, candidate)) else [])
      + (if EndsWith(host, "medium.com") then AsSeq(UnwrapMedium(web.parse, candidate)) else [])
      + (if SubstackHost(host) then AsSeq(UnwrapSubstack(web.parse, candidate)) else [])
  }

  /** All candidates of one attempt, in the order they are verified. */
  function Candidates(web: Web, decoded: string): (cs: seq<string>)
    ensures |cs| >= 2 && cs[|cs| - 1] == decoded && cs[|cs| - 2] == CandidateFor(decoded)
  {
    SiteUnwraps(web, CandidateFor(decoded)) + [CandidateFor(decoded), decoded]
  }

  /** The first accessible candidate of a list. */
  function FirstAccessible(web: Web, cands: seq<string>): Option<string> {
    if cands == [] then None
    else if IsImageAccessible(web, cands[0]) then Some(cands[0])
    else FirstAccessible(web, cands[1..])
  }

  /**
   * `FirstAccessible` returns a candidate that passed the check and that no
   * earlier candidate passed, or nothing when none passes.
   */
  lemma {:induction false} FirstAccessibleIsFirst(web: Web, cands: seq<string>)
    ensures var r := FirstAccessible(web, cands);
            (r.Some? ==> exists i :: 0 <= i < |cands| && cands[i] == r.value && IsImageAccessible(web, cands[i])
                                     && forall j :: 0 <= j < i ==> !IsImageAccessible(web, cands[j]))
            && (r.None? ==> forall i :: 0 <= i < |cands| ==> !IsImageAccessible(web, cands[i]))
  {
    if cands != [] && !IsImageAccessible(web, cands[0]) {
      FirstAccessibleIsFirst(web, cands[1..]);
      assert forall i :: 1 <= i < |cands| ==> cands[i] == cands[1..][i - 1];
      var r := FirstAccessible(web, cands[1..]);
      if r.Some? {
        var i :| 0 <= i < |cands[1..]| && cands[1..][i] == r.value && IsImageAccessible(web, cands[1..][i])
                 && forall j :: 0 <= j < i ==> !IsImageAccessible(web, cands[1..][j]);
        assert cands[i + 1] == r.value;
      }
    }
  }

  lemma {:induction false} FirstAccessibleAppend(web: Web, a: seq<string>, b: seq<string>)
    ensures FirstAccessible(web, a + b)
            == if FirstAccessible(web, a).Some? then FirstAccessible(web, a) else FirstAccessible(web, b)
  {
    if a != [] {
      FirstAccessibleAppend(web, a[1..], b);
      assert (a + b)[1..] == a[1..] + b;
    } else {
      assert a + b == b;
    }
  }

  /** The site-specific block, lines 163-183 of thumbnailUtils.js. */
  method TrySiteUnwraps(web: Web, candidate: string) returns (r: Option<string>)
    ensures r == FirstAccessible(web, SiteUnwraps(web, candidate))
  {
    match web.parse(candidate) {
      case None =>
      case Some(u) =>
        var host := ToLower(u.host);
        var dev := if EndsWith(host, "dev.to") then AsSeq(UnwrapDevto(web.parse, candidate)) else [];
        var med := if EndsWith(host, "medium.com") then AsSeq(UnwrapMedium(web.parse, candidate)) else [];
        var sub := if SubstackHost(host) then AsSeq(UnwrapSubstack(web.parse, candidate)) else [];
        assert SiteUnwraps(web, candidate) == dev + med + sub;
        FirstAccessibleAppend(web, dev, med);
        FirstAccessibleAppend(web, dev + med, sub);
        if EndsWith(host, "dev.to") {
          var d := UnwrapDevto(web.parse, candidate);
          if d.Some? && d.value != [] && IsImageAccessible(web, d.value) {
            return d;
          }
        }
        if EndsWith(host, "medium.com") {
          var m := UnwrapMedium(web.parse, candidate);
          if m.Some? && m.value != [] && IsImageAccessible(web, m.value) {
            return m;
          }
        }
        if SubstackHost(host) {
          var s := UnwrapSubstack(web.parse, candidate);
          if s.Some? && s.value != [] && IsImageAccessible(web, s.value) {
            return s;
          }
        }
    }
    return None;
  }

  /**
   * Lines 156-189 of thumbnailUtils.js: extract the candidate, try the site
   * unwraps, then the candidate, then the decoded string.
   */
  method TryCandidates(web: Web, decoded: string) returns (r: Option<string>)
    ensures r == FirstAccessible(web, Candidates(web, decoded))
  {
    var extracted := ExtractFirstUrl(decoded);
    var candidate: string;
    if extracted.Some? {
      candidate := extracted.value;
    } else if StartsWith(decoded, "//") {
      candidate := "https:" + decoded;
    } else {
      candidate := decoded;
    }
    assert candidate == CandidateFor(decoded);
    var rest := [candidate, decoded];
    assert Candidates(web, decoded) == SiteUnwraps(web, candidate) + rest;
    FirstAccessibleAppend(web, SiteUnwraps(web, candidate), rest);
    assert rest[1..] == [decoded] && [decoded][1..] == [];
    assert FirstAccessible(web, [decoded]) == if IsImageAccessible(web, decoded) then Some(decoded) else None;
    assert FirstAccessible(web, rest) == if IsImageAccessible(web, candidate) then Some(candidate)
                                         else if IsImageAccessible(web, decoded) then Some(decoded) else None;
    r := TrySiteUnwraps(web, candidate);
    if r.Some? {
      return;
    }
    if IsImageAccessible(web, candidate) {
      return Some(candidate);
    }
    if decoded != [] && IsImageAccessible(web, decoded) {
      return Some(decoded);
    }
    return None;
  }

  // ---------------------------------------------------------------------
  // The proxy loop
  // ---------------------------------------------------------------------

  /** The string the candidates are built from: decoded, then proxy prefixes removed. */
  function Normalized(raw: string, proxies: seq<string>): string {
    StripPrefixes(IterDecode(raw, MaxDecodePasses), proxies)
  }

  /** One attempt through `proxy`: `None` moves on to the next proxy. */
  function Attempt(web: Web, pageUrl: string, proxy: string, proxies: seq<string>): Option<string> {
    match web.fetch(proxy + pageUrl)
    case FetchError => None
    case Page(ok, doc) =>
      if !ok then None
      else
        match ImageHint(doc)
        case None => None
        case Some(raw) => FirstAccessible(web, Candidates(web, Normalized(raw, proxies)))
  }

  /** The attempts through `rest`, in order, until one succeeds. */
  function ResolveFrom(web: Web, pageUrl: string, rest: seq<string>, proxies: seq<string>): Option<string>
    decreases |rest|
  {
    if rest == [] then None
    else
      match Attempt(web, pageUrl, rest[0], proxies)
      case Some(u) => Some(u)
      case None => ResolveFrom(web, pageUrl, rest[1..], proxies)
  }

  /** What `fetchThumbnailFromPage(pageUrl, proxies)` resolves to; `None` is `null`. */
  function Resolve(web: Web, pageUrl: string, proxies: seq<string>): Option<string> {
    ResolveFrom(web, pageUrl, proxies, proxies)
  }

  /** The proxy list in use: the argument, or `DEFAULT_PROXIES` when it is omitted. */
  function ProxyList(proxies: Option<seq<string>>): (r: seq<string>)
    ensures proxies.None? ==> r == DefaultProxies
    ensures proxies.Some? ==> r == proxies.value
  {
    if proxies.Some? then proxies.value else DefaultProxies
  }

  /**
   * `fetchThumbnailFromPage` (thumbnailUtils.js lines 134-196); `None` for
   * `proxies` is the omitted argument.
   */
  method FetchThumbnailFromPage(web: Web, pageUrl: string, proxyArg: Option<seq<string>>) returns (r: Option<string>)
    ensures r == Resolve(web, pageUrl, ProxyList(proxyArg))
  {
    r := TryProxies(web, pageUrl, ProxyList(proxyArg));
  }

  /** The proxy loop of `fetchThumbnailFromPage` (lines 136-194). */
  method TryProxies(web: Web, pageUrl: string, proxies: seq<string>) returns (r: Option<string>)
    ensures r == Resolve(web, pageUrl, proxies)
  {
    var k := 0;
    while k < |proxies|
      invariant 0 <= k <= |proxies|
      invariant ResolveFrom(web, pageUrl, proxies[k..], proxies) == Resolve(web, pageUrl, proxies)
    {
      assert proxies[k..][0] == proxies[k] && proxies[k..][1..] == proxies[k + 1..];
      var resp := web.fetch(proxies[k] + pageUrl);
      if resp.FetchError? || !resp.ok {
        k := k + 1;
        continue;
      }
      var raw := ImageHint(resp.doc);
      if raw.None? {
        k := k + 1;
        continue;
      }
      var decoded := IterativeDecode(raw.value);
      decoded := StripProxyPrefixes(decoded, proxies);
      var found := TryCandidates(web, decoded);
      if found.Some? {
        return found;
      }
      k := k + 1;
    }
    return None;
  }

  // ---------------------------------------------------------------------
  // Properties
  // ---------------------------------------------------------------------

  /** Every non-null result passed the accessibility check. */
  lemma {:induction false} ResolveFromAccessible(web: Web, pageUrl: string, rest: seq<string>, proxies: seq<string>)
    requires ResolveFrom(web, pageUrl, rest, proxies).Some?
    ensures IsImageAccessible(web, ResolveFrom(web, pageUrl, rest, proxies).value)
    decreases |rest|
  {
    var a := Attempt(web, pageUrl, rest[0], proxies);
    if a.None? {
      ResolveFromAccessible(web, pageUrl, rest[1..], proxies);
    } else {
      var resp := web.fetch(rest[0] + pageUrl);
      var raw := ImageHint(resp.doc).value;
      FirstAccessibleIsFirst(web, Candidates(web, Normalized(raw, proxies)));
    }
  }

  lemma ResolveAccessible(web: Web, pageUrl: string, proxies: seq<string>)
    requires Resolve(web, pageUrl, proxies).Some?
    ensures Resolve(web, pageUrl, proxies).value != []
    ensures IsImageAccessible(web, Resolve(web, pageUrl, proxies).value)
  {
    ResolveFromAccessible(web, pageUrl, proxies, proxies);
  }

  /**
   * Proxies are tried strictly in list order: the result is `null` exactly
   * when every attempt fails, and otherwise it is the result of the first
   * attempt that succeeds.
   */
  lemma {:induction false} ResolveFromFirstSuccess(web: Web, pageUrl: string, rest: seq<string>, proxies: seq<string>)
    ensures ResolveFrom(web, pageUrl, rest, proxies).None?
            <==> forall k :: 0 <= k < |rest| ==> Attempt(web, pageUrl, rest[k], proxies).None?
    ensures ResolveFrom(web, pageUrl, rest, proxies).Some? ==>
              exists k :: 0 <= k < |rest|
                          && Attempt(web, pageUrl, rest[k], proxies) == ResolveFrom(web, pageUrl, rest, proxies)
                          && forall j :: 0 <= j < k ==> Attempt(web, pageUrl, rest[j], proxies).None?
    decreases |rest|
  {
    if rest != [] {
      ResolveFromFirstSuccess(web, pageUrl, rest[1..], proxies);
      assert forall k :: 1 <= k < |rest| ==> rest[k] == rest[1..][k - 1];
      if Attempt(web, pageUrl, rest[0], proxies).None? && ResolveFrom(web, pageUrl, rest, proxies).Some? {
        var k :| 0 <= k < |rest[1..]|
                 && Attempt(web, pageUrl, rest[1..][k], proxies) == ResolveFrom(web, pageUrl, rest[1..], proxies)
                 && forall j :: 0 <= j < k ==> Attempt(web, pageUrl, rest[1..][j], proxies).None?;
        assert Attempt(web, pageUrl, rest[k + 1], proxies) == ResolveFrom(web, pageUrl, rest, proxies);
      }
    }
  }

  /** When every proxy fails to deliver a page, the result is `null`; nothing is thrown. */
  lemma ProxyExhaustion(web: Web, pageUrl: string, proxies: seq<string>)
    requires forall k :: 0 <= k < |proxies| ==>
               web.fetch(proxies[k] + pageUrl).FetchError? || !web.fetch(proxies[k] + pageUrl).ok
    ensures Resolve(web, pageUrl, proxies).None?
  {
    ResolveFromFirstSuccess(web, pageUrl, proxies, proxies);
  }

  /**
   * Within one attempt the result is the first accessible candidate: site
   * unwraps first, then the extracted candidate, then the decoded string.
   */
  lemma AttemptOrder(web: Web, pageUrl: string, proxy: string, proxies: seq<string>, raw: string)
    requires web.fetch(proxy + pageUrl).Page? && web.fetch(proxy + pageUrl).ok
    requires ImageHint(web.fetch(proxy + pageUrl).doc) == Some(raw)
    ensures var cs := Candidates(web, Normalized(raw, proxies));
            var r := Attempt(web, pageUrl, proxy, proxies);
            (r.Some? ==> exists i :: 0 <= i < |cs| && cs[i] == r.value && IsImageAccessible(web, cs[i])
                                     && forall j :: 0 <= j < i ==> !IsImageAccessible(web, cs[j]))
            && (r.None? ==> forall i :: 0 <= i < |cs| ==> !IsImageAccessible(web, cs[i]))
  {
    FirstAccessibleIsFirst(web, Candidates(web, Normalized(raw, proxies)));
  }

  /**
   * The end-to-end scenario: the first proxy fails with a network error, the
   * second returns a page whose `og:image` is a plain image URL that the
   * verifier accepts; that URL is the result.
   */
  lemma SecondProxyScenario(web: Web, pageUrl: string, p1: string, p2: string, image: string, host: string, path: string)
    requires web.fetch(p1 + pageUrl) == FetchError
    requires web.fetch(p2 + pageUrl) == Page(true, [Element("meta", map["property" := "og:image", "content" := image])])
    requires StartsWith(image, "https://") && '%' !in image
    requires forall c :: c in image ==> c !in Separators
    requires !StartsWith(image, p1) && !StartsWith(image, p2)
    requires web.parse(image) == Some(UrlParts(host, path))
    requires var h := ToLower(host); !EndsWith(h, "dev.to") && !EndsWith(h, "medium.com") && !SubstackHost(h)
    requires ServesImage(web.head(image))
    ensures Resolve(web, pageUrl, [p1, p2]) == Some(image)
  {
    var proxies := [p1, p2];
    var doc := [Element("meta", map["property" := "og:image", "content" := image])];
    assert Matches(doc[0], "meta", "property", "og:image");
    assert ImageHint(doc) == Some(image);
    PlainNeedsNoDecode(image);
    StripPrefixesNoMatch(image, proxies);
    assert Normalized(image, proxies) == image;
    FirstUrlWhole(image);
    assert CandidateFor(image) == image;
    assert SiteUnwraps(web, image) == [];
    assert Candidates(web, image) == [image, image];
    assert Attempt(web, pageUrl, p2, proxies) == Some(image);
    assert Attempt(web, pageUrl, p1, proxies) == None;
    assert proxies[1..] == [p2];
    assert ResolveFrom(web, pageUrl, [p2], proxies) == Some(image);
  }
}
