/**
 * URL normalisation in the thumbnail pipeline (src/utils/thumbnailUtils.js):
 * bounded iterative percent-decoding, proxy-prefix stripping, the regex-free
 * scan for the first absolute URL, and the per-CDN unwrap rules.
 *
 * `new URL(...)` is an oracle `parse` returning the host name and path, or
 * `None` where the browser would throw.
 */
module UrlNormalize {
  import opened Wrappers
  import opened Strings
  import opened PercentDecoding

  // ---------------------------------------------------------------------
  // Iterative decoding
  // ---------------------------------------------------------------------

  /** The most passes `iterativeDecode` makes. */
  const MaxDecodePasses: nat := 3

  /** A pass is attempted only while an encoded `:` or `/` remains. */
  predicate NeedsDecode(s: string) {
    Contains(s, "%3A") || Contains(s, "%2F") || Contains(s, "%3A%2F")
  }

  /** Reference meaning of `iterativeDecode(s)` with `passes` passes left. */
  function IterDecode(s: string, passes: nat): string
    decreases passes
  {
    if passes == 0 || !NeedsDecode(s) then s
    else
      match Decode(s)
      case None => s
      case Some(d) => if d == s then s else IterDecode(d, passes - 1)
  }

  /** `k` successive `decodeURIComponent` calls; `None` if one throws. */
  function DecodeTimes(s: string, k: nat): Option<string>
    decreases k
  {
    if k == 0 then Some(s)
    else
      match Decode(s)
      case None => None
      case Some(d) => DecodeTimes(d, k - 1)
  }

  /** A value on which `iterativeDecode` stops before its pass budget. */
  predicate Settled(s: string) {
    !NeedsDecode(s) || Decode(s).None? || Decode(s) == Some(s)
  }

  /**
   * The result of iterative decoding is the input decoded `k <= passes`
   * times, and when fewer passes than allowed were made the result is
   * settled: no encoded separator left, a further decode would throw, or a
   * further decode changes nothing.
   */
  lemma {:induction false} IterDecodeBounded(s: string, passes: nat)
    ensures exists k :: 0 <= k <= passes && DecodeTimes(s, k) == Some(IterDecode(s, passes))
                        && (k < passes ==> Settled(IterDecode(s, passes)))
    decreases passes
  {
    if passes == 0 || !NeedsDecode(s) {
      assert DecodeTimes(s, 0) == Some(s);
    } else {
      match Decode(s)
      case None =>
        assert DecodeTimes(s, 0) == Some(s);
      case Some(d) =>
        if d == s {
          assert DecodeTimes(s, 0) == Some(s);
        } else {
          IterDecodeBounded(d, passes - 1);
          var k :| 0 <= k <= passes - 1 && DecodeTimes(d, k) == Some(IterDecode(d, passes - 1))
                   && (k < passes - 1 ==> Settled(IterDecode(d, passes - 1)));
          assert DecodeTimes(s, k + 1) == DecodeTimes(d, k);
        }
    }
  }

  /** Without any `%`, nothing needs decoding. */
  lemma PlainNeedsNoDecode(s: string)
    requires '%' !in s
    ensures !NeedsDecode(s)
  {
    ContainsNeedsChar(s, "%3A", '%');
    ContainsNeedsChar(s, "%2F", '%');
    ContainsNeedsChar(s, "%3A%2F", '%');
  }

  /** A settled input comes back unchanged, whatever the pass budget. */
  lemma SettledIsFixed(s: string, passes: nat)
    requires Settled(s)
    ensures IterDecode(s, passes) == s
  {
  }

  /** `iterativeDecode` (thumbnailUtils.js lines 11-27). */
  method IterativeDecode(s: string) returns (decoded: string)
    ensures decoded == IterDecode(s, MaxDecodePasses)
    ensures !NeedsDecode(s) ==> decoded == s
  {
    decoded := s;
    var i := 0;
    while i < 3
      invariant 0 <= i <= 3
      invariant IterDecode(decoded, 3 - i) == IterDecode(s, MaxDecodePasses)
    {
      if NeedsDecode(decoded) {
        var prev := decoded;
        var d := Decode(decoded);
        if d.None? {
          break;
        }
        decoded := d.value;
        if decoded == prev {
          break;
        }
      } else {
        break;
      }
      i := i + 1;
    }
  }

  // ---------------------------------------------------------------------
  // First absolute URL
  // ---------------------------------------------------------------------

  /** Schemes searched, in this order. */
  const Schemes: seq<string> := ["https://", "http://"]

  /** Characters that end a URL token. */
  const Separators: seq<char> := ['"', '\'', ' ', ')', ',', '\n']

  lemma OccursAtChar(s: string, c: char, i: int)
    ensures OccursAt(s, [c], i) <==> 0 <= i < |s| && s[i] == c
  {
    if 0 <= i < |s| {
      assert s[i..i + 1] == [s[i]];
    }
  }

  /**
   * The token end after folding `min` over the separators in `seps`, as the
   * inner loop of `extractFirstUrl` computes it: the first separator at or
   * after `idx`, or the end of the string.
   */
  function TokenEnd(s: string, idx: nat, seps: seq<char>): (r: nat)
    requires idx <= |s|
    ensures idx <= r <= |s|
    ensures forall j :: idx <= j < r ==> s[j] !in seps
    ensures r < |s| ==> s[r] in seps
    decreases |seps|
  {
    if seps == [] then |s|
    else
      var e := TokenEnd(s, idx, seps[..|seps| - 1]);
      var c := seps[|seps| - 1];
      var si := IndexOf(s, [c], idx);
      OccursAtChar(s, c, si);
      forall j | idx <= j < si
        ensures s[j] != c
      {
        OccursAtChar(s, c, j);
      }
      forall j | idx <= j < |s| && si == -1
        ensures s[j] != c
      {
        OccursAtChar(s, c, j);
      }
      if si != -1 && si < e then si else e
  }

  /** The scheme loop of `extractFirstUrl`, over the schemes left to try. */
  function ScanSchemes(s: string, schemes: seq<string>): Option<string>
    decreases |schemes|
  {
    if schemes == [] then None
    else
      var idx := IndexOf(s, schemes[0], 0);
      if idx != -1 then Some(s[idx..TokenEnd(s, idx, Separators)])
      else ScanSchemes(s, schemes[1..])
  }

  /** Reference meaning of `extractFirstUrl(s)`. */
  function FirstUrl(s: string): Option<string> {
    if s == [] then None else ScanSchemes(s, Schemes)
  }

  /** The separator loop of `extractFirstUrl` (thumbnailUtils.js lines 36-41). */
  method ScanTokenEnd(s: string, idx: nat) returns (endIdx: nat)
    requires idx <= |s|
    ensures endIdx == TokenEnd(s, idx, Separators)
  {
    endIdx := |s|;
    var m := 0;
    while m < |Separators|
      invariant 0 <= m <= |Separators|
      invariant endIdx == TokenEnd(s, idx, Separators[..m])
    {
      var si := IndexOf(s, [Separators[m]], idx);
      if si != -1 && si < endIdx {
        endIdx := si;
      }
      assert Separators[..m + 1][..m] == Separators[..m];
      m := m + 1;
    }
    assert Separators[..m] == Separators;
  }

  /** `extractFirstUrl` (thumbnailUtils.js lines 30-46). */
  method ExtractFirstUrl(s: string) returns (r: Option<string>)
    ensures r == FirstUrl(s)
  {
    if s == [] {
      return None;
    }
    var k := 0;
    while k < |Schemes|
      invariant 0 <= k <= |Schemes|
      invariant ScanSchemes(s, Schemes[k..]) == FirstUrl(s)
    {
      var scheme := Schemes[k];
      var idx := IndexOf(s, scheme, 0);
      if idx != -1 {
        var endIdx := ScanTokenEnd(s, idx);
        return Some(s[idx..endIdx]);
      }
      k := k + 1;
    }
    return None;
  }

  /** None of the scheme characters is a separator. */
  lemma SchemeHasNoSeparator(s: string, idx: nat, scheme: string)
    requires scheme in Schemes
    requires OccursAt(s, scheme, idx)
    ensures idx + |scheme| <= TokenEnd(s, idx, Separators)
  {
    assert forall k :: idx <= k < idx + |scheme| ==> s[k] == scheme[k - idx] && s[k] !in Separators;
  }

  /** `extractFirstUrl` finds nothing exactly for empty input or input without a scheme. */
  lemma FirstUrlNone(s: string)
    ensures FirstUrl(s).None? <==> s == [] || (!Contains(s, "https://") && !Contains(s, "http://"))
  {
    assert Schemes[1..][1..] == [];
  }

  /**
   * A found URL is the slice of the input from a scheme occurrence up to the
   * nearest following separator or the end: it starts with its scheme and
   * contains no separator.
   */
  lemma FirstUrlShape(s: string)
    requires FirstUrl(s).Some?
    ensures var u := FirstUrl(s).value;
            exists i, j :: 0 <= i <= j <= |s| && u == s[i..j]
                           && (j == |s| || s[j] in Separators)
                           && (StartsWith(u, "https://") || StartsWith(u, "http://"))
                           && forall c :: c in u ==> c !in Separators
  {
    var scheme := if Contains(s, "https://") then "https://" else "http://";
    assert Schemes[1..][1..] == [];
    var i := IndexOf(s, scheme, 0);
    var j := TokenEnd(s, i, Separators);
    assert FirstUrl(s).value == s[i..j];
    TokenShape(s, i, scheme);
  }

  /** The token cut at a scheme occurrence starts with the scheme and holds no separator. */
  lemma TokenShape(s: string, i: nat, scheme: string)
    requires scheme in Schemes && OccursAt(s, scheme, i)
    ensures var j := TokenEnd(s, i, Separators);
            var u := s[i..j];
            (j == |s| || s[j] in Separators) && StartsWith(u, scheme)
            && forall c :: c in u ==> c !in Separators
  {
    var j := TokenEnd(s, i, Separators);
    var u := s[i..j];
    SchemeHasNoSeparator(s, i, scheme);
    assert u[..|scheme|] == s[i..i + |scheme|];
    forall c | c in u
      ensures c !in Separators
    {
      var t :| 0 <= t < |u| && u[t] == c;
      assert s[i + t] == c;
    }
  }

  /** A string that is one whole `https` URL token is extracted as a whole. */
  lemma FirstUrlWhole(s: string)
    requires StartsWith(s, "https://")
    requires forall c :: c in s ==> c !in Separators
    ensures FirstUrl(s) == Some(s)
  {
    assert OccursAt(s, "https://", 0);
    assert IndexOf(s, "https://", 0) == 0;
    assert s[0..|s|] == s;
  }

  /**
   * `https://` is searched first: when it occurs anywhere, the result begins
   * at its first occurrence, even if an `http://` URL appears earlier.
   */
  lemma HttpsWins(s: string)
    requires Contains(s, "https://")
    ensures FirstUrl(s).Some?
    ensures var i := IndexOf(s, "https://", 0);
            FirstUrl(s).value == s[i..TokenEnd(s, i, Separators)]
  {
  }

  // ---------------------------------------------------------------------
  // Proxy-prefix stripping
  // ---------------------------------------------------------------------

  /** Reference meaning: each prefix is checked once, in list order. */
  function StripPrefixes(s: string, prefixes: seq<string>): string
    decreases |prefixes|
  {
    if prefixes == [] then s
    else
      var t := if StartsWith(s, prefixes[0]) then s[|prefixes[0]|..] else s;
      StripPrefixes(t, prefixes[1..])
  }

  /** The loop at thumbnailUtils.js lines 151-153. */
  method StripProxyPrefixes(s: string, proxies: seq<string>) returns (r: string)
    ensures r == StripPrefixes(s, proxies)
  {
    r := s;
    var k := 0;
    while k < |proxies|
      invariant 0 <= k <= |proxies|
      invariant StripPrefixes(r, proxies[k..]) == StripPrefixes(s, proxies)
    {
      if StartsWith(r, proxies[k]) {
        r := r[|proxies[k]|..];
      }
      k := k + 1;
    }
  }

  /** Stripping only ever removes a prefix: the result is a suffix of the input. */
  lemma {:induction false} StripPrefixesSuffix(s: string, prefixes: seq<string>)
    ensures EndsWith(s, StripPrefixes(s, prefixes))
    decreases |prefixes|
  {
    if prefixes != [] {
      var t := if StartsWith(s, prefixes[0]) then s[|prefixes[0]|..] else s;
      StripPrefixesSuffix(t, prefixes[1..]);
      var r := StripPrefixes(t, prefixes[1..]);
      assert t == s[|s| - |t|..];
      assert s[|s| - |r|..] == t[|t| - |r|..];
    }
  }

  /** A string that starts with none of the prefixes is left as it is. */
  lemma {:induction false} StripPrefixesNoMatch(s: string, prefixes: seq<string>)
    requires forall k :: 0 <= k < |prefixes| ==> !StartsWith(s, prefixes[k])
    ensures StripPrefixes(s, prefixes) == s
    decreases |prefixes|
  {
    if prefixes != [] {
      StripPrefixesNoMatch(s, prefixes[1..]);
    }
  }

  // ---------------------------------------------------------------------
  // Per-CDN unwrap rules
  // ---------------------------------------------------------------------

  /** What `new URL(candidate)` yields: `hostname` and `pathname`. */
  datatype UrlParts = UrlParts(host: string, path: string)

  /** `new URL(...)`; `None` where the constructor throws. */
  type UrlParser = string -> Option<UrlParts>

  /** `path.split('/')` and its last element. */
  function LastSegment(path: string): (seg: string)
    ensures '/' !in seg
  {
    var parts := Split(path, '/');
    parts[|parts| - 1]
  }

  /** A string without the separator splits into itself alone. */
  lemma {:induction false} SplitWithoutSeparator(s: string, sep: char)
    requires sep !in s
    ensures Split(s, sep) == [s]
    decreases |s|
  {
    if s != [] {
      SplitWithoutSeparator(s[1..], sep);
      assert [s[0]] + s[1..] == s;
    }
  }

  /** The last segment is the text after the last `/`: a suffix of the path. */
  lemma {:induction false} LastSegmentIsSuffix(path: string)
    ensures EndsWith(path, LastSegment(path))
    ensures |LastSegment(path)| < |path| ==> path[|path| - |LastSegment(path)| - 1] == '/'
    decreases |path|
  {
    if path != [] {
      LastSegmentIsSuffix(path[1..]);
      var rest := Split(path[1..], '/');
      var seg := LastSegment(path);
      if path[0] == '/' {
        assert Split(path, '/') == [[]] + rest;
        assert seg == LastSegment(path[1..]);
      } else {
        assert Split(path, '/') == [[path[0]] + rest[0]] + rest[1..];
        if |rest| == 1 {
          JoinSplit(path[1..], '/');
          assert seg == [path[0]] + path[1..] == path;
        } else {
          assert seg == LastSegment(path[1..]);
          if |seg| == |path| - 1 {
            assert seg == path[1..];
            SplitWithoutSeparator(path[1..], '/');
          }
        }
      }
    }
  }

  predicate DevtoImage(u: UrlParts) {
    EndsWith(u.host, "dev.to") && Contains(u.path, "/dynamic/image") && LastSegment(u.path) != []
  }

  /** `unwrapDevtoUrl` (thumbnailUtils.js lines 48-66). */
  function UnwrapDevto(parse: UrlParser, candidate: string): (r: Option<string>)
    ensures r.Some? <==> parse(candidate).Some? && DevtoImage(parse(candidate).value)
                         && DecodeTimes(LastSegment(parse(candidate).value.path), 2).Some?
    ensures r.Some? ==> r == DecodeTimes(LastSegment(parse(candidate).value.path), 2)
  {
    match parse(candidate)
    case None => None
    case Some(u) =>
      if EndsWith(u.host, "dev.to") && Contains(u.path, "/dynamic/image") then
        var last := LastSegment(u.path);
        if last != [] then
          match Decode(last)
          case None => None
          case Some(once) => Decode(once)
        else None
      else None
  }

  const MediumAssetPrefix: string := "https://miro.medium.com/"

  /** `unwrapMediumUrl` (thumbnailUtils.js lines 68-86). */
  function UnwrapMedium(parse: UrlParser, candidate: string): (r: Option<string>)
    ensures r.Some? <==> parse(candidate).Some? && EndsWith(parse(candidate).value.host, "medium.com")
                         && LastSegment(parse(candidate).value.path) != []
                         && Decode(LastSegment(parse(candidate).value.path)).Some?
    ensures r.Some? ==> StartsWith(r.value, MediumAssetPrefix)
                        && Decode(LastSegment(parse(candidate).value.path)) == Some(r.value[|MediumAssetPrefix|..])
  {
    match parse(candidate)
    case None => None
    case Some(u) =>
      if EndsWith(u.host, "medium.com") then
        var last := LastSegment(u.path);
        if last != [] then
          match Decode(last)
          case None => None
          case Some(cand) => Some(MediumAssetPrefix + cand)
        else None
      else None
  }

  predicate SubstackHost(host: string) {
    EndsWith(host, "substack.com") || EndsWith(host, "substackcdn.com") || Contains(host, "substack")
  }

  /** `unwrapSubstackUrl` (thumbnailUtils.js lines 88-105). */
  function UnwrapSubstack(parse: UrlParser, candidate: string): (r: Option<string>)
    ensures r.Some? <==> parse(candidate).Some? && SubstackHost(parse(candidate).value.host)
                         && LastSegment(parse(candidate).value.path) != []
                         && Decode(LastSegment(parse(candidate).value.path)).Some?
                         && StartsWith(Decode(LastSegment(parse(candidate).value.path)).value, "http")
    ensures r.Some? ==> StartsWith(r.value, "http") && r == Decode(LastSegment(parse(candidate).value.path))
  {
    match parse(candidate)
    case None => None
    case Some(u) =>
      if SubstackHost(u.host) then
        var last := LastSegment(u.path);
        if last != [] then
          match Decode(last)
          case None => None
          case Some(orig) => if StartsWith(orig, "http") then Some(orig) else None
        else None
      else None
  }

  /** A string holding the separator splits into at least two parts. */
  lemma {:induction false} SplitHasTwoParts(s: string, sep: char)
    requires sep in s
    ensures |Split(s, sep)| >= 2
    decreases |s|
  {
    if s[0] != sep {
      SplitHasTwoParts(s[1..], sep);
    }
  }

  /** The segment after a final `/` is the last segment. */
  lemma {:induction false} LastSegmentAfterSlash(prefix: string, seg: string)
    requires '/' !in seg
    ensures LastSegment(prefix + ['/'] + seg) == seg
    decreases |prefix|
  {
    var path := prefix + ['/'] + seg;
    if prefix == [] {
      SplitWithoutSeparator(seg, '/');
      assert path[0] == '/' && path[1..] == seg;
    } else {
      LastSegmentAfterSlash(prefix[1..], seg);
      assert path[1..] == prefix[1..] + ['/'] + seg;
      assert path[1..][|prefix| - 1] == '/';
      SplitHasTwoParts(path[1..], '/');
    }
  }

  /** Encoding keeps no `/`: it becomes `%2F`. */
  lemma {:induction false} EncodeHasNoSlash(s: string)
    ensures '/' !in Encode(s)
  {
    if s != [] {
      EncodeHasNoSlash(s[1..]);
    }
  }

  /**
   * dev.to's dynamic image service carries the original asset URL,
   * percent-encoded, as the last path segment: unwrapping returns that
   * asset URL (for instance `https://example.com/img.png` from
   * `https://dev.to/dynamic/image/1000/https%3A%2F%2Fexample.com%2Fimg.png`).
   */
  lemma DevtoUnwrapsEncodedAsset(parse: UrlParser, candidate: string, host: string, prefix: string, asset: string)
    requires parse(candidate) == Some(UrlParts(host, prefix + ['/'] + Encode(asset)))
    requires EndsWith(host, "dev.to") && Contains(prefix, "/dynamic/image")
    requires asset != [] && '%' !in asset
    ensures UnwrapDevto(parse, candidate) == Some(asset)
  {
    var path := prefix + ['/'] + Encode(asset);
    EncodeHasNoSlash(asset);
    LastSegmentAfterSlash(prefix, Encode(asset));
    DecodeEncode(asset);
    ContainsIff(prefix, "/dynamic/image");
    var i :| OccursAt(prefix, "/dynamic/image", i);
    assert path[i..i + 14] == prefix[i..i + 14];
    assert OccursAt(path, "/dynamic/image", i);
    ContainsIff(path, "/dynamic/image");
  }
}
