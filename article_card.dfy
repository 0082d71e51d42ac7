/**
 * src/components/ArticleCard.jsx: how a card resolves its thumbnail.  The
 * card shares the provider's `thumbnailCache`; its own state is the
 * displayed `thumbnailUrl` and the `loading` flag.  The card does its own
 * fetch through one fixed proxy and reads only the `og:image` meta tag.
 */
module ArticleCard {
  import opened Wrappers
  import opened ThumbnailCache
  import opened ThumbnailFetch
  import opened AppContext

  /** `CORS_PROXY` (ArticleCard.jsx line 9). */
  const CorsProxy := "https://api.allorigins.win/raw?url="

  /** JavaScript truthiness of a cached or displayed thumbnail (`null` and `""` are falsy). */
  predicate Truthy(t: Thumbnail) {
    t.Some? && t.value != []
  }

  /** `thumbnailCache[url]`; a missing key reads as `undefined`, falsy like `null`. */
  function Entry(cache: Cache, url: string): (t: Thumbnail)
    ensures Truthy(t) ==> url in cache && cache[url] == t
  {
    if url in cache then cache[url] else None
  }

  /** `ogImage ? ogImage.content : null`; `content` is `""` when the attribute is missing. */
  function OgImage(doc: Document): (t: Thumbnail)
    ensures t.Some? <==> exists i :: 0 <= i < |doc| && Matches(doc[i], "meta", "property", "og:image")
  {
    match QuerySelector(doc, "meta", "property", "og:image")
    case None => None
    case Some(e) => Some(if "content" in e.attrs then e.attrs["content"] else "")
  }

  /** Which branch of the effect runs. */
  datatype Action = UseProp | UseCache | Fetch

  /** The branch taken by the effect (ArticleCard.jsx lines 25-35). */
  function EffectAction(thumbnail: string, cache: Cache, url: string): Action {
    if thumbnail != [] then UseProp
    else if Truthy(Entry(cache, url)) then UseCache
    else Fetch
  }

  /** The effect fetches exactly when there is no prop and no truthy cache entry. */
  lemma FetchOnlyOnMiss(thumbnail: string, cache: Cache, url: string)
    ensures EffectAction(thumbnail, cache, url) == Fetch <==>
      thumbnail == [] && (url !in cache || !Truthy(cache[url]))
    ensures EffectAction(thumbnail, cache, url) == UseCache <==>
      thumbnail == [] && url in cache && Truthy(cache[url])
  {
  }

  /** What the thumbnail area shows. */
  datatype View = Spinner | Image(src: string) | NoImage

  /** The three-way render choice (ArticleCard.jsx lines 70-80). */
  function Render(loading: bool, thumbnailUrl: Thumbnail): (v: View)
    ensures v == Spinner <==> loading
    ensures v.Image? <==> !loading && Truthy(thumbnailUrl)
    ensures v.Image? ==> thumbnailUrl == Some(v.src)
    ensures v == NoImage <==> !loading && !Truthy(thumbnailUrl)
  {
    if loading then Spinner
    else if Truthy(thumbnailUrl) then Image(thumbnailUrl.value)
    else NoImage
  }

  class Card {
    const url: string
    /** The `thumbnail` prop, `""` by default. */
    const thumbnail: string
    const app: AppProvider
    var thumbnailUrl: Thumbnail
    var loading: bool

    /**
     * Mounting (ArticleCard.jsx lines 13-14): a truthy cache entry is shown
     * at once; otherwise the card starts empty and loading.
     */
    constructor(url: string, thumbnail: string, app: AppProvider)
      ensures this.url == url && this.thumbnail == thumbnail && this.app == app
      ensures Truthy(Entry(app.thumbnailCache, url)) ==>
        thumbnailUrl == Entry(app.thumbnailCache, url) && !loading
      ensures !Truthy(Entry(app.thumbnailCache, url)) ==> thumbnailUrl == Some("") && loading
    {
      this.url := url;
      this.thumbnail := thumbnail;
      this.app := app;
      var entry := Entry(app.thumbnailCache, url);
      thumbnailUrl := if Truthy(entry) then entry else Some("");
      loading := !Truthy(entry);
    }

    /** What the card shows now. */
    function View(): View
      reads this
    {
      Render(loading, thumbnailUrl)
    }

    /**
     * One run of the effect (ArticleCard.jsx lines 24-57), with the
     * asynchronous fetch completed.  `fetch` gives the body of
     * `fetch(CORS_PROXY + url)` parsed as a document, or `FetchError` when
     * the request or reading the body throws; the status is not checked.
     */
    method RunEffect(fetch: string -> PageResponse) returns (action: Action)
      modifies this, app
      ensures action == EffectAction(thumbnail, old(app.thumbnailCache), url)
      ensures !loading
      ensures action == UseProp ==>
        thumbnailUrl == Some(thumbnail) && app.thumbnailCache == old(app.thumbnailCache)
      ensures action == UseCache ==>
        thumbnailUrl == old(app.thumbnailCache)[url] && app.thumbnailCache == old(app.thumbnailCache)
      ensures action == Fetch && fetch(CorsProxy + url).FetchError? ==>
        thumbnailUrl == None && app.thumbnailCache == old(app.thumbnailCache)
      ensures action == Fetch && fetch(CorsProxy + url).Page? ==>
        var t := OgImage(fetch(CorsProxy + url).doc);
        thumbnailUrl == t && app.thumbnailCache == AddToCache(old(app.thumbnailCache), url, t)
    {
      action := EffectAction(thumbnail, app.thumbnailCache, url);
      if thumbnail != [] {
        thumbnailUrl := Some(thumbnail);
        loading := false;
        return;
      }
      var entry := Entry(app.thumbnailCache, url);
      if Truthy(entry) {
        thumbnailUrl := entry;
        loading := false;
        return;
      }
      match fetch(CorsProxy + url) {
        case FetchError =>
          thumbnailUrl := None;
        case Page(_, doc) =>
          var fetched := OgImage(doc);
          thumbnailUrl := fetched;
          app.thumbnailCache := AddToCache(app.thumbnailCache, url, fetched);
      }
      loading := false;
    }
  }

  /**
   * The effect depends on `thumbnailCache`, and every write makes a new
   * cache object, so a completed fetch schedules the effect again.  When
   * the page had no `og:image` (or an empty one) the stored entry is falsy
   * and the effect fetches again: the card refetches without end.
   */
  lemma RefetchAfterFalsyImage(cache: Cache, url: string, doc: Document)
    requires !Truthy(OgImage(doc))
    ensures EffectAction("", AddToCache(cache, url, OgImage(doc)), url) == Fetch
  {
  }

  /** A truthy image settles: the effect that follows uses the cache. */
  lemma TruthyImageSettles(cache: Cache, url: string, doc: Document)
    requires Truthy(OgImage(doc))
    ensures EffectAction("", AddToCache(cache, url, OgImage(doc)), url) == UseCache
  {
  }

  /** A page with no `og:image` tag at all is such a page. */
  lemma MissingOgImageIsFalsy(doc: Document)
    requires forall i :: 0 <= i < |doc| ==> !Matches(doc[i], "meta", "property", "og:image")
    ensures OgImage(doc) == None && !Truthy(OgImage(doc))
  {
  }

  /**
   * The evidently intended test: a URL counts as resolved once it has a
   * cache entry, even a `null` one.
   */
  function FixedEffectAction(thumbnail: string, cache: Cache, url: string): (a: Action)
    ensures a == Fetch <==> thumbnail == [] && url !in cache
  {
    if thumbnail != [] then UseProp
    else if url in cache then UseCache
    else Fetch
  }

  /** With the intended test, a URL is fetched at most once, whatever was stored. */
  lemma FixedFetchesOnce(cache: Cache, url: string, t: Thumbnail)
    ensures FixedEffectAction("", AddToCache(cache, url, t), url) == UseCache
  {
  }

  /** The two tests agree on every truthy entry. */
  lemma FixedAgreesOnHits(thumbnail: string, cache: Cache, url: string)
    requires url in cache && Truthy(cache[url])
    ensures FixedEffectAction(thumbnail, cache, url) == EffectAction(thumbnail, cache, url)
  {
  }
}
