/**
 * The thumbnail cache of src/cache/ThumbnailCacheContext.js: a map from page
 * URL to thumbnail URL (or `null`), starting empty, updated by copying the
 * previous map with one key overwritten.
 */
module ThumbnailCache {
  import opened Wrappers

  /** A cached thumbnail: a URL, or `None` for `null`. */
  type Thumbnail = Option<string>

  type Cache = map<string, Thumbnail>

  /** `useState({})` */
  const EmptyCache: Cache := map[]

  /** `addToCache(url, thumbnailUrl)`: `{ ...prevCache, [url]: thumbnailUrl }`. */
  function AddToCache(cache: Cache, url: string, thumbnail: Thumbnail): (r: Cache)
    ensures url in r && r[url] == thumbnail
    ensures r.Keys == cache.Keys + {url}
    ensures forall k :: k in cache && k != url ==> r[k] == cache[k]
  {
    cache[url := thumbnail]
  }

  /** The last write to a key wins. */
  lemma LastWriteWins(cache: Cache, url: string, t1: Thumbnail, t2: Thumbnail)
    ensures AddToCache(AddToCache(cache, url, t1), url, t2) == AddToCache(cache, url, t2)
  {
  }

  /** Writing the same pair twice is writing it once. */
  lemma AddIdempotent(cache: Cache, url: string, t: Thumbnail)
    ensures AddToCache(AddToCache(cache, url, t), url, t) == AddToCache(cache, url, t)
  {
  }

  /** Keys are independent: writes to different keys commute. */
  lemma WritesCommute(cache: Cache, u1: string, t1: Thumbnail, u2: string, t2: Thumbnail)
    requires u1 != u2
    ensures AddToCache(AddToCache(cache, u1, t1), u2, t2) == AddToCache(AddToCache(cache, u2, t2), u1, t1)
  {
  }

  /** A single write into the empty cache holds exactly that entry. */
  lemma AddToEmpty(url: string, t: Thumbnail)
    ensures AddToCache(EmptyCache, url, t) == map[url := t]
  {
  }
}
