/**
 * src/context/AppContext.js: the provider's state (the tag list and the
 * thumbnail cache) and the mount effect that fills both from the article
 * data.
 */
module AppContext {
  import opened Wrappers
  import opened Articles
  import opened ThumbnailCache
  import DataUtils
  import opened SeqUtils

  /** One entry of the `tags` state: `{ name, count }`. */
  datatype TagCount = TagCount(name: string, count: nat)

  /** `Object.entries(tagCounts).map(([name, count]) => ({ name, count }))`. */
  function TagEntries(counts: map<string, nat>, names: seq<string>): (r: seq<TagCount>)
    requires forall t :: t in names ==> t in counts
    ensures |r| == |names|
    ensures forall k :: 0 <= k < |r| ==> r[k] == TagCount(names[k], counts[names[k]])
  {
    if names == [] then []
    else TagEntries(counts, names[..|names| - 1]) + [TagCount(names[|names| - 1], counts[names[|names| - 1]])]
  }

  /** The `tags` state the effect computes from the tag occurrences `s`. */
  function TagsArray(s: seq<string>): (r: seq<TagCount>)
    ensures forall k :: 0 <= k < |r| ==> r[k].name in s && r[k].count == multiset(s)[r[k].name]
  {
    DistinctMeaning(s);
    TagCountsMeaning(s);
    TagEntries(TagCounts(s), Distinct(s))
  }

  /** Sum of the `count` fields. */
  function SumCounts(tags: seq<TagCount>): nat {
    if tags == [] then 0 else SumCounts(tags[..|tags| - 1]) + tags[|tags| - 1].count
  }

  /**
   * Each distinct tag appears once in the tags array, with the number of
   * its occurrences, which is at least one.
   */
  lemma TagsArrayMeaning(s: seq<string>)
    ensures forall e: TagCount :: e in TagsArray(s) <==> e.name in s && e.count == multiset(s)[e.name]
    ensures forall e :: e in TagsArray(s) ==> e.count >= 1
    ensures forall i, j :: 0 <= i < j < |TagsArray(s)| ==> TagsArray(s)[i].name != TagsArray(s)[j].name
  {
    DistinctMeaning(s);
    var d := Distinct(s);
    var r := TagsArray(s);
    forall e: TagCount | e.name in s && e.count == multiset(s)[e.name]
      ensures e in r
    {
      var k :| 0 <= k < |d| && d[k] == e.name;
      assert r[k] == e;
    }
  }

  /** Sum over `names` of the multiplicities in `m`. */
  ghost function SumOf(names: seq<string>, m: multiset<string>): nat {
    if names == [] then 0 else SumOf(names[..|names| - 1], m) + m[names[|names| - 1]]
  }

  lemma {:induction false} SumOfEntries(counts: map<string, nat>, names: seq<string>, m: multiset<string>)
    requires forall t :: t in names ==> t in counts && counts[t] == m[t]
    ensures SumCounts(TagEntries(counts, names)) == SumOf(names, m)
  {
    if names != [] {
      SumOfEntries(counts, names[..|names| - 1], m);
      assert TagEntries(counts, names)[..|names| - 1] == TagEntries(counts, names[..|names| - 1]);
    }
  }

  lemma {:induction false} SumOfAdd(names: seq<string>, m: multiset<string>, t: string)
    requires NoDuplicates(names)
    ensures SumOf(names, m + multiset{t}) == SumOf(names, m) + (if t in names then 1 else 0)
  {
    if names != [] {
      var init := names[..|names| - 1];
      SumOfAdd(init, m, t);
      assert t in names <==> t in init || t == names[|names| - 1];
      assert names[|names| - 1] !in init;
    }
  }

  lemma {:induction false} SumOfDistinct(s: seq<string>)
    ensures SumOf(Distinct(s), multiset(s)) == |s|
  {
    if s != [] {
      var init := s[..|s| - 1];
      var t := s[|s| - 1];
      assert s == init + [t];
      assert multiset(s) == multiset(init) + multiset{t};
      SumOfDistinct(init);
      DistinctMeaning(init);
      SumOfAdd(Distinct(init), multiset(init), t);
      if t !in init {
        assert multiset(init)[t] == 0;
        assert Distinct(s)[..|Distinct(s)| - 1] == Distinct(init);
      }
    }
  }

  /** The counts of the tags array add up to the number of tag occurrences. */
  lemma TagsArraySum(s: seq<string>)
    ensures SumCounts(TagsArray(s)) == |s|
  {
    DistinctMeaning(s);
    SumOfEntries(TagCounts(s), Distinct(s), multiset(s));
    SumOfDistinct(s);
  }

  /** `article.url && article.thumbnailUrl`: both present and non-empty. */
  predicate HasThumbnail(a: Article) {
    a.url != [] && a.thumbnailUrl != []
  }

  /** The cache the effect seeds from the articles, in data order. */
  function Seed(articles: seq<Article>): (r: Cache)
    ensures forall u :: u in r ==> u != [] && r[u].Some? && r[u].value != []
  {
    if articles == [] then EmptyCache
    else
      var a := articles[|articles| - 1];
      var c := Seed(articles[..|articles| - 1]);
      if HasThumbnail(a) then c[a.url := Some(a.thumbnailUrl)] else c
  }

  /**
   * A URL is seeded exactly when some article with both fields has it, and
   * its value is the thumbnail of the last such article.
   */
  lemma {:induction false} SeedMeaning(articles: seq<Article>, u: string)
    ensures u in Seed(articles) <==>
      exists i :: 0 <= i < |articles| && HasThumbnail(articles[i]) && articles[i].url == u
    ensures u in Seed(articles) ==>
      exists i :: 0 <= i < |articles| && HasThumbnail(articles[i]) && articles[i].url == u &&
        Seed(articles)[u] == Some(articles[i].thumbnailUrl) &&
        forall k :: i < k < |articles| && articles[k].url == u ==> !HasThumbnail(articles[k])
  {
    if articles != [] {
      var n := |articles| - 1;
      var init := articles[..n];
      SeedMeaning(init, u);
      assert forall i :: 0 <= i < n ==> init[i] == articles[i];
    }
  }

  /** `AppProvider`'s state. */
  class AppProvider {
    var tags: seq<TagCount>
    var thumbnailCache: Cache

    /** `useState([])` and `useState({})`. */
    constructor()
      ensures tags == [] && thumbnailCache == EmptyCache
    {
      tags := [];
      thumbnailCache := EmptyCache;
    }

    /**
     * The mount effect (AppContext.js lines 10-36).  Counting follows
     * `getTagsCount`: the truthiness test `tagCounts[tag]` agrees with a
     * membership test because every stored count is at least one.
     */
    method MountEffect(articles: seq<Article>)
      modifies this
      ensures tags == TagsArray(AllTags(articles))
      ensures thumbnailCache == Seed(articles)
    {
      var counts := DataUtils.GetTagsCount(articles);
      var names := Distinct(AllTags(articles));
      DistinctMeaning(AllTags(articles));
      tags := TagEntries(counts, names);
      var initialCache := SeedCache(articles);
      thumbnailCache := initialCache;
    }
  }

  /** The seeding loop (AppContext.js lines 29-34). */
  method SeedCache(articles: seq<Article>) returns (cache: Cache)
    ensures cache == Seed(articles)
  {
    cache := EmptyCache;
    var i := 0;
    while i < |articles|
      invariant 0 <= i <= |articles|
      invariant cache == Seed(articles[..i])
    {
      var a := articles[i];
      if a.url != [] && a.thumbnailUrl != [] {
        cache := cache[a.url := Some(a.thumbnailUrl)];
      }
      assert articles[..i + 1][..i] == articles[..i];
      i := i + 1;
    }
    assert articles[..i] == articles;
  }
}
