/** The records of the bookmark data that the modelled code reads. */
module Articles {

  /**
   * A bookmarked article: its page URL, its known thumbnail URL and its tags.
   * A field missing from the data is the empty string.
   */
  datatype Article = Article(url: string, thumbnailUrl: string, tags: seq<string>)

  /** Every tag occurrence, article by article, in data order. */
  function AllTags(articles: seq<Article>): seq<string> {
    if articles == [] then []
    else AllTags(articles[..|articles| - 1]) + articles[|articles| - 1].tags
  }

  /** A tag occurs in `AllTags` exactly when some article carries it. */
  lemma {:induction false} AllTagsMembers(articles: seq<Article>, t: string)
    ensures t in AllTags(articles) <==> exists a :: a in articles && t in a.tags
  {
    if articles != [] {
      var init := articles[..|articles| - 1];
      var last := articles[|articles| - 1];
      AllTagsMembers(init, t);
      assert forall a :: a in init ==> a in articles;
      assert forall a :: a in articles ==> a in init || a == last;
    }
  }

  /** How often each tag occurs: the multiset of all occurrences, as a map. */
  function TagCounts(s: seq<string>): map<string, nat> {
    map t | t in s :: multiset(s)[t]
  }

  /** The counted tags are exactly those that occur, each at least once. */
  lemma TagCountsMeaning(s: seq<string>)
    ensures TagCounts(s).Keys == set t | t in s
    ensures forall t :: t in TagCounts(s) ==> TagCounts(s)[t] == multiset(s)[t] >= 1
  {
  }

  /** Counting one more occurrence. */
  lemma TagCountsSnoc(s: seq<string>, t: string)
    ensures TagCounts(s + [t]) == TagCounts(s)[t := if t in TagCounts(s) then TagCounts(s)[t] + 1 else 1]
  {
    assert multiset(s + [t]) == multiset(s) + multiset{t};
    var lhs := TagCounts(s + [t]);
    var rhs := TagCounts(s)[t := if t in TagCounts(s) then TagCounts(s)[t] + 1 else 1];
    assert lhs.Keys == rhs.Keys;
    forall k | k in lhs ensures lhs[k] == rhs[k] {
      if k != t {
        assert k in s;
      }
    }
  }
}
