/**
 * src/pages/TagContentPage.jsx: the page listing the articles that carry
 * at least one of the tag names passed in the navigation state.
 */
module TagContentPage {
  import opened Wrappers
  import opened Articles
  import opened AppContext

  /** `article.tags.some((tag) => selectedTagNames.includes(tag))` */
  predicate HasAnyTag(article: Article, names: seq<string>) {
    exists i :: 0 <= i < |article.tags| && article.tags[i] in names
  }

  /** `articlesData.filter(...)` (lines 19-21). */
  function FilterByTags(data: seq<Article>, names: seq<string>): seq<Article> {
    if data == [] then []
    else
      var init := FilterByTags(data[..|data| - 1], names);
      if HasAnyTag(data[|data| - 1], names) then init + [data[|data| - 1]] else init
  }

  /** An article is listed exactly when one of its tags was selected. */
  lemma {:induction false} FilterByTagsMembers(data: seq<Article>, names: seq<string>)
    ensures forall a :: a in FilterByTags(data, names) <==> a in data && HasAnyTag(a, names)
    ensures |FilterByTags(data, names)| <= |data|
  {
    if data != [] {
      var init := data[..|data| - 1];
      FilterByTagsMembers(init, names);
      assert data == init + [data[|data| - 1]];
    }
  }

  /** The filter keeps the order of the data: it distributes over concatenation. */
  lemma {:induction false} FilterByTagsAppend(a: seq<Article>, b: seq<Article>, names: seq<string>)
    ensures FilterByTags(a + b, names) == FilterByTags(a, names) + FilterByTags(b, names)
  {
    if b == [] {
      assert a + b == a;
    } else {
      var init := b[..|b| - 1];
      FilterByTagsAppend(a, init, names);
      assert (a + b)[..|a + b| - 1] == a + init;
    }
  }

  /** No selected name, no article. */
  lemma {:induction false} NoNamesNoArticles(data: seq<Article>)
    ensures FilterByTags(data, []) == []
  {
    if data != [] {
      NoNamesNoArticles(data[..|data| - 1]);
    }
  }

  /** `selectedTagNames.map(tagName => ({name: tagName, count: 0}))` (line 24). */
  function SelectedTags(names: seq<string>): (r: seq<TagCount>)
    ensures |r| == |names|
    ensures forall i :: 0 <= i < |names| ==> r[i] == TagCount(names[i], 0)
  {
    if names == [] then [] else [TagCount(names[0], 0)] + SelectedTags(names[1..])
  }

  /** What the page renders. */
  datatype PageOutcome = Listed(articles: seq<Article>, selectedTags: seq<TagCount>) | Threw

  /**
   * The page for a navigation state: without `selectedTagNames` (no state,
   * or a state without the key) the filter reads a property of `undefined`
   * and throws.
   */
  function Page(data: seq<Article>, selectedTagNames: Option<seq<string>>): (r: PageOutcome)
    ensures selectedTagNames.None? <==> r == Threw
    ensures selectedTagNames.Some? ==>
      r.articles == FilterByTags(data, selectedTagNames.value) &&
      r.selectedTags == SelectedTags(selectedTagNames.value)
  {
    match selectedTagNames
    case None => Threw
    case Some(names) => Listed(FilterByTags(data, names), SelectedTags(names))
  }
}
