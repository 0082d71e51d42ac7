/**
 * src/components/TagDropdownSearch.jsx: a simpler tag picker over plain
 * tag names.  Its state is the input text, the suggestions and the
 * selection; the effect that recomputes the suggestions is `ApplyFilter`,
 * run by the environment after the text changes.
 */
module TagDropdownSearch {
  import opened Strings

  const MinSearchLength := 3

  /** `tags.filter((tag) => tag.toLowerCase().includes(searchText.toLowerCase()))` */
  function MatchingTags(tags: seq<string>, text: string): seq<string> {
    if tags == [] then []
    else
      var init := MatchingTags(tags[..|tags| - 1], text);
      var last := tags[|tags| - 1];
      if Contains(ToLower(last), ToLower(text)) then init + [last] else init
  }

  /** The filter keeps exactly the tags that contain the text, ignoring ASCII case. */
  lemma {:induction false} MatchingTagsMembers(tags: seq<string>, text: string)
    ensures forall t :: t in MatchingTags(tags, text) <==> t in tags && Contains(ToLower(t), ToLower(text))
    ensures |MatchingTags(tags, text)| <= |tags|
  {
    if tags != [] {
      var init := tags[..|tags| - 1];
      MatchingTagsMembers(init, text);
      assert tags == init + [tags[|tags| - 1]];
    }
  }

  /** The filter keeps the order of `tags`. */
  lemma {:induction false} MatchingTagsAppend(a: seq<string>, b: seq<string>, text: string)
    ensures MatchingTags(a + b, text) == MatchingTags(a, text) + MatchingTags(b, text)
  {
    if b == [] {
      assert a + b == a;
    } else {
      var init := b[..|b| - 1];
      MatchingTagsAppend(a, init, text);
      assert (a + b)[..|a + b| - 1] == a + init;
    }
  }

  /**
   * The effect (lines 10-20): the matching tags once the text has three or
   * more UTF-16 code units, as `searchText.length` counts them.
   */
  function Suggestions(tags: seq<string>, text: string): (r: seq<string>)
    ensures Utf16Length(text) < MinSearchLength ==> r == []
  {
    if Utf16Length(text) >= MinSearchLength then MatchingTags(tags, text) else []
  }

  /** Two emoji are four code units: enough for the search to start. */
  lemma AstralTextSearches()
    ensures Suggestions(["\U{1F600}\U{1F600}"], "\U{1F600}\U{1F600}") == ["\U{1F600}\U{1F600}"]
  {
    var e := "\U{1F600}\U{1F600}";
    assert Utf16Length(e) == 4 by {
      assert e[..1] == "\U{1F600}";
    }
    assert ToLower(e) == e;
    assert OccursAt(e, e, 0);
  }

  /** `selectedTags.filter((t) => t !== tag)` */
  function Without(selected: seq<string>, tag: string): seq<string> {
    if selected == [] then []
    else
      var init := Without(selected[..|selected| - 1], tag);
      if selected[|selected| - 1] != tag then init + [selected[|selected| - 1]] else init
  }

  /** Removing deletes every occurrence of the tag and nothing else. */
  lemma {:induction false} WithoutMembers(selected: seq<string>, tag: string)
    ensures forall t :: t in Without(selected, tag) <==> t in selected && t != tag
    ensures multiset(Without(selected, tag)) == multiset(selected)[tag := 0]
  {
    if selected != [] {
      var init := selected[..|selected| - 1];
      WithoutMembers(init, tag);
      assert selected == init + [selected[|selected| - 1]];
    }
  }

  /** A duplicate-free selection stays duplicate-free after a removal. */
  lemma {:induction false} WithoutKeepsDistinct(selected: seq<string>, tag: string)
    requires forall i, j :: 0 <= i < j < |selected| ==> selected[i] != selected[j]
    ensures var r := Without(selected, tag);
      forall i, j :: 0 <= i < j < |r| ==> r[i] != r[j]
  {
    if selected != [] {
      var init := selected[..|selected| - 1];
      WithoutKeepsDistinct(init, tag);
      WithoutMembers(init, tag);
      var last := selected[|selected| - 1];
      assert forall k :: 0 <= k < |init| ==> init[k] == selected[k];
      assert last !in init;
    }
  }

  class Dropdown {
    const tags: seq<string>
    var searchText: string
    var filtered: seq<string>
    var selected: seq<string>

    constructor(tags: seq<string>)
      ensures this.tags == tags && searchText == "" && filtered == [] && selected == []
    {
      this.tags := tags;
      searchText := "";
      filtered := [];
      selected := [];
    }

    /** No tag is selected twice. */
    predicate Valid()
      reads this
    {
      forall i, j :: 0 <= i < j < |selected| ==> selected[i] != selected[j]
    }

    /** The effect on `[searchText, tags]` (lines 10-20). */
    method ApplyFilter()
      modifies this
      ensures filtered == Suggestions(tags, searchText)
      ensures searchText == old(searchText) && selected == old(selected)
    {
      if Utf16Length(searchText) >= MinSearchLength {
        filtered := MatchingTags(tags, searchText);
      } else {
        filtered := [];
      }
    }

    /** `handleInputChange` (lines 22-24). */
    method InputChange(value: string)
      modifies this
      ensures searchText == value && filtered == old(filtered) && selected == old(selected)
    {
      searchText := value;
    }

    /** `handleTagSelect` (lines 26-31): append when absent, then clear the text. */
    method TagSelect(tag: string)
      requires Valid()
      modifies this
      ensures Valid()
      ensures tag in old(selected) ==> selected == old(selected)
      ensures tag !in old(selected) ==> selected == old(selected) + [tag]
      ensures searchText == "" && filtered == old(filtered)
    {
      if tag !in selected {
        selected := selected + [tag];
      }
      searchText := "";
    }

    /** `handleTagRemove` (lines 33-35). */
    method TagRemove(tag: string)
      requires Valid()
      modifies this
      ensures Valid()
      ensures selected == Without(old(selected), tag)
      ensures tag !in selected
      ensures searchText == old(searchText) && filtered == old(filtered)
    {
      WithoutKeepsDistinct(selected, tag);
      WithoutMembers(selected, tag);
      selected := Without(selected, tag);
    }

    /** `clearAllTags` (lines 37-39). */
    method ClearAll()
      modifies this
      ensures Valid() && selected == []
      ensures searchText == old(searchText) && filtered == old(filtered)
    {
      selected := [];
    }
  }
}
