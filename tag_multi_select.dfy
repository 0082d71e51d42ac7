/**
 * src/components/TagMultiSelect.jsx: the tag picker used for searching
 * ('search' variant) and for tagging a new article ('add' variant).  Its
 * state is the selection, the input text, the suggestions and whether the
 * dropdown is open; each handler is a method.  The debounced suggestion
 * update runs as its own step, `ApplyFilter`, which the environment calls
 * once the text or the selection has settled.
 */
module TagMultiSelect {
  import opened Wrappers
  import opened Strings

  /**
   * A tag object `{ name, count }`; a plain string tag of the 'add'
   * variant is the object with that name and no count.
   */
  datatype Tag = Tag(name: string, count: Option<nat>)

  /** An entry of `initialSelectedTags`: a string or a tag object. */
  datatype TagInput = Str(s: string) | Obj(tag: Tag)

  /** `typeof tag === 'string' ? { name: tag } : tag` */
  function Wrap(t: TagInput): (r: Tag)
    ensures t.Str? ==> r == Tag(t.s, None)
    ensures t.Obj? ==> r == t.tag
  {
    match t
    case Str(s) => Tag(s, None)
    case Obj(tag) => tag
  }

  /** The initial selection (lines 30-34). */
  function InitialSelection(initial: seq<TagInput>): (r: seq<Tag>)
    ensures |r| == |initial|
    ensures forall i :: 0 <= i < |initial| ==> r[i] == Wrap(initial[i])
  {
    if initial == [] then [] else [Wrap(initial[0])] + InitialSelection(initial[1..])
  }

  /** `selectedTagNames`: the lower-cased names of the selection. */
  function LowerNames(tags: seq<Tag>): (r: seq<string>)
    ensures |r| == |tags|
    ensures forall i :: 0 <= i < |tags| ==> r[i] == ToLower(tags[i].name)
  {
    if tags == [] then [] else [ToLower(tags[0].name)] + LowerNames(tags[1..])
  }

  /** `selectedTags.map(tag => tag.name)` */
  function Names(tags: seq<Tag>): (r: seq<string>)
    ensures |r| == |tags|
    ensures forall i :: 0 <= i < |tags| ==> r[i] == tags[i].name
  {
    if tags == [] then [] else [tags[0].name] + Names(tags[1..])
  }

  /**
   * What the notifying effect (lines 94-99) passes to `onTagsChange`: the
   * selected names, in the 'add' variant only.
   */
  function Reported(isSearch: bool, selected: seq<Tag>): (r: Option<seq<string>>)
    ensures r.Some? <==> !isSearch
    ensures r.Some? ==> r.value == Names(selected)
  {
    if isSearch then None else Some(Names(selected))
  }

  /** No two selected tags share a lower-cased name. */
  predicate DistinctNames(tags: seq<Tag>) {
    forall i, j :: 0 <= i < j < |tags| ==> ToLower(tags[i].name) != ToLower(tags[j].name)
  }

  // ---------------------------------------------------------------------
  // Suggestions
  // ---------------------------------------------------------------------

  const SuggestionLimit := 10
  const SearchMinLength := 3

  /** One test of the filter (lines 54-57). */
  predicate Suggestible(tag: Tag, text: string, selectedNames: seq<string>) {
    Contains(ToLower(tag.name), ToLower(text)) && ToLower(tag.name) !in selectedNames
  }

  /** `allTags.filter(...)`, before the limit. */
  function Matching(allTags: seq<Tag>, text: string, selectedNames: seq<string>): seq<Tag> {
    if allTags == [] then []
    else
      var init := Matching(allTags[..|allTags| - 1], text, selectedNames);
      var last := allTags[|allTags| - 1];
      if Suggestible(last, text, selectedNames) then init + [last] else init
  }

  /** The filter keeps exactly the suggestible tags. */
  lemma {:induction false} MatchingMembers(allTags: seq<Tag>, text: string, selectedNames: seq<string>)
    ensures forall t :: t in Matching(allTags, text, selectedNames) <==> t in allTags && Suggestible(t, text, selectedNames)
  {
    if allTags != [] {
      var init := allTags[..|allTags| - 1];
      MatchingMembers(init, text, selectedNames);
      assert allTags == init + [allTags[|allTags| - 1]];
    }
  }

  /** The filter keeps the order of `allTags`. */
  lemma {:induction false} MatchingAppend(a: seq<Tag>, b: seq<Tag>, text: string, selectedNames: seq<string>)
    ensures Matching(a + b, text, selectedNames) == Matching(a, text, selectedNames) + Matching(b, text, selectedNames)
  {
    if b == [] {
      assert a + b == a;
    } else {
      var init := b[..|b| - 1];
      MatchingAppend(a, init, text, selectedNames);
      assert (a + b)[..|a + b| - 1] == a + init;
      assert (a + b)[|a + b| - 1] == b[|b| - 1];
    }
  }

  /** `.slice(0, 10)` */
  function Limit(tags: seq<Tag>): (r: seq<Tag>)
    ensures |r| <= SuggestionLimit
  {
    if |tags| <= SuggestionLimit then tags else tags[..SuggestionLimit]
  }

  /**
   * The debounced filter (lines 49-63): empty below the minimum length (3
   * to search, 0 to add), measured in UTF-16 code units as `text.length` is.
   */
  function Suggestions(isSearch: bool, allTags: seq<Tag>, selectedNames: seq<string>, text: string): seq<Tag> {
    var minLength := if isSearch then SearchMinLength else 0;
    if Utf16Length(text) >= minLength then Limit(Matching(allTags, text, selectedNames)) else []
  }

  /**
   * The suggestions are the first (at most ten) tags of `allTags`, in
   * order, that contain the text case-insensitively and are not selected;
   * there are none while a search text is shorter than three characters.
   */
  lemma SuggestionsMeaning(isSearch: bool, allTags: seq<Tag>, selectedNames: seq<string>, text: string)
    ensures var r := Suggestions(isSearch, allTags, selectedNames, text);
      |r| <= SuggestionLimit &&
      (isSearch && Utf16Length(text) < SearchMinLength ==> r == []) &&
      (forall t :: t in r ==> t in allTags && Suggestible(t, text, selectedNames)) &&
      (!isSearch || Utf16Length(text) >= SearchMinLength ==>
        var all := Matching(allTags, text, selectedNames);
        r == all[..|r|] && (|r| < SuggestionLimit ==> r == all))
  {
    MatchingMembers(allTags, text, selectedNames);
  }

  /**
   * Lengths are UTF-16 code units: a search text of two emoji is four units
   * long, so it is filtered, and the search dropdown shows the match.
   */
  lemma AstralTextSearches()
    ensures var e := "\U{1F600}\U{1F600}";
      Suggestions(true, [Tag(e, None)], [], e) == [Tag(e, None)] &&
      CanShowDropdown(true, [], e, [Tag(e, None)])
  {
    var e := "\U{1F600}\U{1F600}";
    assert Utf16Length(e) == 4 by {
      assert e[..1] == "\U{1F600}";
    }
    assert ToLower(e) == e;
    assert OccursAt(e, e, 0);
  }

  // ---------------------------------------------------------------------
  // The selection
  // ---------------------------------------------------------------------

  /** `handleTagSelect`'s update of the selection (lines 111-113). */
  function Select(selected: seq<Tag>, tag: Tag): seq<Tag> {
    if ToLower(tag.name) !in LowerNames(selected) then selected + [tag] else selected
  }

  /** Selecting appends exactly the tags whose lower-cased name is new, and keeps the names distinct. */
  lemma SelectMeaning(selected: seq<Tag>, tag: Tag)
    ensures Select(selected, tag) == selected + [tag] <==> forall t :: t in selected ==> ToLower(t.name) != ToLower(tag.name)
    ensures (forall t :: t in selected ==> ToLower(t.name) != ToLower(tag.name)) || Select(selected, tag) == selected
    ensures DistinctNames(selected) ==> DistinctNames(Select(selected, tag))
  {
    var names := LowerNames(selected);
    if ToLower(tag.name) in names {
      var i :| 0 <= i < |names| && names[i] == ToLower(tag.name);
      assert selected[i] in selected;
      assert |selected + [tag]| != |selected|;
    }
  }

  /** `prevTags.filter((tag) => tag.name !== tagToRemove.name)` */
  function RemoveNamed(selected: seq<Tag>, name: string): seq<Tag> {
    if selected == [] then []
    else
      var init := RemoveNamed(selected[..|selected| - 1], name);
      if selected[|selected| - 1].name != name then init + [selected[|selected| - 1]] else init
  }

  /** Removal drops every tag with exactly that name and keeps the rest in order. */
  lemma {:induction false} RemoveNamedMeaning(selected: seq<Tag>, name: string)
    ensures forall t :: t in RemoveNamed(selected, name) <==> t in selected && t.name != name
    ensures forall b: seq<Tag> :: RemoveNamed(selected + b, name) == RemoveNamed(selected, name) + RemoveNamed(b, name)
  {
    if selected != [] {
      var init := selected[..|selected| - 1];
      RemoveNamedMeaning(init, name);
      assert selected == init + [selected[|selected| - 1]];
    }
    forall b: seq<Tag> ensures RemoveNamed(selected + b, name) == RemoveNamed(selected, name) + RemoveNamed(b, name) {
      RemoveNamedAppend(selected, b, name);
    }
  }

  lemma {:induction false} RemoveNamedAppend(a: seq<Tag>, b: seq<Tag>, name: string)
    ensures RemoveNamed(a + b, name) == RemoveNamed(a, name) + RemoveNamed(b, name)
  {
    if b == [] {
      assert a + b == a;
    } else {
      var init := b[..|b| - 1];
      RemoveNamedAppend(a, init, name);
      assert (a + b)[..|a + b| - 1] == a + init;
    }
  }

  /** Removal keeps the lower-cased names distinct. */
  lemma RemoveKeepsDistinct(selected: seq<Tag>, name: string)
    requires DistinctNames(selected)
    ensures DistinctNames(RemoveNamed(selected, name))
  {
    RemoveSubsequence(selected, name);
  }

  /** The result of a removal picks out entries at increasing indices. */
  lemma {:induction false} RemoveSubsequence(selected: seq<Tag>, name: string)
    requires DistinctNames(selected)
    ensures DistinctNames(RemoveNamed(selected, name))
  {
    if selected != [] {
      var init := selected[..|selected| - 1];
      var last := selected[|selected| - 1];
      assert DistinctNames(init);
      RemoveSubsequence(init, name);
      RemoveNamedMeaning(init, name);
      if last.name != name {
        var r := RemoveNamed(init, name);
        forall i | 0 <= i < |r|
          ensures ToLower(r[i].name) != ToLower(last.name)
        {
          assert r[i] in init;
          var k :| 0 <= k < |init| && init[k] == r[i];
          assert selected[k] == r[i];
        }
      }
    }
  }

  /** `prev.slice(0, Math.max(0, prev.length - 1))` */
  function DropLast(selected: seq<Tag>): (r: seq<Tag>)
    ensures selected == [] ==> r == []
    ensures selected != [] ==> r + [selected[|selected| - 1]] == selected
  {
    if selected == [] then [] else selected[..|selected| - 1]
  }

  /** Which key was pressed. */
  datatype Key = Enter | Backspace | OtherKey

  class Picker {
    const isSearch: bool
    const closeOnSelect: bool
    const allTags: seq<Tag>
    var selected: seq<Tag>
    var searchText: string
    var filtered: seq<Tag>
    var isOpen: bool

    /**
     * Mounting (lines 27-38).  `allTags` is the list the filter reads; a
     * missing list reads as empty.
     */
    constructor(isSearch: bool, allTags: seq<Tag>, initialSelectedTags: seq<TagInput>, closeOnSelect: bool)
      ensures this.isSearch == isSearch && this.allTags == allTags && this.closeOnSelect == closeOnSelect
      ensures selected == InitialSelection(initialSelectedTags)
      ensures searchText == "" && filtered == [] && !isOpen
    {
      this.isSearch := isSearch;
      this.allTags := allTags;
      this.closeOnSelect := closeOnSelect;
      selected := InitialSelection(initialSelectedTags);
      searchText := "";
      filtered := [];
      isOpen := false;
    }

    /** `handleInputChange` (lines 103-106). */
    method InputChange(value: string)
      modifies this
      ensures searchText == value && isOpen
      ensures selected == old(selected) && filtered == old(filtered)
    {
      searchText := value;
      isOpen := true;
    }

    /** A click on the chip area (line 187) or focus on the input (line 205) opens the dropdown. */
    method Open()
      modifies this
      ensures isOpen
      ensures selected == old(selected) && searchText == old(searchText) && filtered == old(filtered)
    {
      isOpen := true;
    }

    /** The clear-input button (lines 210-214), shown while there is text. */
    method ClearInput()
      modifies this
      ensures searchText == "" && filtered == []
      ensures selected == old(selected) && isOpen == old(isOpen)
    {
      searchText := "";
      filtered := [];
    }

    /** The toggle button (line 223) flips the dropdown open or closed. */
    method Toggle()
      modifies this
      ensures isOpen == !old(isOpen)
      ensures selected == old(selected) && searchText == old(searchText) && filtered == old(filtered)
    {
      isOpen := !isOpen;
    }

    /** The debounced filter firing with the current text and selection (lines 46-71). */
    method ApplyFilter()
      modifies this
      ensures filtered == Suggestions(isSearch, allTags, LowerNames(selected), searchText)
      ensures selected == old(selected) && searchText == old(searchText) && isOpen == old(isOpen)
    {
      filtered := Suggestions(isSearch, allTags, LowerNames(selected), searchText);
    }

    /** `handleTagSelect` (lines 108-123). */
    method TagSelect(tag: Tag)
      modifies this
      ensures selected == Select(old(selected), tag)
      ensures searchText == "" && filtered == []
      ensures isOpen == (if closeOnSelect then false else old(isOpen))
    {
      if ToLower(tag.name) !in LowerNames(selected) {
        selected := selected + [tag];
      }
      searchText := "";
      filtered := [];
      if closeOnSelect {
        isOpen := false;
      }
    }

    /** `handleTagRemove` (lines 125-129). */
    method TagRemove(tagToRemove: Tag)
      modifies this
      ensures selected == RemoveNamed(old(selected), tagToRemove.name)
      ensures searchText == old(searchText) && filtered == old(filtered) && isOpen == old(isOpen)
    {
      selected := RemoveNamed(selected, tagToRemove.name);
    }

    /** `clearAllTags` (lines 131-133). */
    method ClearAll()
      modifies this
      ensures selected == []
      ensures searchText == old(searchText) && filtered == old(filtered) && isOpen == old(isOpen)
    {
      selected := [];
    }

    /**
     * The tag Enter selects in the 'add' variant when there is exactly
     * one suggestion: `tagToSelect.name || tagToSelect`, then wrapped.
     */
    static function EnterChoice(suggestion: Tag): (r: Tag)
      ensures suggestion.name != "" ==> r == Tag(suggestion.name, None)
    {
      if suggestion.name != "" then Tag(suggestion.name, None) else suggestion
    }

    /** Whether Enter calls `handleTagSelect` (lines 141-151). */
    static predicate EnterSelects(isSearch: bool, selected: seq<Tag>, filtered: seq<Tag>, searchText: string) {
      !isSearch && |Trim(searchText)| > 0 &&
      (|filtered| == 1 || ToLower(Trim(searchText)) !in LowerNames(selected))
    }

    /** The selection after Enter (lines 137-153). */
    static function SelectionAfterEnter(isSearch: bool, selected: seq<Tag>, filtered: seq<Tag>, searchText: string): seq<Tag> {
      var trimmed := Trim(searchText);
      if isSearch || |trimmed| == 0 then selected
      else if |filtered| == 1 then Select(selected, EnterChoice(filtered[0]))
      else if ToLower(trimmed) !in LowerNames(selected) then Select(selected, Tag(trimmed, None))
      else selected
    }

    /** `handleKeyDown` (lines 136-162). */
    method KeyDown(key: Key)
      modifies this
      ensures key == Enter ==>
        selected == SelectionAfterEnter(isSearch, old(selected), old(filtered), old(searchText)) &&
        searchText == "" && filtered == [] &&
        isOpen == (if closeOnSelect && EnterSelects(isSearch, old(selected), old(filtered), old(searchText)) then false
                   else old(isOpen))
      ensures key == Backspace ==>
        selected == (if old(searchText) == "" then DropLast(old(selected)) else old(selected)) &&
        searchText == old(searchText) && filtered == old(filtered) && isOpen == old(isOpen)
      ensures key == OtherKey ==>
        selected == old(selected) && searchText == old(searchText) && filtered == old(filtered) && isOpen == old(isOpen)
    {
      if key == Enter {
        var trimmedText := Trim(searchText);
        if !isSearch && |trimmedText| > 0 {
          var isAlreadySelected := ToLower(trimmedText) in LowerNames(selected);
          if |filtered| == 1 {
            TagSelect(EnterChoice(filtered[0]));
          } else if !isAlreadySelected {
            TagSelect(Tag(trimmedText, None));
          }
        }
        filtered := [];
        searchText := "";
      } else if key == Backspace && searchText == "" {
        selected := DropLast(selected);
      }
    }

    /**
     * `handleSearchIconClick` (lines 166-172): what `onSearch` receives, if
     * it is called; `hasOnSearch` says whether the prop was passed.
     */
    method SearchIconClick(hasOnSearch: bool) returns (searched: Option<seq<Tag>>)
      modifies this
      ensures isSearch && hasOnSearch ==> searched == Some(old(selected)) && searchText == "" && filtered == []
      ensures !(isSearch && hasOnSearch) ==> searched == None && searchText == old(searchText) && filtered == old(filtered)
      ensures selected == old(selected) && isOpen == old(isOpen)
    {
      if isSearch && hasOnSearch {
        searched := Some(selected);
        searchText := "";
        filtered := [];
      } else {
        searched := None;
      }
    }

    /** `showDropdown` (line 181): a closed dropdown never shows. */
    function ShowDropdown(): (r: bool)
      reads this
      ensures r ==> isOpen
      ensures isOpen ==> (r <==> CanShowDropdown(isSearch, selected, searchText, filtered))
    {
      isOpen && CanShowDropdown(isSearch, selected, searchText, filtered)
    }
  }

  /**
   * `canShowDropdown` (lines 177-179): the 'search' dropdown shows while
   * something is selected, or for a search text of three or more
   * characters with suggestions; the 'add' dropdown needs some text.
   */
  function CanShowDropdown(isSearch: bool, selected: seq<Tag>, searchText: string, filtered: seq<Tag>): (r: bool)
    ensures isSearch && selected != [] ==> r
    ensures isSearch && selected == [] ==> (r <==> Utf16Length(searchText) >= SearchMinLength && filtered != [])
    ensures !isSearch && searchText == [] ==> !r
    ensures !isSearch && searchText != [] && filtered != [] ==> r
  {
    if isSearch then |selected| > 0 || (Utf16Length(searchText) >= SearchMinLength && |filtered| > 0)
    else |searchText| > 0 && (|filtered| > 0 || ToLower(Trim(searchText)) !in LowerNames(selected))
  }

  /**
   * After a selection (text and suggestions cleared) the 'add' dropdown has
   * nothing to show, while the 'search' dropdown keeps showing the
   * selection once there is one.
   */
  lemma DropdownAfterSelect(selected: seq<Tag>, tag: Tag)
    ensures !CanShowDropdown(false, Select(selected, tag), "", [])
    ensures CanShowDropdown(true, Select(selected, tag), "", [])
  {
    if ToLower(tag.name) in LowerNames(selected) {
      var i :| 0 <= i < |LowerNames(selected)| && LowerNames(selected)[i] == ToLower(tag.name);
    }
  }

  /**
   * In the 'add' variant a non-empty text with no suggestions shows the
   * dropdown exactly when its trimmed form is not yet selected (the
   * option to create it).
   */
  lemma AddDropdownOffersCreate(selected: seq<Tag>, searchText: string)
    requires |searchText| > 0
    ensures CanShowDropdown(false, selected, searchText, []) <==>
      forall t :: t in selected ==> ToLower(t.name) != ToLower(Trim(searchText))
  {
    var names := LowerNames(selected);
    if ToLower(Trim(searchText)) in names {
      var i :| 0 <= i < |names| && names[i] == ToLower(Trim(searchText));
      assert selected[i] in selected;
    }
  }

  /**
   * Enter keeps the lower-cased names of the selection distinct: every
   * path goes through `Select`.
   */
  lemma EnterKeepsDistinct(isSearch: bool, selected: seq<Tag>, filtered: seq<Tag>, searchText: string)
    requires DistinctNames(selected)
    ensures DistinctNames(Picker.SelectionAfterEnter(isSearch, selected, filtered, searchText))
  {
    var trimmed := Trim(searchText);
    if !isSearch && |trimmed| > 0 {
      if |filtered| == 1 {
        SelectMeaning(selected, Picker.EnterChoice(filtered[0]));
      } else {
        SelectMeaning(selected, Tag(trimmed, None));
      }
    }
  }

  /**
   * Enter in the 'add' variant on new text with no single suggestion
   * creates a tag named by the trimmed text.
   */
  lemma EnterCreatesTag(selected: seq<Tag>, filtered: seq<Tag>, searchText: string)
    requires |Trim(searchText)| > 0 && |filtered| != 1
    requires ToLower(Trim(searchText)) !in LowerNames(selected)
    ensures Picker.SelectionAfterEnter(false, selected, filtered, searchText) == selected + [Tag(Trim(searchText), None)]
  {
  }
}
