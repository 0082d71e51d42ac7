/**
 * src/utils/dataManipulationUtils.js: selecting records by a `where`
 * object, merging properties into the selected records in place, and
 * adding tags to them as a duplicate-free union.  Records are JSON
 * objects: each key holds a scalar or an array of scalars.
 */
module DataManipulation {
  import opened Wrappers
  import opened SeqUtils

  /** A JSON scalar. */
  datatype Value = Str(s: string) | Num(n: int) | Bool(b: bool) | Null

  /** A record field: a scalar or an array of scalars. */
  datatype Field = Scalar(v: Value) | List(items: seq<Value>)

  type Element = map<string, Field>

  /** The `where` object: the value each named key must have. */
  type Where = map<string, Value>

  // ---------------------------------------------------------------------
  // filterElements
  // ---------------------------------------------------------------------

  /**
   * One condition of `filterElements` (lines 15-21): an array field must
   * contain the value, any other field must be strictly equal to it; a
   * missing field is `undefined`, which equals no JSON value.
   */
  predicate FieldMatches(e: Element, key: string, v: Value) {
    key in e &&
    match e[key]
    case List(items) => v in items
    case Scalar(x) => x == v
  }

  /** Every condition of `where` holds. */
  predicate MatchesWhere(e: Element, where: Where) {
    forall key :: key in where ==> FieldMatches(e, key, where[key])
  }

  /** `filterElements(elements, where)` (lines 12-24). */
  function FilterElements(elements: seq<Element>, where: Where): (r: seq<Element>)
    ensures |r| <= |elements|
    ensures forall e :: e in r ==> e in elements && MatchesWhere(e, where)
  {
    if elements == [] then []
    else
      var init := FilterElements(elements[..|elements| - 1], where);
      if MatchesWhere(elements[|elements| - 1], where) then init + [elements[|elements| - 1]] else init
  }

  /** An element is kept exactly when it meets every condition. */
  lemma {:induction false} FilterMembers(elements: seq<Element>, where: Where)
    ensures forall e :: e in FilterElements(elements, where) <==> e in elements && MatchesWhere(e, where)
  {
    if elements != [] {
      var init := elements[..|elements| - 1];
      FilterMembers(init, where);
      assert elements == init + [elements[|elements| - 1]];
    }
  }

  /** Filtering keeps the order: it distributes over concatenation. */
  lemma {:induction false} FilterAppend(a: seq<Element>, b: seq<Element>, where: Where)
    ensures FilterElements(a + b, where) == FilterElements(a, where) + FilterElements(b, where)
  {
    if b == [] {
      assert a + b == a;
    } else {
      var init := b[..|b| - 1];
      FilterAppend(a, init, where);
      assert (a + b)[..|a + b| - 1] == a + init;
    }
  }

  /** An empty `where` keeps every element. */
  lemma {:induction false} FilterEmptyWhere(elements: seq<Element>)
    ensures FilterElements(elements, map[]) == elements
  {
    if elements != [] {
      FilterEmptyWhere(elements[..|elements| - 1]);
    }
  }

  /**
   * Which elements the two updates touch (lines 28 and 36): the filtered
   * ones when `where` has keys, every element otherwise.
   */
  predicate Selected(e: Element, where: Where) {
    |where| == 0 || MatchesWhere(e, where)
  }

  // ---------------------------------------------------------------------
  // baseAddPropertiesToElements
  // ---------------------------------------------------------------------

  /** `Object.assign(element, properties)`: the properties overwrite shared keys. */
  function Assign(e: Element, properties: Element): (r: Element)
    ensures r.Keys == e.Keys + properties.Keys
    ensures forall k :: k in properties ==> r[k] == properties[k]
    ensures forall k :: k in e && k !in properties ==> r[k] == e[k]
  {
    e + properties
  }

  /** The elements after `baseAddPropertiesToElements`. */
  function AddedProperties(elements: seq<Element>, properties: Element, where: Where): (r: seq<Element>)
    ensures |r| == |elements|
  {
    seq(|elements|, i requires 0 <= i < |elements| =>
      if Selected(elements[i], where) then Assign(elements[i], properties) else elements[i])
  }

  /** `baseAddPropertiesToElements(elements, properties, where)` (lines 27-32). */
  method BaseAddPropertiesToElements(elements: array<Element>, properties: Element, where: Where)
    modifies elements
    ensures elements[..] == AddedProperties(old(elements[..]), properties, where)
  {
    ghost var original := elements[..];
    var i := 0;
    while i < elements.Length
      invariant 0 <= i <= elements.Length
      invariant forall k :: 0 <= k < i ==> elements[k] == AddedProperties(original, properties, where)[k]
      invariant forall k :: i <= k < elements.Length ==> elements[k] == original[k]
    {
      if |where| == 0 || MatchesWhere(elements[i], where) {
        elements[i] := Assign(elements[i], properties);
      }
      i := i + 1;
    }
  }

  /**
   * Merging is idempotent: a selected element still has every property
   * after the merge and an unselected one is unchanged, so a second call
   * changes nothing.
   */
  lemma AddPropertiesIdempotent(elements: seq<Element>, properties: Element, where: Where)
    ensures AddedProperties(AddedProperties(elements, properties, where), properties, where)
         == AddedProperties(elements, properties, where)
  {
    var once := AddedProperties(elements, properties, where);
    var twice := AddedProperties(once, properties, where);
    forall i | 0 <= i < |elements|
      ensures twice[i] == once[i]
    {
      if Selected(elements[i], where) {
        AssignTwice(elements[i], properties);
      }
    }
  }

  lemma AssignTwice(e: Element, properties: Element)
    ensures Assign(Assign(e, properties), properties) == Assign(e, properties)
  {
  }

  // ---------------------------------------------------------------------
  // baseUpdateTags
  // ---------------------------------------------------------------------

  /** `[...element.tags]`: an array spreads into its items, a string into its characters. */
  function Spread(f: Field): Option<seq<Value>> {
    match f
    case List(items) => Some(items)
    case Scalar(Str(s)) => Some(seq(|s|, i requires 0 <= i < |s| => Str([s[i]])))
    case Scalar(_) => None
  }

  /** The spread of `element.tags` throws a `TypeError` for a missing or non-iterable field. */
  predicate TagsIterable(e: Element) {
    "tags" in e && Spread(e["tags"]).Some?
  }

  /** `[...new Set([...tags, ...newTags])]` */
  function TagUnion(tags: seq<Value>, newTags: seq<Value>): seq<Value> {
    Distinct(tags + newTags)
  }

  /**
   * The union holds the old and the new tags, each once, with the old
   * tags first in their first-occurrence order.
   */
  lemma TagUnionMeaning(tags: seq<Value>, newTags: seq<Value>)
    ensures forall t :: t in TagUnion(tags, newTags) <==> t in tags || t in newTags
    ensures NoDuplicates(TagUnion(tags, newTags))
    ensures |Distinct(tags)| <= |TagUnion(tags, newTags)|
    ensures Distinct(tags) == TagUnion(tags, newTags)[..|Distinct(tags)|]
  {
    DistinctMeaning(tags + newTags);
    DistinctPrefix(tags, newTags);
  }

  /** Adding the same tags twice is adding them once. */
  lemma TagUnionIdempotent(tags: seq<Value>, newTags: seq<Value>)
    ensures TagUnion(TagUnion(tags, newTags), newTags) == TagUnion(tags, newTags)
  {
    var u := TagUnion(tags, newTags);
    TagUnionMeaning(tags, newTags);
    DistinctAbsorbs(u, newTags);
    DistinctOfDistinctFree(u);
  }

  /** `element.tags = [...new Set([...element.tags, ...newTags])]` */
  function WithTags(e: Element, newTags: seq<Value>): (r: Element)
    requires TagsIterable(e)
    ensures r.Keys == e.Keys
    ensures forall k :: k in e && k != "tags" ==> r[k] == e[k]
  {
    e["tags" := List(TagUnion(Spread(e["tags"]).value, newTags))]
  }

  /** The index of the first selected element whose tags cannot be spread, or the length. */
  function FirstFailure(elements: seq<Element>, where: Where): (f: nat)
    ensures f <= |elements|
    ensures forall i :: 0 <= i < f ==> Selected(elements[i], where) ==> TagsIterable(elements[i])
    ensures f < |elements| ==> Selected(elements[f], where) && !TagsIterable(elements[f])
  {
    if elements == [] then 0
    else if Selected(elements[0], where) && !TagsIterable(elements[0]) then 0
    else
      var f := FirstFailure(elements[1..], where);
      assert forall i :: 1 <= i < |elements| ==> elements[i] == elements[1..][i - 1];
      1 + f
  }

  /** The elements once the selected ones before index `upto` have their tags updated. */
  function UpdatedTags(elements: seq<Element>, newTags: seq<Value>, where: Where, upto: nat): (r: seq<Element>)
    requires upto <= FirstFailure(elements, where)
    ensures |r| == |elements|
  {
    seq(|elements|, i requires 0 <= i < |elements| =>
      if i < upto && Selected(elements[i], where) then WithTags(elements[i], newTags) else elements[i])
  }

  /**
   * `baseUpdateTags(elements, newTags, where)` (lines 35-40).  It returns
   * whether the loop completed; when the spread of some selected element's
   * tags throws, the elements before it stay updated.
   */
  method BaseUpdateTags(elements: array<Element>, newTags: seq<Value>, where: Where) returns (completed: bool)
    modifies elements
    ensures completed <==> FirstFailure(old(elements[..]), where) == elements.Length
    ensures elements[..] == UpdatedTags(old(elements[..]), newTags, where, FirstFailure(old(elements[..]), where))
  {
    ghost var original := elements[..];
    ghost var f := FirstFailure(original, where);
    var i := 0;
    while i < elements.Length
      invariant 0 <= i <= f
      invariant forall k :: 0 <= k < elements.Length ==> elements[k] == UpdatedTags(original, newTags, where, i)[k]
    {
      if |where| == 0 || MatchesWhere(elements[i], where) {
        if !("tags" in elements[i] && Spread(elements[i]["tags"]).Some?) {
          assert elements[..] == UpdatedTags(original, newTags, where, f);
          return false;
        }
        elements[i] := WithTags(elements[i], newTags);
      }
      i := i + 1;
    }
    assert elements[..] == UpdatedTags(original, newTags, where, f);
    return true;
  }

  /** An element whose tags are an array. */
  predicate HasTagList(e: Element) {
    "tags" in e && e["tags"].List?
  }

  /** Updating tags keeps an element selected. */
  lemma WithTagsStaysSelected(e: Element, newTags: seq<Value>, where: Where)
    requires HasTagList(e) && Selected(e, where)
    ensures Selected(WithTags(e, newTags), where)
  {
    var e' := WithTags(e, newTags);
    TagUnionMeaning(e["tags"].items, newTags);
    forall key | key in where
      ensures FieldMatches(e', key, where[key])
    {
      assert FieldMatches(e, key, where[key]);
    }
  }

  /**
   * A second update of an updated element changes nothing: its tags are
   * now an array, which the union absorbs.
   */
  lemma WithTagsAgain(e: Element, newTags: seq<Value>)
    requires TagsIterable(e)
    ensures TagsIterable(WithTags(e, newTags))
    ensures WithTags(WithTags(e, newTags), newTags) == WithTags(e, newTags)
  {
    TagUnionIdempotent(Spread(e["tags"]).value, newTags);
  }

  /** The first failure is the index that the three conditions of `FirstFailure` single out. */
  lemma FirstFailureAt(elements: seq<Element>, where: Where, f: nat)
    requires f <= |elements|
    requires forall i :: 0 <= i < f ==> Selected(elements[i], where) ==> TagsIterable(elements[i])
    requires f < |elements| ==> Selected(elements[f], where) && !TagsIterable(elements[f])
    ensures FirstFailure(elements, where) == f
  {
  }

  /**
   * Updating tags is idempotent, on every input: a completed run is not
   * changed by a second one, and a run that throws throws again at the same
   * element with nothing further updated.  Tags given as a string become an
   * array in the first run; an updated element that no longer matches
   * `where` is left alone by the second.
   */
  lemma UpdateTagsIdempotent(elements: seq<Element>, newTags: seq<Value>, where: Where)
    ensures var f := FirstFailure(elements, where);
      var once := UpdatedTags(elements, newTags, where, f);
      FirstFailure(once, where) == f &&
      UpdatedTags(once, newTags, where, f) == once
  {
    var f := FirstFailure(elements, where);
    var once := UpdatedTags(elements, newTags, where, f);
    forall i | 0 <= i < f && Selected(once[i], where)
      ensures TagsIterable(once[i])
    {
      if Selected(elements[i], where) {
        WithTagsAgain(elements[i], newTags);
      }
    }
    FirstFailureAt(once, where, f);
    forall i | 0 <= i < |once|
      ensures UpdatedTags(once, newTags, where, f)[i] == once[i]
    {
      if i < f && Selected(elements[i], where) {
        WithTagsAgain(elements[i], newTags);
      }
    }
  }

  /** Neither update adds, removes or reorders elements, and unselected ones are untouched. */
  lemma UpdatesKeepShape(elements: seq<Element>, properties: Element, newTags: seq<Value>, where: Where)
    ensures |AddedProperties(elements, properties, where)| == |elements|
    ensures forall i :: 0 <= i < |elements| && !Selected(elements[i], where) ==>
      AddedProperties(elements, properties, where)[i] == elements[i]
    ensures forall i :: 0 <= i < |elements| && !Selected(elements[i], where) ==>
      UpdatedTags(elements, newTags, where, FirstFailure(elements, where))[i] == elements[i]
  {
  }

  // ---------------------------------------------------------------------
  // The decorated exports
  // ---------------------------------------------------------------------

  /** The outcome of calling a decorated export: its return value, or a thrown `TypeError`. */
  datatype Outcome = Returned(json: Option<string>) | Threw

  /**
   * `addPropertiesToElements` (lines 2-9, 43): the base function returns
   * `undefined`, and `JSON.stringify(undefined)` is `undefined`.
   */
  method AddPropertiesToElements(elements: array<Element>, properties: Element, where: Where)
    returns (out: Outcome)
    modifies elements
    ensures out == Returned(None)
    ensures elements[..] == AddedProperties(old(elements[..]), properties, where)
  {
    BaseAddPropertiesToElements(elements, properties, where);
    out := Returned(None);
  }

  /** `updateTags` (lines 2-9, 44): `undefined`, or the `TypeError` passed on. */
  method UpdateTags(elements: array<Element>, newTags: seq<Value>, where: Where) returns (out: Outcome)
    modifies elements
    ensures out == if FirstFailure(old(elements[..]), where) == elements.Length then Returned(None) else Threw
    ensures elements[..] == UpdatedTags(old(elements[..]), newTags, where, FirstFailure(old(elements[..]), where))
  {
    var completed := BaseUpdateTags(elements, newTags, where);
    out := if completed then Returned(None) else Threw;
  }
}
