/**
 * src/context/TagColorContext.js: the colour map built from the tag list.
 * The palette is shuffled once (with the random choices given as a
 * parameter), then the tag at index `i` gets palette entry `i mod n`.
 */
module TagColor {
  import opened Wrappers
  import opened AppContext
  import DataUtils

  /** Colour of each tag name; `None` is `undefined` (an empty palette). */
  type ColorMap = map<string, Option<string>>

  /** `shuffledColors[index % shuffledColors.length]`: `undefined` when the palette is empty. */
  function ColorAt(shuffled: seq<string>, index: nat): (c: Option<string>)
    ensures shuffled == [] <==> c.None?
    ensures c.Some? ==> c.value == shuffled[index % |shuffled|] && c.value in shuffled
  {
    if shuffled == [] then None else Some(shuffled[index % |shuffled|])
  }

  /** The map after the loop has visited `tags`, in order (later entries overwrite). */
  function ColorMapOf(tags: seq<TagCount>, shuffled: seq<string>): ColorMap {
    if tags == [] then map[]
    else ColorMapOf(tags[..|tags| - 1], shuffled)[tags[|tags| - 1].name := ColorAt(shuffled, |tags| - 1)]
  }

  /** Every tag name gets an entry, and no other key does. */
  lemma {:induction false} ColorMapKeys(tags: seq<TagCount>, shuffled: seq<string>, name: string)
    ensures name in ColorMapOf(tags, shuffled) <==> exists i :: 0 <= i < |tags| && tags[i].name == name
  {
    if tags != [] {
      var n := |tags| - 1;
      ColorMapKeys(tags[..n], shuffled, name);
      if name in ColorMapOf(tags[..n], shuffled) {
        var i :| 0 <= i < n && tags[..n][i].name == name;
        assert tags[i].name == name;
      }
      if exists i :: 0 <= i < |tags| && tags[i].name == name {
        var i :| 0 <= i < |tags| && tags[i].name == name;
        if i < n {
          assert tags[..n][i].name == name;
        }
      }
    }
  }

  /** A name's colour is that of its last index. */
  lemma {:induction false} ColorMapLastWins(tags: seq<TagCount>, shuffled: seq<string>, i: nat)
    requires i < |tags|
    requires forall k :: i < k < |tags| ==> tags[k].name != tags[i].name
    ensures tags[i].name in ColorMapOf(tags, shuffled)
    ensures ColorMapOf(tags, shuffled)[tags[i].name] == ColorAt(shuffled, i)
  {
    var n := |tags| - 1;
    if i < n {
      assert forall k :: i < k < n ==> tags[..n][k] == tags[k];
      ColorMapLastWins(tags[..n], shuffled, i);
      assert tags[..n][i] == tags[i];
    }
  }

  /** With a non-empty palette, a name at index `i` that does not recur later gets `shuffled[i mod n]`. */
  lemma TagAtIndexColor(tags: seq<TagCount>, shuffled: seq<string>, i: nat)
    requires i < |tags| && shuffled != []
    requires forall k :: i < k < |tags| ==> tags[k].name != tags[i].name
    ensures tags[i].name in ColorMapOf(tags, shuffled)
    ensures ColorMapOf(tags, shuffled)[tags[i].name] == Some(shuffled[i % |shuffled|])
  {
    ColorMapLastWins(tags, shuffled, i);
  }

  lemma MulAtLeast(n: int, k: int)
    requires n > 0 && k >= 1
    ensures n * k >= n
  {
    if k > 1 {
      MulAtLeast(n, k - 1);
      assert n * k == n * (k - 1) + n;
    }
  }

  lemma SmallMultipleIsZero(n: int, k: int)
    requires n > 0 && -n < n * k < n
    ensures k == 0
  {
    if k >= 1 {
      MulAtLeast(n, k);
    } else if k <= -1 {
      MulAtLeast(n, -k);
    }
  }

  /** Colours repeat with the period of the palette. */
  lemma ColorsCycle(shuffled: seq<string>, i: nat)
    requires shuffled != []
    ensures ColorAt(shuffled, i + |shuffled|) == ColorAt(shuffled, i)
  {
    var n := |shuffled|;
    var a := (i + n) / n;
    var c := i / n;
    assert i + n == n * a + (i + n) % n;
    assert i == n * c + i % n;
    assert n * (a - c - 1) == n * a - n * c - n;
    SmallMultipleIsZero(n, a - c - 1);
  }

  /**
   * The `useMemo` body (TagColorContext.js lines 12-19): shuffle the
   * palette, then assign colours in a loop over the tags.
   */
  method BuildTagColorMap(tags: seq<TagCount>, tagColors: seq<string>, picks: seq<nat>)
    returns (colorMap: ColorMap, shuffledColors: seq<string>)
    requires DataUtils.ValidPicks(|tagColors|, picks)
    ensures shuffledColors == DataUtils.Shuffled(tagColors, picks)
    ensures multiset(shuffledColors) == multiset(tagColors)
    ensures colorMap == ColorMapOf(tags, shuffledColors)
  {
    var shuffled := DataUtils.ShuffleArray(tagColors, picks);
    shuffledColors := shuffled[..];
    colorMap := map[];
    var index := 0;
    while index < |tags|
      invariant 0 <= index <= |tags|
      invariant colorMap == ColorMapOf(tags[..index], shuffledColors)
    {
      var color := if shuffled.Length == 0 then None else Some(shuffled[index % shuffled.Length]);
      colorMap := colorMap[tags[index].name := color];
      assert tags[..index + 1][..index] == tags[..index];
      index := index + 1;
    }
    assert tags[..index] == tags;
  }
}
