/**
 * src/utils/dataUtils.js: the Fisher-Yates shuffle (with the random choices
 * supplied by the caller) and the tag counter.
 */
module DataUtils {
  import opened Articles

  // ---------------------------------------------------------------------
  // shuffleArray
  // ---------------------------------------------------------------------

  /**
   * Choices a uniform random source could make: at step `k` (which handles
   * index `i = n - 1 - k`) the swap partner is at most `i`.
   */
  predicate ValidPicks(n: nat, picks: seq<nat>) {
    |picks| >= n - 1 && forall k :: 0 <= k < n - 1 ==> picks[k] <= n - 1 - k
  }

  /** Exchange the entries at `i` and `j`. */
  function Swap<T>(s: seq<T>, i: nat, j: nat): (r: seq<T>)
    requires i < |s| && j < |s|
    ensures |r| == |s|
  {
    s[i := s[j]][j := s[i]]
  }

  /** A swap exchanges two entries, keeps the rest and the multiset. */
  lemma SwapMeaning<T>(s: seq<T>, i: nat, j: nat)
    requires i < |s| && j < |s|
    ensures multiset(Swap(s, i, j)) == multiset(s)
    ensures Swap(s, i, j)[i] == s[j] && Swap(s, i, j)[j] == s[i]
    ensures forall k :: 0 <= k < |s| && k != i && k != j ==> Swap(s, i, j)[k] == s[k]
  {
  }

  /** The swaps for indices `i` down to 1 on a sequence of length `n`. */
  function ShuffleFrom<T>(s: seq<T>, i: nat, picks: seq<nat>): seq<T>
    requires i < |s| || i == 0
    requires ValidPicks(|s|, picks)
    decreases i
  {
    if i == 0 then s
    else ShuffleFrom(Swap(s, i, picks[|s| - 1 - i]), i - 1, picks)
  }

  /** The result of `shuffleArray(s)` under the choices `picks`. */
  function Shuffled<T>(s: seq<T>, picks: seq<nat>): seq<T>
    requires ValidPicks(|s|, picks)
  {
    if |s| == 0 then s else ShuffleFrom(s, |s| - 1, picks)
  }

  lemma {:induction false} ShuffleFromPermutes<T>(s: seq<T>, i: nat, picks: seq<nat>)
    requires i < |s| || i == 0
    requires ValidPicks(|s|, picks)
    ensures |ShuffleFrom(s, i, picks)| == |s|
    ensures multiset(ShuffleFrom(s, i, picks)) == multiset(s)
    decreases i
  {
    if i > 0 {
      SwapMeaning(s, i, picks[|s| - 1 - i]);
      ShuffleFromPermutes(Swap(s, i, picks[|s| - 1 - i]), i - 1, picks);
    }
  }

  /** Whatever the choices, the shuffle is a permutation of its input. */
  lemma ShuffledPermutes<T>(s: seq<T>, picks: seq<nat>)
    requires ValidPicks(|s|, picks)
    ensures |Shuffled(s, picks)| == |s|
    ensures multiset(Shuffled(s, picks)) == multiset(s)
  {
    if |s| > 0 {
      ShuffleFromPermutes(s, |s| - 1, picks);
    }
  }

  /** Arrays of length 0 or 1 come back as they were. */
  lemma ShortUnchanged<T>(s: seq<T>, picks: seq<nat>)
    requires |s| <= 1 && ValidPicks(|s|, picks)
    ensures Shuffled(s, picks) == s
  {
  }

  /**
   * `shuffleArray` (dataUtils.js lines 1-8): copy the input, then swap in
   * place from the last index down to 1.  The input is a value, so the
   * caller's array is untouched.
   */
  method ShuffleArray<T>(s: seq<T>, picks: seq<nat>) returns (shuffled: array<T>)
    requires ValidPicks(|s|, picks)
    ensures fresh(shuffled)
    ensures shuffled[..] == Shuffled(s, picks)
    ensures multiset(shuffled[..]) == multiset(s)
  {
    shuffled := new T[|s|](k requires 0 <= k < |s| => s[k]);
    assert shuffled[..] == s;
    var i := shuffled.Length - 1;
    while i > 0
      invariant -1 <= i < |s|
      invariant |s| > 0 ==> 0 <= i
      invariant shuffled.Length == |s|
      invariant ShuffleFrom(shuffled[..], if i < 0 then 0 else i, picks) == Shuffled(s, picks)
    {
      var j := picks[|s| - 1 - i];
      ghost var before := shuffled[..];
      assert ShuffleFrom(before, i, picks) == ShuffleFrom(Swap(before, i, j), i - 1, picks);
      shuffled[i], shuffled[j] := shuffled[j], shuffled[i];
      assert shuffled[..] == Swap(before, i, j);
      i := i - 1;
    }
    ShuffledPermutes(s, picks);
  }

  // ---------------------------------------------------------------------
  // getTagsCount
  // ---------------------------------------------------------------------

  /**
   * The inner loop of `getTagsCount`: count one element's tags on top of
   * the counts of the tags seen so far.
   */
  method CountTags(counts0: map<string, nat>, ghost seen: seq<string>, tags: seq<string>)
    returns (counts: map<string, nat>)
    requires counts0 == TagCounts(seen)
    ensures counts == TagCounts(seen + tags)
  {
    counts := counts0;
    var j := 0;
    while j < |tags|
      invariant 0 <= j <= |tags|
      invariant counts == TagCounts(seen + tags[..j])
    {
      var tag := tags[j];
      TagCountsSnoc(seen + tags[..j], tag);
      if tag in counts {
        counts := counts[tag := counts[tag] + 1];
      } else {
        counts := counts[tag := 1];
      }
      assert seen + tags[..j + 1] == (seen + tags[..j]) + [tag];
      j := j + 1;
    }
    assert tags[..j] == tags;
  }

  /**
   * `getTagsCount` (dataUtils.js lines 10-22): each tag that occurs maps to
   * its number of occurrences over all elements' tag lists.
   */
  method GetTagsCount(elements: seq<Article>) returns (counts: map<string, nat>)
    ensures counts == TagCounts(AllTags(elements))
    ensures counts.Keys == set t | t in AllTags(elements)
    ensures forall t :: t in counts ==> counts[t] == multiset(AllTags(elements))[t] >= 1
  {
    counts := map[];
    var i := 0;
    while i < |elements|
      invariant 0 <= i <= |elements|
      invariant counts == TagCounts(AllTags(elements[..i]))
    {
      counts := CountTags(counts, AllTags(elements[..i]), elements[i].tags);
      assert elements[..i + 1][..i] == elements[..i];
      i := i + 1;
    }
    assert elements[..i] == elements;
    TagCountsMeaning(AllTags(elements));
  }
}
