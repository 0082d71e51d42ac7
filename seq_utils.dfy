/** Sequence helpers shared by the modules: duplicate removal as `new Set(...)` does it. */
module SeqUtils {

  predicate NoDuplicates<T(==)>(s: seq<T>) {
    forall i, j :: 0 <= i < j < |s| ==> s[i] != s[j]
  }

  /**
   * `[...new Set(s)]`: the distinct elements of `s`, each at its first
   * occurrence, in order.
   */
  function Distinct<T(==)>(s: seq<T>): seq<T> {
    if s == [] then []
    else if s[|s| - 1] in s[..|s| - 1] then Distinct(s[..|s| - 1])
    else Distinct(s[..|s| - 1]) + [s[|s| - 1]]
  }

  /** `Distinct` keeps every element that occurs, and each exactly once. */
  lemma {:induction false} DistinctMeaning<T>(s: seq<T>)
    ensures forall x :: x in Distinct(s) <==> x in s
    ensures NoDuplicates(Distinct(s))
  {
    if s != [] {
      var init := s[..|s| - 1];
      DistinctMeaning(init);
      assert s == init + [s[|s| - 1]];
    }
  }

  /** A sequence without duplicates is its own `Distinct`. */
  lemma {:induction false} DistinctOfDistinctFree<T>(s: seq<T>)
    requires NoDuplicates(s)
    ensures Distinct(s) == s
  {
    if s != [] {
      var init := s[..|s| - 1];
      DistinctOfDistinctFree(init);
      assert s == init + [s[|s| - 1]];
    }
  }

  /** Appending elements that already occur adds nothing. */
  lemma {:induction false} DistinctAbsorbs<T>(a: seq<T>, b: seq<T>)
    requires forall x :: x in b ==> x in a
    ensures Distinct(a + b) == Distinct(a)
  {
    if b != [] {
      var init := b[..|b| - 1];
      DistinctAbsorbs(a, init);
      assert a + b == (a + init) + [b[|b| - 1]];
      assert (a + b)[..|a + b| - 1] == a + init;
    } else {
      assert a + b == a;
    }
  }

  /** The distinct elements of `a` come first, in their order, in those of `a + b`. */
  lemma {:induction false} DistinctPrefix<T>(a: seq<T>, b: seq<T>)
    ensures |Distinct(a)| <= |Distinct(a + b)|
    ensures Distinct(a + b)[..|Distinct(a)|] == Distinct(a)
  {
    if b == [] {
      assert a + b == a;
    } else {
      var init := b[..|b| - 1];
      DistinctPrefix(a, init);
      assert a + b == (a + init) + [b[|b| - 1]];
      assert (a + b)[..|a + b| - 1] == a + init;
    }
  }
}
