/**
 * src/pages/HomePage.jsx: the home page loads the bundled article list in
 * batches.  `lastEvaluatedIndex` is the cursor; each load takes the slice
 * after it and moves the cursor to the slice's (exclusive) end.  Because
 * the next slice starts one past that end, the element at the end index
 * is never shown: the page shows exactly the indices `i` with
 * `i % 13 != 12`.
 */
module HomePage {
  /** `BATCH_SIZE` (HomePage.jsx line 12). */
  const BatchSize := 12

  function Min(a: int, b: int): int { if a < b then a else b }

  /** How `Array.prototype.slice` reads one bound: negative counts from the end, then clamped to `[0, n]`. */
  function SliceBound(x: int, n: nat): (r: nat)
    ensures r <= n
    ensures 0 <= x <= n ==> r == x
    ensures x > n ==> r == n
  {
    if x < 0 then (if n + x < 0 then 0 else n + x)
    else if x > n then n
    else x
  }

  /** `s.slice(start, end)` */
  function JsSlice<T>(s: seq<T>, start: int, end: int): (r: seq<T>)
    ensures |r| <= |s|
    ensures SliceBound(start, |s|) < SliceBound(end, |s|) ==> r == s[SliceBound(start, |s|)..SliceBound(end, |s|)]
    ensures SliceBound(start, |s|) >= SliceBound(end, |s|) ==> r == []
  {
    var from := SliceBound(start, |s|);
    var to := SliceBound(end, |s|);
    if from < to then s[from..to] else []
  }

  /** What `fetchArticles` resolves to. */
  datatype Fetched<T> = Fetched(newArticles: seq<T>, newLastEvaluatedIndex: int)

  /** `fetchArticles` (HomePage.jsx lines 21-28). */
  function FetchArticles<T>(data: seq<T>, lastEvaluatedIndex: int): (f: Fetched<T>)
    ensures f.newLastEvaluatedIndex <= |data|
    ensures lastEvaluatedIndex >= -1 ==> f.newLastEvaluatedIndex >= 0 && |f.newArticles| <= BatchSize
  {
    var newLast := Min(lastEvaluatedIndex + BatchSize + 1, |data|);
    Fetched(JsSlice(data, lastEvaluatedIndex + 1, newLast), newLast)
  }

  // ---------------------------------------------------------------------
  // Which indices are shown
  // ---------------------------------------------------------------------

  /** The indices below `m` the page shows. */
  function ShownIndices(m: nat): seq<nat> {
    if m == 0 then []
    else ShownIndices(m - 1) + (if (m - 1) % 13 != 12 then [m - 1] else [])
  }

  /** An index below `m` is shown exactly when it is not 12 modulo 13; the indices increase. */
  lemma {:induction false} ShownIndicesMeaning(m: nat)
    ensures forall i :: i in ShownIndices(m) <==> 0 <= i < m && i % 13 != 12
    ensures forall j, k :: 0 <= j < k < |ShownIndices(m)| ==> ShownIndices(m)[j] < ShownIndices(m)[k]
  {
    if m > 0 {
      ShownIndicesMeaning(m - 1);
      var p := ShownIndices(m - 1);
      assert forall j :: 0 <= j < |p| ==> p[j] in p;
    }
  }

  /** The elements of `data[..m]` at the shown indices, in order. */
  function Shown<T>(data: seq<T>, m: nat): seq<T>
    requires m <= |data|
  {
    if m == 0 then []
    else Shown(data, m - 1) + (if (m - 1) % 13 != 12 then [data[m - 1]] else [])
  }

  /** `Shown` picks `data` at `ShownIndices`. */
  lemma {:induction false} ShownMeaning<T>(data: seq<T>, m: nat)
    requires m <= |data|
    ensures |Shown(data, m)| == |ShownIndices(m)|
    ensures forall j :: 0 <= j < |Shown(data, m)| ==> ShownIndices(m)[j] < |data| && Shown(data, m)[j] == data[ShownIndices(m)[j]]
  {
    if m > 0 {
      ShownMeaning(data, m - 1);
      ShownIndicesMeaning(m - 1);
    }
  }

  lemma ModOffset(s: int, j: int)
    requires s >= 0 && s % 13 == 0 && 0 <= j < 13
    ensures (s + j) % 13 == j
  {
    var q := s / 13;
    assert s == 13 * q;
    assert s + j == 13 * q + j;
  }

  lemma ModPeriod(s: int)
    requires s >= 0 && s % 13 == 0
    ensures (s + 13) % 13 == 0
    ensures s > 0 ==> (s - 1) % 13 == 12
  {
    var q := s / 13;
    assert s == 13 * q;
    assert s + 13 == 13 * (q + 1);
    if s > 0 {
      assert s - 1 == 13 * (q - 1) + 12;
    }
  }

  /** Within one run of twelve after a multiple of 13, every index is shown. */
  lemma {:induction false} ShownRun<T>(data: seq<T>, s: nat, m: nat)
    requires s % 13 == 0 && s <= m <= s + BatchSize && m <= |data|
    ensures Shown(data, m) == Shown(data, s) + data[s..m]
  {
    if m > s {
      ShownRun(data, s, m - 1);
      ModOffset(s, m - 1 - s);
      assert data[s..m] == data[s..m - 1] + [data[m - 1]];
    }
  }

  /** A cursor the page can reach: `-1`, the end of the data, or one before a multiple of 13. */
  predicate ReachableCursor(last: int, n: nat) {
    -1 <= last <= n && (last == n || (last + 1) % 13 == 0)
  }

  function Max0(x: int): nat { if x < 0 then 0 else x }

  /**
   * One load from a reachable cursor extends the shown prefix up to the
   * new cursor, which is again reachable.
   */
  lemma FetchExtendsShown<T>(data: seq<T>, last: int)
    requires ReachableCursor(last, |data|)
    ensures var f := FetchArticles(data, last);
      ReachableCursor(f.newLastEvaluatedIndex, |data|) && f.newLastEvaluatedIndex >= 0 &&
      Shown(data, Max0(last)) + f.newArticles == Shown(data, f.newLastEvaluatedIndex)
  {
    var n := |data|;
    var f := FetchArticles(data, last);
    var newLast := f.newLastEvaluatedIndex;
    if last == n {
      assert f.newArticles == [];
    } else {
      var s := last + 1;
      assert f.newArticles == data[s..newLast];
      ShownRun(data, s, newLast);
      ModPeriod(s);
      if last >= 0 {
        assert Shown(data, s) == Shown(data, last);
      }
      if newLast != n {
        assert newLast + 1 == s + 13;
      }
    }
  }

  /**
   * Loading stops only at the end: a load that leaves `hasMore` false
   * has moved the cursor to the length of the data, and a load that
   * keeps it true has moved the cursor forward.
   */
  lemma FetchExhausted<T>(data: seq<T>, last: int)
    requires ReachableCursor(last, |data|)
    ensures var f := FetchArticles(data, last);
      (f.newLastEvaluatedIndex == 0 || |f.newArticles| < BatchSize ==> f.newLastEvaluatedIndex == |data|) &&
      (f.newLastEvaluatedIndex != 0 && |f.newArticles| >= BatchSize ==> f.newLastEvaluatedIndex > last)
  {
  }

  class Home<T> {
    /** The bundled `tech_articles.json`. */
    const data: seq<T>
    var articles: seq<T>
    var lastEvaluatedIndex: int
    var loading: bool
    var hasMore: bool

    /** The shown articles are those at the shown indices below the cursor. */
    ghost predicate Valid()
      reads this
    {
      ReachableCursor(lastEvaluatedIndex, |data|) &&
      articles == Shown(data, Max0(lastEvaluatedIndex))
    }

    /** The initial state (HomePage.jsx lines 15-18). */
    constructor(data: seq<T>)
      ensures Valid()
      ensures this.data == data && articles == [] && lastEvaluatedIndex == -1 && !loading && hasMore
    {
      this.data := data;
      articles := [];
      lastEvaluatedIndex := -1;
      loading := false;
      hasMore := true;
    }

    /** The synchronous start of `loadMoreArticles` (lines 32-33). */
    method BeginLoad() returns (started: bool)
      modifies this
      ensures started == (old(hasMore) && !old(loading))
      ensures loading == (old(loading) || started)
      ensures articles == old(articles) && lastEvaluatedIndex == old(lastEvaluatedIndex) && hasMore == old(hasMore)
    {
      if !hasMore || loading {
        return false;
      }
      loading := true;
      started := true;
    }

    /**
     * The rest of `loadMoreArticles` once `fetchArticles` has resolved
     * (lines 36-47); it only runs after `BeginLoad` started a load.
     */
    method FinishLoad()
      requires Valid() && loading
      modifies this
      ensures Valid() && !loading
      ensures var f := FetchArticles(data, old(lastEvaluatedIndex));
        articles == old(articles) + f.newArticles &&
        lastEvaluatedIndex == f.newLastEvaluatedIndex &&
        hasMore == (f.newLastEvaluatedIndex != 0 && |f.newArticles| >= BatchSize)
      ensures !hasMore ==> lastEvaluatedIndex == |data| && articles == Shown(data, |data|)
      ensures hasMore ==> lastEvaluatedIndex > old(lastEvaluatedIndex)
    {
      FetchExtendsShown(data, lastEvaluatedIndex);
      FetchExhausted(data, lastEvaluatedIndex);
      var f := FetchArticles(data, lastEvaluatedIndex);
      articles := articles + f.newArticles;
      lastEvaluatedIndex := f.newLastEvaluatedIndex;
      hasMore := f.newLastEvaluatedIndex != 0 && |f.newArticles| >= BatchSize;
      loading := false;
    }
  }

  // ---------------------------------------------------------------------
  // The skipped element, and the contiguous paging evidently intended
  // ---------------------------------------------------------------------

  /** The articles and cursor after `k` completed loads from the initial state, as written. */
  function AfterLoads<T>(data: seq<T>, k: nat): (r: (seq<T>, int))
    ensures -1 <= r.1 <= |data|
  {
    if k == 0 then ([], -1)
    else
      var prev := AfterLoads(data, k - 1);
      var f := FetchArticles(data, prev.1);
      (prev.0 + f.newArticles, f.newLastEvaluatedIndex)
  }

  /** As written, `k` loads show the shown indices below `min(13k - 1, n)`. */
  lemma {:induction false} AfterLoadsShown<T>(data: seq<T>, k: nat)
    ensures k == 0 ==> AfterLoads(data, k) == ([], -1)
    ensures k > 0 ==> AfterLoads(data, k).1 == Min(13 * k - 1, |data|)
    ensures AfterLoads(data, k).0 == Shown(data, Max0(AfterLoads(data, k).1))
  {
    if k > 0 {
      AfterLoadsShown(data, k - 1);
      var prev := AfterLoads(data, k - 1);
      assert ReachableCursor(prev.1, |data|) by {
        if k - 1 > 0 && prev.1 != |data| {
          assert prev.1 + 1 == 13 * (k - 1);
        }
      }
      FetchExtendsShown(data, prev.1);
    }
  }

  /** Thirty articles: three loads show 28 of them and never indices 12 and 25. */
  lemma ThirtyArticlesSkipTwo()
    ensures var data := seq(30, i => i);
      var r := AfterLoads(data, 3);
      r.0 == data[..12] + data[13..25] + data[26..] &&
      12 !in r.0 && 25 !in r.0 && |r.0| == 28
  {
    var data := seq(30, i => i);
    assert AfterLoads(data, 0) == ([], -1);
    var f1 := FetchArticles(data, -1);
    assert f1.newLastEvaluatedIndex == 12 && f1.newArticles == data[0..12];
    var r1 := AfterLoads(data, 1);
    assert r1 == ([] + data[0..12], 12);
    var f2 := FetchArticles(data, 12);
    assert f2.newLastEvaluatedIndex == 25 && f2.newArticles == data[13..25];
    var r2 := AfterLoads(data, 2);
    assert r2 == (r1.0 + data[13..25], 25);
    var f3 := FetchArticles(data, 25);
    assert f3.newLastEvaluatedIndex == 30 && f3.newArticles == data[26..30];
    var r := AfterLoads(data, 3);
    assert r == (r2.0 + data[26..30], 30);
    assert data[..12] == data[0..12] && data[26..] == data[26..30];
    assert r.0 == data[..12] + data[13..25] + data[26..];
    assert forall x :: x in r.0 ==> x in data[..12] || x in data[13..25] || x in data[26..];
  }

  /** The intended paging: the cursor is the next index to show. */
  function FixedFetch<T>(data: seq<T>, next: nat): (f: Fetched<T>)
    requires next <= |data|
    ensures next <= f.newLastEvaluatedIndex <= |data|
    ensures f.newArticles == data[next..f.newLastEvaluatedIndex]
  {
    var newNext := Min(next + BatchSize, |data|);
    Fetched(data[next..newNext], newNext)
  }

  /** The articles and cursor after `k` loads with the intended paging. */
  function FixedAfterLoads<T>(data: seq<T>, k: nat): (r: (seq<T>, nat))
    ensures r.1 <= |data|
  {
    if k == 0 then ([], 0)
    else
      var prev := FixedAfterLoads(data, k - 1);
      var f := FixedFetch(data, prev.1);
      (prev.0 + f.newArticles, f.newLastEvaluatedIndex)
  }

  /** With the intended paging, `k` loads show exactly the first `min(12k, n)` articles. */
  lemma {:induction false} FixedAfterLoadsPrefix<T>(data: seq<T>, k: nat)
    ensures FixedAfterLoads(data, k).1 == Min(BatchSize * k, |data|)
    ensures FixedAfterLoads(data, k).0 == data[..FixedAfterLoads(data, k).1]
  {
    if k > 0 {
      FixedAfterLoadsPrefix(data, k - 1);
      var prev := FixedAfterLoads(data, k - 1);
      var f := FixedFetch(data, prev.1);
      assert data[..prev.1] + data[prev.1..f.newLastEvaluatedIndex] == data[..f.newLastEvaluatedIndex];
    }
  }
}
