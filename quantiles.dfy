/**
 * The scoring primitives of rfm_dashboard.py:81-89: `pd.qcut` into four
 * quantile bins with a fallback label, and `Series.rank(method="first")`.
 *
 * Quantile edges use linear interpolation on the sorted values at
 * q = 0, 1/4, 2/4, 3/4, 1. Multiplying every edge by 4 makes them exact
 * integers, so the model compares `4 * x` with the scaled edges.
 */
module Quantiles {
  import opened Wrappers

  predicate SortedAsc(s: seq<int>) {
    forall i, j :: 0 <= i < j < |s| ==> s[i] <= s[j]
  }

  predicate Increasing(s: seq<int>) {
    forall i, j :: 0 <= i < j < |s| ==> s[i] < s[j]
  }

  predicate Distinct(s: seq<int>) {
    forall i, j :: 0 <= i < j < |s| ==> s[i] != s[j]
  }

  /** Insert `x` before the first element that is not smaller than it. */
  function InsertAsc(s: seq<int>, x: int): (r: seq<int>)
    ensures |r| == |s| + 1
  {
    if s == [] || x <= s[0] then [x] + s else [s[0]] + InsertAsc(s[1..], x)
  }

  /** Inserting into a sorted sequence keeps it sorted; the head is `x` or the old head. */
  lemma {:induction false} InsertAscSorted(s: seq<int>, x: int)
    requires SortedAsc(s)
    ensures var r := InsertAsc(s, x);
      SortedAsc(r) && (r[0] == x || (s != [] && r[0] == s[0]))
  {
    if s != [] && x > s[0] {
      InsertAscSorted(s[1..], x);
      var rest := InsertAsc(s[1..], x);
      assert s[0] <= rest[0];
      assert forall k :: 0 <= k < |rest| ==> rest[0] <= rest[k];
    }
  }

  /** Inserting adds exactly one occurrence of `x`. */
  lemma {:induction false} InsertAscPermutes(s: seq<int>, x: int)
    ensures multiset(InsertAsc(s, x)) == multiset(s) + multiset{x}
  {
    if s != [] && x > s[0] {
      InsertAscPermutes(s[1..], x);
      assert s == [s[0]] + s[1..];
    }
  }

  /** The values in ascending order (what quantile computation sorts internally). */
  function SortAsc(s: seq<int>): (r: seq<int>)
    ensures |r| == |s|
  {
    if s == [] then [] else InsertAsc(SortAsc(s[1..]), s[0])
  }

  /** The sorted copy is in ascending order. */
  lemma {:induction false} SortAscSorted(s: seq<int>)
    ensures SortedAsc(SortAsc(s))
  {
    if s != [] {
      SortAscSorted(s[1..]);
      InsertAscSorted(SortAsc(s[1..]), s[0]);
    }
  }

  /** Sorting is a permutation: the sorted copy holds the same values, as often. */
  lemma {:induction false} SortAscPermutes(s: seq<int>)
    ensures multiset(SortAsc(s)) == multiset(s)
  {
    if s != [] {
      SortAscPermutes(s[1..]);
      InsertAscPermutes(SortAsc(s[1..]), s[0]);
      assert s == [s[0]] + s[1..];
    }
  }

  /**
   * Four times the linearly interpolated value at fractional position p / 4
   * of a sorted sequence (position 0 is the first element, |sorted| - 1 the last):
   * an element itself at a whole position, otherwise a value between the two
   * elements around the position.
   */
  function ScaledQuantile(sorted: seq<int>, p: nat): (q: int)
    requires 1 <= |sorted| && p <= 4 * (|sorted| - 1)
    ensures p % 4 == 0 ==> q == 4 * sorted[p / 4]
    ensures p % 4 != 0 ==>
      && p / 4 + 1 < |sorted|
      && ((4 * sorted[p / 4] <= q <= 4 * sorted[p / 4 + 1]) || (4 * sorted[p / 4 + 1] <= q <= 4 * sorted[p / 4]))
  {
    var lo := p / 4;
    var frac := p % 4;
    if frac == 0 then 4 * sorted[lo]
    else
      // frac * (sorted[lo + 1] - sorted[lo]), written without a product of unknowns
      var gap := sorted[lo + 1] - sorted[lo];
      4 * sorted[lo] + (if frac == 1 then gap else if frac == 2 then 2 * gap else 3 * gap)
  }

  /** Four times the quantiles at q = 0, 1/4, 1/2, 3/4, 1 of a sorted sequence. */
  function QuartileEdges(sorted: seq<int>): (edges: seq<int>)
    requires 1 <= |sorted|
    ensures |edges| == 5
    ensures edges[0] == 4 * sorted[0] && edges[4] == 4 * sorted[|sorted| - 1]
  {
    var m := |sorted| - 1;
    [ScaledQuantile(sorted, 0), ScaledQuantile(sorted, m), ScaledQuantile(sorted, 2 * m),
     ScaledQuantile(sorted, 3 * m), ScaledQuantile(sorted, 4 * m)]
  }

  /**
   * The bin of value `x` between five edges (already scaled by 4): bins are
   * closed on the right, and a value on the lowest edge falls in bin 1.
   */
  function Bucket(x: int, edges: seq<int>): (b: int)
    requires |edges| == 5
    ensures 1 <= b <= 4
    ensures (b == 4 || 4 * x <= edges[b]) && (b == 1 || edges[b - 1] < 4 * x)
  {
    if 4 * x <= edges[1] then 1
    else if 4 * x <= edges[2] then 2
    else if 4 * x <= edges[3] then 3
    else 4
  }

  /** Each value replaced by the label of its bin. */
  function Binned(values: seq<int>, edges: seq<int>, labels: seq<int>): (r: seq<int>)
    requires |edges| == 5 && |labels| == 4
    ensures |r| == |values|
    ensures forall i :: 0 <= i < |values| ==> r[i] == labels[Bucket(values[i], edges) - 1]
  {
    seq(|values|, i requires 0 <= i < |values| => labels[Bucket(values[i], edges) - 1])
  }

  /**
   * `pd.qcut(values, 4, labels=labels, duplicates="drop")`. With duplicate
   * edges, dropping them leaves fewer than four bins for four labels and
   * pandas raises; an empty input has no edges and raises too. `None` is the
   * raised error.
   */
  function QCut(values: seq<int>, labels: seq<int>): (r: Option<seq<int>>)
    requires |labels| == 4
    ensures r.Some? ==> |r.value| == |values| && forall i :: 0 <= i < |values| ==> r.value[i] in labels
  {
    if values == [] then None
    else
      var edges := QuartileEdges(SortAsc(values));
      if edges[0] < edges[1] < edges[2] < edges[3] < edges[4] then
        Some(Binned(values, edges, labels))
      else None
  }

  /** `safe_qcut`: the qcut labels, or `labels[0]` for every row when qcut raises. */
  function SafeQCut(values: seq<int>, labels: seq<int>): (r: seq<int>)
    requires |labels| == 4
    ensures |r| == |values|
    ensures forall i :: 0 <= i < |r| ==> r[i] in labels
    ensures QCut(values, labels).None? ==> forall i :: 0 <= i < |r| ==> r[i] == labels[0]
  {
    match QCut(values, labels)
    case Some(scores) => scores
    case None => seq(|values|, _ => labels[0])
  }

  /** Where binning succeeds, each value gets the label of its bin. */
  lemma {:induction false} QCutAt(values: seq<int>, labels: seq<int>, i: int)
    requires |labels| == 4 && QCut(values, labels).Some? && 0 <= i < |values|
    ensures var edges := QuartileEdges(SortAsc(values));
      && edges[0] < edges[1] < edges[2] < edges[3] < edges[4]
      && QCut(values, labels).value[i] == labels[Bucket(values[i], edges) - 1]
  {
  }

  /** The sorted copy holds exactly the values. */
  lemma {:induction false} SortedMembers(values: seq<int>)
    ensures forall x :: x in SortAsc(values) <==> x in values
  {
    SortAscPermutes(values);
    forall x ensures x in SortAsc(values) <==> x in values {
      assert x in SortAsc(values) <==> x in multiset(SortAsc(values));
      assert x in values <==> x in multiset(values);
    }
  }

  /** The first and last elements of the sorted copy are the minimum and maximum of the values. */
  lemma {:induction false} SortedEnds(values: seq<int>)
    requires values != []
    ensures var sorted := SortAsc(values);
      && sorted[0] in values && sorted[|sorted| - 1] in values
      && forall j :: 0 <= j < |values| ==> sorted[0] <= values[j] <= sorted[|sorted| - 1]
  {
    var sorted := SortAsc(values);
    SortedMembers(values);
    SortAscSorted(values);
    assert sorted[0] in sorted && sorted[|sorted| - 1] in sorted;
    forall j | 0 <= j < |values|
      ensures sorted[0] <= values[j] <= sorted[|sorted| - 1]
    {
      assert values[j] in values;
      var k :| 0 <= k < |sorted| && sorted[k] == values[j];
    }
  }

  /** Moving right along a sorted sequence never lowers the interpolated quantile. */
  lemma {:induction false} ScaledQuantileMonotone(sorted: seq<int>, p: nat, q: nat)
    requires 1 <= |sorted| && SortedAsc(sorted) && p <= q <= 4 * (|sorted| - 1)
    ensures ScaledQuantile(sorted, p) <= ScaledQuantile(sorted, q)
  {
    var lo, hi := p / 4, q / 4;
    var fp, fq := p % 4, q % 4;
    if lo < hi {
      assert ScaledQuantile(sorted, p) <= 4 * sorted[lo + 1] by {
        if fp != 0 {
          var d := sorted[lo + 1] - sorted[lo];
          assert 0 <= d;
          assert fp * d <= 4 * d by { if fp == 1 {} else if fp == 2 {} else {} }
        }
      }
      assert 4 * sorted[lo + 1] <= 4 * sorted[hi] <= ScaledQuantile(sorted, q) by {
        if fq != 0 {
          assert 0 <= fq * (sorted[hi + 1] - sorted[hi]);
        }
      }
    } else if fp != fq {
      var d := sorted[lo + 1] - sorted[lo];
      assert 0 <= d;
      assert fp * d <= fq * d by {
        if fq == 2 {} else if fq == 3 {}
      }
    }
  }

  /** On strictly increasing data, moving right strictly raises the interpolated quantile. */
  lemma {:induction false} ScaledQuantileIncreasing(sorted: seq<int>, p: nat, q: nat)
    requires 1 <= |sorted| && Increasing(sorted) && p < q <= 4 * (|sorted| - 1)
    ensures ScaledQuantile(sorted, p) < ScaledQuantile(sorted, q)
  {
    var lo, hi := p / 4, q / 4;
    var fp, fq := p % 4, q % 4;
    if lo < hi {
      assert ScaledQuantile(sorted, p) < 4 * sorted[lo + 1] by {
        if fp != 0 {
          var d := sorted[lo + 1] - sorted[lo];
          assert 0 < d;
          assert fp * d < 4 * d by { if fp == 1 {} else if fp == 2 {} else {} }
        }
      }
      assert 4 * sorted[lo + 1] <= 4 * sorted[hi] <= ScaledQuantile(sorted, q) by {
        if lo + 1 < hi {}
        if fq != 0 {
          assert 0 <= fq * (sorted[hi + 1] - sorted[hi]);
        }
      }
    } else {
      var d := sorted[lo + 1] - sorted[lo];
      assert 0 < d;
      assert fp * d < fq * d by {
        if fq == 1 {} else if fq == 2 {} else {}
      }
    }
  }

  /** A value no larger than another never lands in a later bin, so its label follows the label order. */
  lemma {:induction false} BinsFollowValues(x: int, y: int, edges: seq<int>, labels: seq<int>)
    requires |edges| == 5 && |labels| == 4 && x <= y
    requires edges[0] < edges[1] < edges[2] < edges[3] < edges[4]
    ensures Bucket(x, edges) <= Bucket(y, edges)
    ensures SortedAsc(labels) ==> labels[Bucket(x, edges) - 1] <= labels[Bucket(y, edges) - 1]
    ensures (forall a, b :: 0 <= a < b < 4 ==> labels[a] >= labels[b]) ==>
      labels[Bucket(x, edges) - 1] >= labels[Bucket(y, edges) - 1]
  {
  }

  /**
   * Scores never go against the values: with ascending labels a larger value
   * never gets a lower score, with descending labels never a higher one.
   */
  lemma {:induction false} SafeQCutMonotone(values: seq<int>, labels: seq<int>, i: int, j: int)
    requires |labels| == 4 && 0 <= i < |values| && 0 <= j < |values| && values[i] <= values[j]
    ensures SortedAsc(labels) ==> SafeQCut(values, labels)[i] <= SafeQCut(values, labels)[j]
    ensures (forall a, b :: 0 <= a < b < 4 ==> labels[a] >= labels[b]) ==>
      SafeQCut(values, labels)[i] >= SafeQCut(values, labels)[j]
  {
    if QCut(values, labels).Some? {
      QCutAt(values, labels, i);
      QCutAt(values, labels, j);
      BinsFollowValues(values[i], values[j], QuartileEdges(SortAsc(values)), labels);
    }
  }

  /**
   * When binning succeeds, the smallest value gets the first label and the
   * largest value the last one: every bin boundary lies inside the data.
   */
  lemma {:induction false} QCutExtremes(values: seq<int>, labels: seq<int>, i: int)
    requires |labels| == 4 && QCut(values, labels).Some? && 0 <= i < |values|
    ensures (forall j :: 0 <= j < |values| ==> values[i] <= values[j]) ==>
      QCut(values, labels).value[i] == labels[0]
    ensures (forall j :: 0 <= j < |values| ==> values[j] <= values[i]) ==>
      QCut(values, labels).value[i] == labels[3]
  {
    var sorted := SortAsc(values);
    QCutAt(values, labels, i);
    SortedEnds(values);
    var edges := QuartileEdges(sorted);
    if forall j :: 0 <= j < |values| ==> values[i] <= values[j] {
      var k :| 0 <= k < |values| && values[k] == sorted[0];
      assert 4 * values[i] == edges[0];
    }
    if forall j :: 0 <= j < |values| ==> values[j] <= values[i] {
      var k :| 0 <= k < |values| && values[k] == sorted[|sorted| - 1];
      assert 4 * values[i] == edges[4];
    }
  }

  /** When every value is the same, all edges coincide, qcut raises and the fallback applies. */
  lemma {:induction false} QCutConstantFails(values: seq<int>, labels: seq<int>)
    requires |labels| == 4 && values != []
    requires forall i :: 0 <= i < |values| ==> values[i] == values[0]
    ensures QCut(values, labels).None?
    ensures forall i :: 0 <= i < |values| ==> SafeQCut(values, labels)[i] == labels[0]
  {
    var sorted := SortAsc(values);
    SortedEnds(values);
    SortAscSorted(values);
    assert sorted[0] == sorted[|sorted| - 1];
    ScaledQuantileMonotone(sorted, 0, |sorted| - 1);
    ScaledQuantileMonotone(sorted, |sorted| - 1, 4 * (|sorted| - 1));
  }

  /** A value that occurs at two positions occurs at least twice in the multiset. */
  lemma {:induction false} TwoOccurrences(s: seq<int>, i: int, j: int)
    requires 0 <= i < j < |s| && s[i] == s[j]
    ensures multiset(s)[s[i]] >= 2
  {
    assert s == s[..j] + s[j..];
    assert s[i] in s[..j] && s[j] in s[j..];
  }

  /** Pairwise distinct values occur at most once each. */
  lemma {:induction false} DistinctMultiplicity(s: seq<int>, x: int)
    requires Distinct(s)
    ensures multiset(s)[x] <= 1
  {
    if s != [] {
      assert s == [s[0]] + s[1..];
      DistinctMultiplicity(s[1..], x);
      if s[0] == x {
        assert x !in s[1..];
      }
    }
  }

  /** Sorting pairwise distinct values gives a strictly increasing sequence. */
  lemma {:induction false} DistinctSortsIncreasing(values: seq<int>)
    requires Distinct(values)
    ensures Increasing(SortAsc(values))
  {
    var sorted := SortAsc(values);
    SortAscSorted(values);
    forall i, j | 0 <= i < j < |sorted| ensures sorted[i] < sorted[j] {
      if sorted[i] == sorted[j] {
        SortAscPermutes(values);
        TwoOccurrences(sorted, i, j);
        DistinctMultiplicity(values, sorted[i]);
        assert false;
      }
    }
  }

  /** The quartile edges of strictly increasing data (two values or more) are strictly increasing. */
  lemma {:induction false} EdgesIncreasing(sorted: seq<int>)
    requires 2 <= |sorted| && Increasing(sorted)
    ensures var edges := QuartileEdges(sorted);
      edges[0] < edges[1] < edges[2] < edges[3] < edges[4]
  {
    var m := |sorted| - 1;
    ScaledQuantileIncreasing(sorted, 0, m);
    ScaledQuantileIncreasing(sorted, m, 2 * m);
    ScaledQuantileIncreasing(sorted, 2 * m, 3 * m);
    ScaledQuantileIncreasing(sorted, 3 * m, 4 * m);
  }

  /** Binning pairwise distinct values never raises once there are at least two of them. */
  lemma {:induction false} QCutDistinctSucceeds(values: seq<int>, labels: seq<int>)
    requires |labels| == 4 && 2 <= |values| && Distinct(values)
    ensures QCut(values, labels).Some?
  {
    DistinctSortsIncreasing(values);
    EdgesIncreasing(SortAsc(values));
  }

  /**
   * Position `j` comes before position `i` in `rank(method="first")`:
   * a smaller value, or the same value earlier in the series.
   */
  predicate RankedBefore(v: seq<int>, j: int, i: int)
    requires 0 <= j < |v| && 0 <= i < |v|
  {
    v[j] < v[i] || (v[j] == v[i] && j < i)
  }

  /** How many of the first `k` positions come before position `i`. */
  function CountRankedBefore(v: seq<int>, i: int, k: int): nat
    requires 0 <= i < |v| && 0 <= k <= |v|
  {
    if k == 0 then 0
    else CountRankedBefore(v, i, k - 1) + (if RankedBefore(v, k - 1, i) then 1 else 0)
  }

  /** `Series.rank(method="first")`: one plus the number of positions ranked before. */
  function RankFirst(v: seq<int>): (r: seq<int>)
    ensures |r| == |v|
  {
    seq(|v|, i requires 0 <= i < |v| => CountRankedBefore(v, i, |v|) + 1)
  }

  /** A position is never ranked before itself, so at most k - 1 of the first k precede it. */
  lemma {:induction false} CountRankedBeforeBound(v: seq<int>, i: int, k: int)
    requires 0 <= i < |v| && 0 <= k <= |v|
    ensures CountRankedBefore(v, i, k) + (if i < k then 1 else 0) <= k
  {
    if k > 0 {
      CountRankedBeforeBound(v, i, k - 1);
    }
  }

  /** If `i` is ranked before `i2`, everything before `i` is before `i2`, and so is `i` itself. */
  lemma {:induction false} CountRankedBeforeGrows(v: seq<int>, i: int, i2: int, k: int)
    requires 0 <= i < |v| && 0 <= i2 < |v| && 0 <= k <= |v| && RankedBefore(v, i, i2)
    ensures CountRankedBefore(v, i, k) + (if i < k then 1 else 0) <= CountRankedBefore(v, i2, k)
  {
    if k > 0 {
      CountRankedBeforeGrows(v, i, i2, k - 1);
    }
  }

  /**
   * `rank(method="first")` orders positions by value, ties by position, and
   * uses the ranks 1..n: each rank is in range and no two positions share one.
   */
  lemma {:induction false} RankFirstOrders(v: seq<int>)
    ensures var r := RankFirst(v);
      && (forall i :: 0 <= i < |v| ==> 1 <= r[i] <= |v|)
      && (forall i, j :: 0 <= i < |v| && 0 <= j < |v| && RankedBefore(v, i, j) ==> r[i] < r[j])
      && Distinct(r)
  {
    var r := RankFirst(v);
    forall i | 0 <= i < |v| ensures 1 <= r[i] <= |v| {
      CountRankedBeforeBound(v, i, |v|);
    }
    forall i, j | 0 <= i < |v| && 0 <= j < |v| && RankedBefore(v, i, j) ensures r[i] < r[j] {
      CountRankedBeforeGrows(v, i, j, |v|);
    }
  }

  /** A strictly increasing sequence of n values between 1 and n is exactly 1, 2, ..., n. */
  lemma {:induction false} IncreasingInRange(s: seq<int>)
    requires Increasing(s) && forall k :: 0 <= k < |s| ==> 1 <= s[k] <= |s|
    ensures forall k :: 0 <= k < |s| ==> s[k] == k + 1
  {
    if s != [] {
      var t := s[..|s| - 1];
      assert forall k :: 0 <= k < |t| ==> t[k] < s[|s| - 1] <= |s|;
      forall k | 0 <= k < |t| ensures t[k] <= |t| {
        Gap(s, k, |s| - 1);
      }
      IncreasingInRange(t);
      assert |s| == 1 || s[|s| - 2] == t[|t| - 1] == |s| - 1;
      assert forall k :: 0 <= k < |t| ==> s[k] == t[k];
    }
  }

  /** In a strictly increasing integer sequence, values grow at least by the distance. */
  lemma {:induction false} Gap(s: seq<int>, i: int, j: int)
    requires Increasing(s) && 0 <= i <= j < |s|
    ensures s[i] + (j - i) <= s[j]
  {
    if i < j {
      Gap(s, i, j - 1);
    }
  }

  /** The ranks are a permutation of 1..n: every rank from 1 to n is used. */
  lemma {:induction false} RankFirstIsPermutation(v: seq<int>)
    ensures forall k :: 1 <= k <= |v| ==> k in RankFirst(v)
  {
    var r := RankFirst(v);
    RankFirstOrders(v);
    var sorted := SortAsc(r);
    DistinctSortsIncreasing(r);
    SortedMembers(r);
    forall k | 0 <= k < |sorted| ensures 1 <= sorted[k] <= |sorted| {
      assert sorted[k] in sorted;
    }
    IncreasingInRange(sorted);
    forall k | 1 <= k <= |v| ensures k in r {
      assert sorted[k - 1] == k;
      assert k in sorted;
    }
  }

  /**
   * Binning `rank(method="first")` succeeds exactly when there are at least two
   * values, whatever the values are; a single value falls back to `labels[0]`.
   */
  lemma {:induction false} RankedBinningSucceeds(v: seq<int>, labels: seq<int>)
    requires |labels| == 4
    ensures QCut(RankFirst(v), labels).Some? <==> |v| >= 2
  {
    var r := RankFirst(v);
    RankFirstOrders(v);
    if |v| >= 2 {
      QCutDistinctSucceeds(r, labels);
    } else if |v| == 1 {
      QCutConstantFails(r, labels);
    }
  }
}
