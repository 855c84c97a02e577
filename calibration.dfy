/** Threshold calibration of DeepBloom.fit: the calibration scores are sorted ascending and the
    threshold is the order statistic at index ceil(len(s2) * (1 - fp_rate / 2)), read with Python's
    list indexing (a negative index counts from the end, an index out of range raises IndexError).
    Scores and the false-positive rate are exact reals. */
module Calibration {
  import opened Wrappers

  /** Python's `math.ceil` on an exact real. */
  function Ceil(x: real): (c: int)
    ensures x <= c as real < x + 1.0
  {
    if x.Floor as real == x then x.Floor else x.Floor + 1
  }

  /** `fp_index` of DeepBloom.fit for a calibration slice of `n` items. */
  function FpIndex(n: nat, fpRate: real): (i: int)
    ensures n as real - n as real * fpRate / 2.0 <= i as real < n as real - n as real * fpRate / 2.0 + 1.0
  {
    assert n as real * (1.0 - fpRate / 2.0) == n as real - n as real * fpRate / 2.0;
    Ceil(n as real * (1.0 - fpRate / 2.0))
  }

  /** Python's `s[i]`: defined for -len(s) <= i < len(s), negative indices counting from the end;
      None stands for the IndexError. */
  function PyIndex<T>(s: seq<T>, i: int): (r: Option<T>)
    ensures r.Some? <==> -|s| <= i < |s|
    ensures 0 <= i < |s| ==> r == Some(s[i])
    ensures -|s| <= i < 0 ==> r == Some(s[|s| + i])
  {
    if 0 <= i < |s| then Some(s[i])
    else if -|s| <= i < 0 then Some(s[|s| + i])
    else None
  }

  predicate Sorted(s: seq<real>)
  {
    forall i, j :: 0 <= i < j < |s| ==> s[i] <= s[j]
  }

  /** Inserts `x` before the first element not smaller than it. */
  function Insert(x: real, s: seq<real>): (r: seq<real>)
    ensures |r| == |s| + 1
  {
    if s == [] || x <= s[0] then [x] + s else [s[0]] + Insert(x, s[1..])
  }

  /** Python's `list.sort()` on the scores, as an insertion sort. */
  function Sort(s: seq<real>): (r: seq<real>)
    ensures |r| == |s|
  {
    if s == [] then [] else Insert(s[0], Sort(s[1..]))
  }

  lemma SortedCons(a: real, r: seq<real>)
    requires Sorted(r)
    requires forall k :: 0 <= k < |r| ==> a <= r[k]
    ensures Sorted([a] + r)
  {
    forall i, j | 0 <= i < j < |[a] + r| ensures ([a] + r)[i] <= ([a] + r)[j] {
      assert ([a] + r)[j] == r[j - 1];
      if i > 0 {
        assert ([a] + r)[i] == r[i - 1];
      }
    }
  }

  lemma {:induction false} InsertSpec(x: real, s: seq<real>)
    requires Sorted(s)
    ensures Sorted(Insert(x, s))
    ensures multiset(Insert(x, s)) == multiset(s) + multiset{x}
  {
    if s == [] || x <= s[0] {
      SortedCons(x, s);
    } else {
      var head, tail := s[0], s[1..];
      assert s == [head] + tail;
      InsertSpec(x, tail);
      var r := Insert(x, tail);
      assert Insert(x, s) == [head] + r;
      forall k | 0 <= k < |r| ensures head <= r[k] {
        assert r[k] in multiset(tail) + multiset{x};
        if r[k] != x {
          assert r[k] in tail;
        }
      }
      SortedCons(head, r);
    }
  }

  /** The sort puts the scores in ascending order and is a permutation of them. */
  lemma {:induction false} SortSpec(s: seq<real>)
    ensures Sorted(Sort(s))
    ensures multiset(Sort(s)) == multiset(s)
    ensures |Sort(s)| == |s|
  {
    if s != [] {
      SortSpec(s[1..]);
      InsertSpec(s[0], Sort(s[1..]));
      assert s == [s[0]] + s[1..];
    }
    assert |multiset(Sort(s))| == |Sort(s)|;
  }

  /** The number of scores strictly above `t`. */
  function CountAbove(s: seq<real>, t: real): (c: nat)
    ensures c <= |s|
  {
    if s == [] then 0 else (if s[0] > t then 1 else 0) + CountAbove(s[1..], t)
  }

  lemma {:induction false} CountAboveInsert(x: real, s: seq<real>, t: real)
    ensures CountAbove(Insert(x, s), t) == (if x > t then 1 else 0) + CountAbove(s, t)
  {
    if s != [] && x > s[0] {
      CountAboveInsert(x, s[1..], t);
    }
  }

  /** Sorting does not change how many scores lie above a threshold. */
  lemma {:induction false} CountAboveSort(s: seq<real>, t: real)
    ensures CountAbove(Sort(s), t) == CountAbove(s, t)
  {
    if s != [] {
      CountAboveSort(s[1..], t);
      CountAboveInsert(s[0], Sort(s[1..]), t);
    }
  }

  /** In an ascending sequence, at most |s| - 1 - k elements lie above anything >= s[k]. */
  lemma {:induction false} CountAboveSortedAt(s: seq<real>, k: nat, t: real)
    requires Sorted(s) && k < |s| && s[k] <= t
    ensures CountAbove(s, t) <= |s| - 1 - k
  {
    assert s[0] <= t;
    if k > 0 {
      CountAboveSortedAt(s[1..], k - 1, t);
    }
  }

  /** The threshold DeepBloom.fit picks from the calibration scores as `predictions[fp_index]` after sorting. */
  function Threshold(predictions: seq<real>, fpRate: real): (r: Option<real>)
    ensures r.Some? <==> -|predictions| <= FpIndex(|predictions|, fpRate) < |predictions|
  {
    PyIndex(Sort(predictions), FpIndex(|predictions|, fpRate))
  }

  lemma CeilBelow(x: real, m: int)
    ensures Ceil(x) < m <==> x <= (m - 1) as real
  {
  }

  lemma CeilAtLeast(x: real, m: int)
    ensures Ceil(x) >= m <==> x > (m - 1) as real
  {
  }

  /** fp_index rewritten as the ceiling of len(s2) minus the calibration allowance len(s2) * fp_rate / 2. */
  lemma FpIndexShift(n: nat, fpRate: real)
    ensures FpIndex(n, fpRate) == Ceil(n as real - n as real * fpRate / 2.0)
  {
    assert n as real * (1.0 - fpRate / 2.0) == n as real - n as real * fpRate / 2.0;
  }

  lemma HalfAtMostLength(n: nat, fpRate: real)
    requires 0.0 <= fpRate <= 2.0
    ensures 0.0 <= n as real * fpRate / 2.0 <= n as real
  {
    assert n as real * fpRate <= n as real * 2.0;
  }

  /** Index -n <= Ceil(n - half) < n holds exactly when 1 <= half < 2n + 1. */
  lemma IndexInRangeIff(n: int, half: real)
    ensures -n <= Ceil(n as real - half) < n <==> 1.0 <= half < 2.0 * n as real + 1.0
  {
    CeilBelow(n as real - half, n);
    CeilAtLeast(n as real - half, -n);
  }

  /** The indexing `predictions[fp_index]` succeeds exactly when 1 <= len(s2) * fp_rate / 2 < 2 * len(s2) + 1. */
  lemma ThresholdDefinedIff(predictions: seq<real>, fpRate: real)
    ensures var half := |predictions| as real * fpRate / 2.0;
      Threshold(predictions, fpRate).Some? <==> 1.0 <= half < 2.0 * |predictions| as real + 1.0
  {
    var n := |predictions|;
    var half := n as real * fpRate / 2.0;
    var i := FpIndex(n, fpRate);
    SortSpec(predictions);
    assert Threshold(predictions, fpRate).Some? <==> -n <= i < n;
    FpIndexShift(n, fpRate);
    IndexInRangeIff(n, half);
  }

  /** For a rate in [0, 2] the threshold exists exactly when len(s2) * fp_rate / 2 >= 1. */
  lemma ThresholdDefinedForRate(predictions: seq<real>, fpRate: real)
    requires 0.0 <= fpRate <= 2.0
    ensures Threshold(predictions, fpRate).Some? <==> |predictions| as real * fpRate / 2.0 >= 1.0
  {
    var n := |predictions|;
    ThresholdDefinedIff(predictions, fpRate);
    HalfAtMostLength(n, fpRate);
    var half := n as real * fpRate / 2.0;
    assert half < 2.0 * n as real + 1.0;
  }

  /** An empty calibration slice always raises IndexError. */
  lemma EmptyCalibrationFails(fpRate: real)
    ensures Threshold([], fpRate).None?
  {
    ThresholdDefinedIff([], fpRate);
  }

  /** Calibration bound: fewer than len(s2) * fp_rate / 2 calibration scores lie strictly above the
      threshold, and when fp_index is non-negative at most len(s2) - 1 - fp_index do. */
  lemma CalibrationBound(predictions: seq<real>, fpRate: real, t: real)
    requires Threshold(predictions, fpRate) == Some(t)
    ensures (CountAbove(predictions, t) as real) < |predictions| as real * fpRate / 2.0
    ensures FpIndex(|predictions|, fpRate) >= 0 ==>
      CountAbove(predictions, t) <= |predictions| - 1 - FpIndex(|predictions|, fpRate)
  {
    var n := |predictions|;
    var i := FpIndex(n, fpRate);
    var sorted := Sort(predictions);
    SortSpec(predictions);
    CountAboveSort(predictions, t);
    FpIndexShift(n, fpRate);
    var k := if i >= 0 then i else n + i;
    assert sorted[k] == t;
    CountAboveSortedAt(sorted, k, t);
  }

  /** The threshold is one of the calibration scores. */
  lemma ThresholdIsCalibrationScore(predictions: seq<real>, fpRate: real, t: real)
    requires Threshold(predictions, fpRate) == Some(t)
    ensures t in predictions
  {
    SortSpec(predictions);
    var sorted := Sort(predictions);
    assert t in sorted;
    assert t in multiset(sorted);
    assert t in multiset(predictions);
  }
}
