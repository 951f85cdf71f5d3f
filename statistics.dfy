/**
 * Statistics over a value series: total return, the running-peak maximum
 * drawdown scan (calculateUserStats, updateRanking,
 * calculateRiskMetricsForFund) and the median of calculateMedian.
 * Values are exact reals.
 */
module Statistics {

  function Max(a: real, b: real): real
  {
    if a >= b then a else b
  }

  /** (v[n] - v[0]) / v[0] * 100 */
  function TotalReturn(v: seq<real>, n: nat): (r: real)
    requires n < |v| && v[0] > 0.0
    ensures r > 0.0 <==> v[n] > v[0]
    ensures r == 0.0 <==> v[n] == v[0]
    ensures n == 0 ==> r == 0.0
  {
    (v[n] - v[0]) / v[0] * 100.0
  }

  /** The series [100, 110, 99] has a total return of -1%. */
  lemma TotalReturnExample()
    ensures TotalReturn([100.0, 110.0, 99.0], 2) == -1.0
  {
  }

  // ---------------------------------------------------------------------------
  // Maximum drawdown

  /**
   * The running peak after the scan has seen v[0..i]: it starts at v[0] and is
   * replaced only by a strictly larger value.
   */
  function Peak(v: seq<real>, i: nat): (p: real)
    requires i < |v|
    ensures p >= v[0]
    ensures forall j :: 0 <= j <= i ==> v[j] <= p
  {
    if i == 0 then v[0]
    else if v[i] > Peak(v, i - 1) then v[i]
    else Peak(v, i - 1)
  }

  /** (peak - x) / peak * scale: the fall of x below the peak. */
  function Fall(peak: real, x: real, scale: real): real
    requires peak > 0.0
  {
    (peak - x) / peak * scale
  }

  lemma FallPositive(peak: real, x: real, scale: real)
    requires peak > 0.0 && x < peak && scale > 0.0
    ensures Fall(peak, x, scale) > 0.0
  {
    assert (peak - x) / peak > 0.0;
  }

  lemma FallAtMostScale(peak: real, x: real, scale: real)
    requires peak > 0.0 && x >= 0.0 && scale >= 0.0
    ensures Fall(peak, x, scale) <= scale
  {
    var d := (peak - x) / peak;
    assert d * peak == peak - x;
    assert d <= 1.0;
  }

  lemma FallScales(peak: real, x: real, scale: real)
    ensures peak > 0.0 ==> Fall(peak, x, scale) == Fall(peak, x, 1.0) * scale
  {
  }

  /** The drawdown the scan records at index i >= 1, against the peak before i (0 when i sets a new peak). */
  function DrawdownAt(v: seq<real>, i: nat, scale: real): real
    requires 1 <= i < |v| && v[0] > 0.0
  {
    var p := Peak(v, i - 1);
    if v[i] > p then 0.0 else Fall(p, v[i], scale)
  }

  /**
   * The value of maxDrawdown after the loop has run for i = 1 .. n; scale is
   * 100 for the percent form and 1 for the fraction form.
   */
  function MaxDrawdownOf(v: seq<real>, n: nat, scale: real): real
    requires n < |v| && v[0] > 0.0
  {
    if n == 0 then 0.0
    else
      var prev := MaxDrawdownOf(v, n - 1, scale);
      var p := Peak(v, n - 1);
      if v[n] > p then prev else Max(prev, Fall(p, v[n], scale))
  }

  /**
   * The drawdown loop: peak starts at v[0]; for i = 1 .. n a strictly higher
   * value becomes the new peak, any other value records
   * (peak - v[i]) / peak * scale into the running maximum, which starts at 0.
   */
  method MaxDrawdown(v: seq<real>, n: nat, scale: real) returns (maxDrawdown: real)
    requires n < |v| && v[0] > 0.0
    ensures maxDrawdown == MaxDrawdownOf(v, n, scale)
  {
    maxDrawdown := 0.0;
    var peak := v[0];
    var i := 1;
    while i <= n
      invariant 1 <= i <= n + 1
      invariant peak == Peak(v, i - 1)
      invariant maxDrawdown == MaxDrawdownOf(v, i - 1, scale)
    {
      if v[i] > peak {
        peak := v[i];
      } else {
        var drawdown := Fall(peak, v[i], scale);
        maxDrawdown := Max(maxDrawdown, drawdown);
      }
      i := i + 1;
    }
  }

  /** The peak only rises. */
  lemma {:induction false} PeakRises(v: seq<real>, i: nat, j: nat)
    requires i <= j < |v|
    ensures Peak(v, i) <= Peak(v, j)
  {
    if i < j {
      PeakRises(v, i, j - 1);
    }
  }

  /** The result is never negative. */
  lemma {:induction false} MaxDrawdownNonNegative(v: seq<real>, n: nat, scale: real)
    requires n < |v| && v[0] > 0.0 && scale >= 0.0
    ensures MaxDrawdownOf(v, n, scale) >= 0.0
  {
    if n > 0 {
      MaxDrawdownNonNegative(v, n - 1, scale);
    }
  }

  /** Each drawdown the scan records, measured against the running peak before it, is at most the result. */
  lemma {:induction false} MaxDrawdownIsLargest(v: seq<real>, n: nat, scale: real)
    requires n < |v| && v[0] > 0.0 && scale >= 0.0
    ensures forall i :: 1 <= i <= n ==> DrawdownAt(v, i, scale) <= MaxDrawdownOf(v, n, scale)
  {
    if n > 0 {
      MaxDrawdownIsLargest(v, n - 1, scale);
      MaxDrawdownNonNegative(v, n - 1, scale);
      var prev := MaxDrawdownOf(v, n - 1, scale);
      assert prev <= MaxDrawdownOf(v, n, scale);
      assert DrawdownAt(v, n, scale) <= MaxDrawdownOf(v, n, scale);
      forall i | 1 <= i <= n
        ensures DrawdownAt(v, i, scale) <= MaxDrawdownOf(v, n, scale)
      {
        if i < n {
          assert DrawdownAt(v, i, scale) <= prev;
        }
      }
    }
  }

  /** The result is 0 or one of the recorded drawdowns. */
  lemma {:induction false} MaxDrawdownAttained(v: seq<real>, n: nat, scale: real)
    requires n < |v| && v[0] > 0.0
    ensures MaxDrawdownOf(v, n, scale) == 0.0 ||
            exists i :: 1 <= i <= n && MaxDrawdownOf(v, n, scale) == DrawdownAt(v, i, scale)
  {
    if n > 0 {
      MaxDrawdownAttained(v, n - 1, scale);
      var prev := MaxDrawdownOf(v, n - 1, scale);
      if MaxDrawdownOf(v, n, scale) == prev && prev != 0.0 {
        var i :| 1 <= i <= n - 1 && prev == DrawdownAt(v, i, scale);
        assert 1 <= i <= n && MaxDrawdownOf(v, n, scale) == DrawdownAt(v, i, scale);
      } else if MaxDrawdownOf(v, n, scale) != prev {
        assert MaxDrawdownOf(v, n, scale) == DrawdownAt(v, n, scale);
      }
    }
  }

  predicate NonDecreasing(v: seq<real>, n: nat)
    requires n < |v|
  {
    forall i, j :: 0 <= i <= j <= n ==> v[i] <= v[j]
  }

  /** A positive scale gives 0 exactly when the series never falls: both directions. */
  lemma {:induction false} MaxDrawdownZeroIff(v: seq<real>, n: nat, scale: real)
    requires n < |v| && v[0] > 0.0 && scale > 0.0
    ensures MaxDrawdownOf(v, n, scale) == 0.0 <==> NonDecreasing(v, n)
  {
    if n > 0 {
      MaxDrawdownZeroIff(v, n - 1, scale);
      MaxDrawdownNonNegative(v, n - 1, scale);
      var p := Peak(v, n - 1);
      if NonDecreasing(v, n) {
        assert NonDecreasing(v, n - 1);
        assert v[n] >= p by {
          PeakAttained(v, n - 1);
        }
        if v[n] <= p {
          assert Fall(p, v[n], scale) == 0.0;
        }
      } else if NonDecreasing(v, n - 1) {
        var i, j :| 0 <= i <= j <= n && v[i] > v[j];
        assert j == n;
        assert v[n] < p;
        FallPositive(p, v[n], scale);
      }
    }
  }

  /** The peak is one of the values seen. */
  lemma {:induction false} PeakAttained(v: seq<real>, i: nat)
    requires i < |v|
    ensures exists j :: 0 <= j <= i && v[j] == Peak(v, i)
  {
    if i == 0 {
      assert v[0] == Peak(v, 0);
    } else if v[i] > Peak(v, i - 1) {
      assert v[i] == Peak(v, i);
    } else {
      PeakAttained(v, i - 1);
      var j :| 0 <= j <= i - 1 && v[j] == Peak(v, i - 1);
      assert v[j] == Peak(v, i);
    }
  }

  /** On non-negative values the result is at most scale: at most 100% or 1. */
  lemma {:induction false} MaxDrawdownAtMostScale(v: seq<real>, n: nat, scale: real)
    requires n < |v| && v[0] > 0.0 && scale >= 0.0
    requires forall i :: 0 <= i <= n ==> v[i] >= 0.0
    ensures MaxDrawdownOf(v, n, scale) <= scale
  {
    if n > 0 {
      MaxDrawdownAtMostScale(v, n - 1, scale);
      FallAtMostScale(Peak(v, n - 1), v[n], scale);
    }
  }

  /**
   * The percent form (scale 100) is 100 times the fraction form (scale 1);
   * calculateFundPerformance multiplies the fraction by 100 before display.
   */
  lemma {:induction false} MaxDrawdownScales(v: seq<real>, n: nat, scale: real)
    requires n < |v| && v[0] > 0.0 && scale >= 0.0
    ensures MaxDrawdownOf(v, n, scale) == MaxDrawdownOf(v, n, 1.0) * scale
  {
    if n > 0 {
      MaxDrawdownScales(v, n - 1, scale);
      var p := Peak(v, n - 1);
      FallScales(p, v[n], scale);
      var prev1 := MaxDrawdownOf(v, n - 1, 1.0);
      var d := Fall(p, v[n], 1.0);
      assert Max(prev1 * scale, d * scale) == Max(prev1, d) * scale;
    }
  }

  /** The series [100, 110, 99]: peak 110, trough 99, a 10% maximum drawdown. */
  lemma MaxDrawdownExample()
    ensures MaxDrawdownOf([100.0, 110.0, 99.0], 2, 100.0) == 10.0
  {
    var v := [100.0, 110.0, 99.0];
    assert Peak(v, 1) == 110.0;
    assert MaxDrawdownOf(v, 1, 100.0) == 0.0;
    assert Fall(110.0, 99.0, 100.0) == 10.0;
  }

  // ---------------------------------------------------------------------------
  // Median

  predicate SortedAsc(s: seq<real>)
  {
    forall i, j :: 0 <= i <= j < |s| ==> s[i] <= s[j]
  }

  /** Insert x before the first element that is not smaller. */
  lemma ConsSortedAsc(a: real, t: seq<real>)
    requires SortedAsc(t) && (t == [] || a <= t[0])
    ensures SortedAsc([a] + t)
  {
  }

  function InsertAsc(x: real, s: seq<real>): (r: seq<real>)
    requires SortedAsc(s)
    ensures SortedAsc(r) && multiset(r) == multiset(s) + multiset{x}
    ensures |r| == |s| + 1 && r[0] == (if s == [] || x <= s[0] then x else s[0])
  {
    if s == [] || x <= s[0] then
      ConsSortedAsc(x, s);
      [x] + s
    else
      assert s == [s[0]] + s[1..];
      var t := InsertAsc(x, s[1..]);
      ConsSortedAsc(s[0], t);
      [s[0]] + t
  }

  /** The ascending sort of a copy, [...arr].sort((a, b) => a - b). */
  function SortAsc(s: seq<real>): (r: seq<real>)
    ensures SortedAsc(r) && multiset(r) == multiset(s) && |r| == |s|
  {
    if s == [] then []
    else
      assert s == [s[0]] + s[1..];
      InsertAsc(s[0], SortAsc(s[1..]))
  }

  /** Number of elements strictly below m / strictly above m. */
  function CountBelow(s: seq<real>, m: real): (c: nat)
    ensures c <= |s|
  {
    if s == [] then 0 else (if s[0] < m then 1 else 0) + CountBelow(s[1..], m)
  }

  function CountAbove(s: seq<real>, m: real): (c: nat)
    ensures c <= |s|
  {
    if s == [] then 0 else (if s[0] > m then 1 else 0) + CountAbove(s[1..], m)
  }

  /** calculateMedian: the middle element of the sorted copy, or the mean of the two middle ones. */
  function Median(arr: seq<real>): (r: real)
    requires |arr| > 0
    ensures |arr| % 2 != 0 ==> r in arr
    ensures |arr| % 2 == 0 ==> exists i, j :: 0 <= i < |arr| && 0 <= j < |arr| && i != j && r == (arr[i] + arr[j]) / 2.0
  {
    var sorted := SortAsc(arr);
    var mid := |sorted| / 2;
    if |sorted| % 2 != 0 then
      assert sorted[mid] in multiset(sorted);
      sorted[mid]
    else
      MiddlePairFromInput(arr, sorted, mid);
      (sorted[mid - 1] + sorted[mid]) / 2.0
  }

  /** Two distinct positions of a permutation come from two distinct positions of the original. */
  lemma MiddlePairFromInput(arr: seq<real>, sorted: seq<real>, mid: nat)
    requires multiset(sorted) == multiset(arr) && 1 <= mid < |sorted|
    ensures exists i, j :: 0 <= i < |arr| && 0 <= j < |arr| && i != j &&
              arr[i] == sorted[mid - 1] && arr[j] == sorted[mid]
  {
    var a, b := sorted[mid - 1], sorted[mid];
    AdjacentPairIn(sorted, mid);
    assert a in multiset(arr);
    var i :| 0 <= i < |arr| && arr[i] == a;
    assert multiset(arr)[b] >= multiset{a, b}[b];
    assert b in multiset(arr) - multiset{a};
    OtherPosition(arr, i, b);
  }

  /** Two adjacent elements are, together, part of the sequence's multiset. */
  lemma AdjacentPairIn(s: seq<real>, mid: nat)
    requires 1 <= mid < |s|
    ensures multiset{s[mid - 1], s[mid]} <= multiset(s)
  {
    assert s == s[..mid - 1] + [s[mid - 1], s[mid]] + s[mid + 1..];
  }

  /** A value still present once arr[i] is taken out sits at some other position. */
  lemma OtherPosition(arr: seq<real>, i: nat, b: real)
    requires i < |arr| && b in multiset(arr) - multiset{arr[i]}
    ensures exists j :: 0 <= j < |arr| && j != i && arr[j] == b
  {
    var left, right := arr[..i], arr[i + 1..];
    assert arr == left + [arr[i]] + right;
    assert multiset(arr) == multiset(left) + multiset{arr[i]} + multiset(right);
    if b in left {
      var k :| 0 <= k < |left| && left[k] == b;
      assert arr[k] == b;
    } else {
      assert b in multiset(right);
      var k :| 0 <= k < |right| && right[k] == b;
      assert arr[i + 1 + k] == b;
    }
  }

  lemma {:induction false} CountsOfInsert(x: real, s: seq<real>, m: real)
    requires SortedAsc(s)
    ensures CountBelow(InsertAsc(x, s), m) == CountBelow(s, m) + (if x < m then 1 else 0)
    ensures CountAbove(InsertAsc(x, s), m) == CountAbove(s, m) + (if x > m then 1 else 0)
  {
    if s != [] && x > s[0] {
      CountsOfInsert(x, s[1..], m);
    }
  }

  lemma {:induction false} CountsOfSort(s: seq<real>, m: real)
    ensures CountBelow(SortAsc(s), m) == CountBelow(s, m)
    ensures CountAbove(SortAsc(s), m) == CountAbove(s, m)
  {
    if s != [] {
      CountsOfSort(s[1..], m);
      CountsOfInsert(s[0], SortAsc(s[1..]), m);
    }
  }

  /** In an ascending sequence, an element at index k that is >= m has at most k elements below m before it. */
  lemma {:induction false} CountBelowSorted(s: seq<real>, k: nat, m: real)
    requires SortedAsc(s) && k < |s| && s[k] >= m
    ensures CountBelow(s, m) <= k
  {
    if k == 0 {
      CountBelowNone(s, m);
    } else {
      CountBelowSorted(s[1..], k - 1, m);
    }
  }

  lemma {:induction false} CountBelowNone(s: seq<real>, m: real)
    requires forall i :: 0 <= i < |s| ==> s[i] >= m
    ensures CountBelow(s, m) == 0
  {
    if s != [] {
      CountBelowNone(s[1..], m);
    }
  }

  /** In an ascending sequence, an element at index k that is <= m has at most |s| - 1 - k elements above m after it. */
  lemma {:induction false} CountAboveSorted(s: seq<real>, k: nat, m: real)
    requires SortedAsc(s) && k < |s| && s[k] <= m
    ensures CountAbove(s, m) <= |s| - 1 - k
  {
    if k > 0 {
      CountAboveSorted(s[1..], k - 1, m);
    }
  }

  /**
   * The median splits the values: at most half of them (rounded down) lie
   * strictly below it and at most half strictly above it.
   */
  lemma MedianSplits(arr: seq<real>)
    requires |arr| > 0
    ensures CountBelow(arr, Median(arr)) <= |arr| / 2
    ensures CountAbove(arr, Median(arr)) <= |arr| / 2
  {
    var sorted := SortAsc(arr);
    var mid := |sorted| / 2;
    var m := Median(arr);
    CountsOfSort(arr, m);
    if |sorted| % 2 != 0 {
      CountBelowSorted(sorted, mid, m);
      CountAboveSorted(sorted, mid, m);
    } else {
      assert sorted[mid - 1] <= sorted[mid];
      CountBelowSorted(sorted, mid, m);
      CountAboveSorted(sorted, mid - 1, m);
    }
  }

  /** The median lies between the smallest and the largest value. */
  lemma MedianWithinRange(arr: seq<real>)
    requires |arr| > 0
    ensures exists i :: 0 <= i < |arr| && arr[i] <= Median(arr)
    ensures exists i :: 0 <= i < |arr| && arr[i] >= Median(arr)
  {
    var sorted := SortAsc(arr);
    var mid := |sorted| / 2;
    var lo := if |sorted| % 2 != 0 then mid else mid - 1;
    assert sorted[lo] <= Median(arr) <= sorted[mid];
    assert sorted[lo] in multiset(arr) && sorted[mid] in multiset(arr);
    var i :| 0 <= i < |arr| && arr[i] == sorted[lo];
    var j :| 0 <= j < |arr| && arr[j] == sorted[mid];
  }
}
