/**
 * Date-to-index lookups over a date axis: the floor lookup behind
 * getCurrentDataIndex, the ceiling lookups behind findDateIndex and the start
 * scan of calculateUserPortfolioValue, and the first point of a given month.
 * The loops themselves are methods of FundGame; these functions say what
 * they compute.
 */
module CalendarIndex {
  import opened Wrappers
  import opened TimeSeries

  predicate Sorted(ds: seq<int>)
  {
    forall i, j :: 0 <= i <= j < |ds| ==> ds[i] <= ds[j]
  }

  /** How many leading dates are at or before t: where a forward scan that breaks at the first later date stops. */
  function LeadingAtOrBefore(ds: seq<int>, t: int): (k: nat)
    ensures k <= |ds|
    ensures forall i :: 0 <= i < k ==> ds[i] <= t
    ensures k < |ds| ==> ds[k] > t
  {
    if ds == [] || ds[0] > t then 0 else 1 + LeadingAtOrBefore(ds[1..], t)
  }

  /**
   * The floor lookup: the last index whose date is at or before t, and 0 when
   * the axis is empty or starts after t.
   */
  function FloorIndex(ds: seq<int>, t: int): (r: nat)
    ensures |ds| > 0 ==> r < |ds|
    ensures (ds == [] || ds[0] > t) ==> r == 0
    ensures Sorted(ds) && ds != [] && ds[0] <= t ==>
              ds[r] <= t && forall i :: r < i < |ds| ==> ds[i] > t
  {
    var k := LeadingAtOrBefore(ds, t);
    if k == 0 then 0 else k - 1
  }

  /** The leading count only grows with t, on any axis. */
  lemma {:induction false} LeadingMonotone(ds: seq<int>, t1: int, t2: int)
    requires t1 <= t2
    ensures LeadingAtOrBefore(ds, t1) <= LeadingAtOrBefore(ds, t2)
  {
    if ds != [] && ds[0] <= t1 {
      LeadingMonotone(ds[1..], t1, t2);
    }
  }

  /** A later current date never gives an earlier data index. */
  lemma FloorMonotone(ds: seq<int>, t1: int, t2: int)
    requires t1 <= t2
    ensures FloorIndex(ds, t1) <= FloorIndex(ds, t2)
  {
    LeadingMonotone(ds, t1, t2);
  }

  /** Index of the first date at or after t from index i on, or |ds| when there is none. */
  function FirstAtOrAfterFrom(ds: seq<int>, t: int, i: nat): (k: nat)
    requires i <= |ds|
    ensures i <= k <= |ds|
    ensures forall m :: i <= m < k ==> ds[m] < t
    ensures k < |ds| ==> ds[k] >= t
    decreases |ds| - i
  {
    if i == |ds| || ds[i] >= t then i else FirstAtOrAfterFrom(ds, t, i + 1)
  }

  /** Index of the first date at or after t, or |ds| when there is none. */
  function FirstAtOrAfter(ds: seq<int>, t: int): (k: nat)
    ensures k <= |ds|
    ensures forall i :: 0 <= i < k ==> ds[i] < t
    ensures k < |ds| ==> ds[k] >= t
  {
    FirstAtOrAfterFrom(ds, t, 0)
  }

  /** The first qualifying index only moves right as t grows, on any axis. */
  lemma {:induction false} FirstAtOrAfterFromMonotone(ds: seq<int>, t1: int, t2: int, i: nat)
    requires t1 <= t2 && i <= |ds|
    ensures FirstAtOrAfterFrom(ds, t1, i) <= FirstAtOrAfterFrom(ds, t2, i)
    decreases |ds| - i
  {
    if i < |ds| && ds[i] < t1 {
      FirstAtOrAfterFromMonotone(ds, t1, t2, i + 1);
    }
  }

  lemma FirstAtOrAfterMonotone(ds: seq<int>, t1: int, t2: int)
    requires t1 <= t2
    ensures FirstAtOrAfter(ds, t1) <= FirstAtOrAfter(ds, t2)
  {
    FirstAtOrAfterFromMonotone(ds, t1, t2, 0);
  }

  /**
   * findDateIndex on a non-empty store: the least index whose date is at or
   * after t, falling back to the last index |ds| - 1 (so -1 on an empty axis).
   */
  function CeilingIndex(ds: seq<int>, t: int): (r: int)
    ensures -1 <= r < |ds|
    ensures |ds| > 0 ==> r >= 0
    ensures 0 <= r && ds[r] >= t ==> forall i :: 0 <= i < r ==> ds[i] < t
    ensures 0 <= r && ds[r] < t ==> r == |ds| - 1 && forall i :: 0 <= i < |ds| ==> ds[i] < t
  {
    var k := FirstAtOrAfter(ds, t);
    if k < |ds| then k else |ds| - 1
  }

  /**
   * The start index of a fund switch in calculateUserPortfolioValue: the
   * least index whose date is at or after t, falling back to 0 (not to the
   * last index, unlike CeilingIndex).
   */
  function ChangeStart(ds: seq<int>, t: int): (r: nat)
    ensures |ds| > 0 ==> r < |ds|
    ensures |ds| > 0 && ds[r] >= t ==> forall i :: 0 <= i < r ==> ds[i] < t
    ensures |ds| > 0 && ds[r] < t ==> r == 0 && forall i :: 0 <= i < |ds| ==> ds[i] < t
  {
    var k := FirstAtOrAfter(ds, t);
    if k < |ds| then k else 0
  }

  /** When some date reaches t, the start scan and findDateIndex agree. */
  lemma ChangeStartIsCeiling(ds: seq<int>, t: int)
    requires exists i :: 0 <= i < |ds| && ds[i] >= t
    ensures ChangeStart(ds, t) == CeilingIndex(ds, t)
  {
  }

  /** Whether the date d falls in the given year and month. */
  predicate InMonth(cal: Calendar, d: int, year: int, month: int)
  {
    cal.year(d) == year && cal.month(d) == month
  }

  /** Array.prototype.findIndex for "date in this year and month", from index i on; None stands for -1. */
  function MonthStartFrom(ds: seq<int>, cal: Calendar, year: int, month: int, i: nat): (r: Option<nat>)
    requires i <= |ds|
    ensures r.Some? ==> i <= r.value < |ds| && InMonth(cal, ds[r.value], year, month)
    ensures r.Some? ==> forall j :: i <= j < r.value ==> !InMonth(cal, ds[j], year, month)
    ensures r.None? ==> forall j :: i <= j < |ds| ==> !InMonth(cal, ds[j], year, month)
    decreases |ds| - i
  {
    if i == |ds| then None
    else if InMonth(cal, ds[i], year, month) then Some(i)
    else MonthStartFrom(ds, cal, year, month, i + 1)
  }

  /** The first index of the axis whose date falls in the given year and month. */
  function MonthStart(ds: seq<int>, cal: Calendar, year: int, month: int): (r: Option<nat>)
    ensures r.Some? ==> r.value < |ds| && InMonth(cal, ds[r.value], year, month)
    ensures r.Some? ==> forall j :: 0 <= j < r.value ==> !InMonth(cal, ds[j], year, month)
    ensures r.None? ==> forall j :: 0 <= j < |ds| ==> !InMonth(cal, ds[j], year, month)
  {
    MonthStartFrom(ds, cal, year, month, 0)
  }
}
