/**
 * The weekly value history of every fund (the `funds` array of FundGame):
 * each fund is a name and a sequence of (date, value) points. Dates are
 * milliseconds since the epoch, as the source compares them via getTime().
 */
module TimeSeries {

  /** One weekly observation: a date in milliseconds and a net asset value. */
  datatype Point = Point(date: int, value: real)

  /** A fund product; its id is its position in the fund list. */
  datatype Fund = Fund(name: string, data: seq<Point>)

  /**
   * The calendar accessors of a JavaScript Date, taken as given functions of a
   * millisecond date: full year, month (0 = January, 11 = December) and
   * day of the month.
   */
  datatype Calendar = Calendar(year: int -> int, month: int -> int, day: int -> int)

  /** Milliseconds in one day and in one week. */
  const DayMs: int := 24 * 60 * 60 * 1000
  const WeekMs: int := 7 * DayMs

  /** The date axis of a series. */
  function Dates(data: seq<Point>): (ds: seq<int>)
    ensures |ds| == |data|
    ensures forall i :: 0 <= i < |data| ==> ds[i] == data[i].date
  {
    seq(|data|, i requires 0 <= i < |data| => data[i].date)
  }

  /** The values of a series. */
  function Values(data: seq<Point>): (vs: seq<real>)
    ensures |vs| == |data|
    ensures forall i :: 0 <= i < |data| ==> vs[i] == data[i].value
  {
    seq(|data|, i requires 0 <= i < |data| => data[i].value)
  }

  predicate StrictlyIncreasing(ds: seq<int>)
  {
    forall i, j :: 0 <= i < j < |ds| ==> ds[i] < ds[j]
  }

  predicate PositiveValues(data: seq<Point>)
  {
    forall i :: 0 <= i < |data| ==> data[i].value > 0.0
  }

  /**
   * The shape the engine relies on: every fund shares fund 0's date axis,
   * that axis is strictly increasing, and every value is positive.
   */
  predicate WellFormed(funds: seq<Fund>)
  {
    |funds| > 0 ==>
      && StrictlyIncreasing(Dates(funds[0].data))
      && forall f :: 0 <= f < |funds| ==>
           Dates(funds[f].data) == Dates(funds[0].data) && PositiveValues(funds[f].data)
  }

  /** The date axis of the whole store: fund 0's dates, or none without funds. */
  function Axis(funds: seq<Fund>): seq<int>
  {
    if |funds| == 0 then [] else Dates(funds[0].data)
  }

  // ---------------------------------------------------------------------------
  // Live-phase normalisation (resetGameFor2022)

  /**
   * The series divided, from index r on, by its value at r: points before r
   * are kept, and the divisor is the value at r before any point changed.
   */
  function Normalized(data: seq<Point>, r: nat): (d: seq<Point>)
    requires r < |data| && data[r].value != 0.0
    ensures |d| == |data| && Dates(d) == Dates(data)
  {
    seq(|data|, i requires 0 <= i < |data| =>
      if i < r then data[i] else Point(data[i].date, data[i].value / data[r].value))
  }

  /** The pivot becomes the new base 1, and every point before it is untouched. */
  lemma NormalizedBase(data: seq<Point>, r: nat)
    requires r < |data| && data[r].value != 0.0
    ensures Normalized(data, r)[r].value == 1.0
    ensures Normalized(data, r)[..r] == data[..r]
  {
  }

  /** From the pivot on, every value is its old value scaled by the same factor 1 / data[r]. */
  lemma NormalizedScales(data: seq<Point>, r: nat, i: nat)
    requires r <= i < |data| && data[r].value != 0.0
    ensures Normalized(data, r)[i].value * data[r].value == data[i].value
  {
  }

  /** Relative performance after the pivot is unchanged: ratios between points are kept. */
  lemma NormalizedKeepsRatios(data: seq<Point>, r: nat, i: nat, j: nat)
    requires r <= i < |data| && r <= j < |data| && data[r].value != 0.0 && data[j].value != 0.0
    ensures Normalized(data, r)[j].value != 0.0
    ensures Normalized(data, r)[i].value / Normalized(data, r)[j].value == data[i].value / data[j].value
  {
    var a, b, c := data[i].value, data[j].value, data[r].value;
    assert (a / c) * c == a;
    assert (b / c) * c == b;
    assert (a / c) / (b / c) == a / b by {
      assert (a / c) == (a / b) * (b / c);
    }
  }

  /** Positive values stay positive. */
  lemma NormalizedPositive(data: seq<Point>, r: nat)
    requires r < |data| && PositiveValues(data)
    ensures PositiveValues(Normalized(data, r))
  {
    forall i | r <= i < |data|
      ensures Normalized(data, r)[i].value > 0.0
    {
      assert data[i].value / data[r].value > 0.0;
    }
  }

  /** Every fund normalised at pivot r. */
  function Rebased(funds: seq<Fund>, r: nat): (g: seq<Fund>)
    requires WellFormed(funds) && |funds| > 0 && r < |funds[0].data|
    ensures |g| == |funds|
    ensures forall f :: 0 <= f < |funds| ==>
              g[f].name == funds[f].name &&
              g[f].data == Normalized(funds[f].data, r)
  {
    assert forall f :: 0 <= f < |funds| ==> |Dates(funds[f].data)| == |funds[0].data|;
    seq(|funds|, f requires 0 <= f < |funds| && WellFormed(funds) && r < |funds[0].data| =>
      assert |Dates(funds[f].data)| == |Dates(funds[0].data)|;
      Fund(funds[f].name, Normalized(funds[f].data, r)))
  }

  /** Normalisation keeps the store well formed: same axis, positive values. */
  lemma RebasedWellFormed(funds: seq<Fund>, r: nat)
    requires WellFormed(funds) && |funds| > 0 && r < |funds[0].data|
    ensures WellFormed(Rebased(funds, r))
  {
    var g := Rebased(funds, r);
    forall f | 0 <= f < |funds|
      ensures Dates(g[f].data) == Dates(g[0].data) && PositiveValues(g[f].data)
    {
      assert |Dates(funds[f].data)| == |funds[0].data|;
      NormalizedPositive(funds[f].data, r);
    }
  }
}
