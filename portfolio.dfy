/**
 * The user's ledger of fund switches and the spliced value series that
 * calculateUserPortfolioValue builds from it. Switch k holds its fund from
 * its start index (the first date at or after the switch date, or 0) through
 * its end index: findDateIndex of the next switch's date, or the current data
 * index for the last switch, both inclusive. Later switches overwrite earlier
 * ones, so an index shows the fund of the last switch whose range contains it.
 */
module Portfolio {
  import opened Wrappers
  import opened TimeSeries
  import opened CalendarIndex

  /** One entry of userPortfolio: from `date` on, the user holds fund `fundId`. */
  datatype Switch = Switch(date: int, fundId: nat)

  /** Every switch names an existing fund. */
  predicate LedgerFits(funds: seq<Fund>, ledger: seq<Switch>)
  {
    forall k :: 0 <= k < |ledger| ==> ledger[k].fundId < |funds|
  }

  /** Switch dates never go back. */
  predicate LedgerOrdered(ledger: seq<Switch>)
  {
    forall k, m :: 0 <= k <= m < |ledger| ==> ledger[k].date <= ledger[m].date
  }

  function SwitchStart(ds: seq<int>, s: Switch): nat
  {
    ChangeStart(ds, s.date)
  }

  function SwitchEnd(ds: seq<int>, ledger: seq<Switch>, k: nat, current: int): int
    requires k < |ledger|
  {
    if k + 1 < |ledger| then CeilingIndex(ds, ledger[k + 1].date) else current
  }

  /** Switch k writes index j. */
  predicate Covers(ds: seq<int>, ledger: seq<Switch>, current: int, k: nat, j: int)
    requires k < |ledger|
  {
    SwitchStart(ds, ledger[k]) <= j <= SwitchEnd(ds, ledger, k, current)
  }

  /** An inclusive index range. */
  datatype Span = Span(lo: int, hi: int)
  {
    predicate Holds(j: int)
    {
      lo <= j <= hi
    }
  }

  /** The range every switch of the ledger writes, in ledger order. */
  function Spans(ds: seq<int>, ledger: seq<Switch>, current: int): (sp: seq<Span>)
    ensures |sp| == |ledger|
  {
    seq(|ledger|, k requires 0 <= k < |ledger| =>
      Span(SwitchStart(ds, ledger[k]), SwitchEnd(ds, ledger, k, current)))
  }

  /** The range of switch k is its start through its end, so it holds j exactly when switch k covers j. */
  lemma SpanAt(ds: seq<int>, ledger: seq<Switch>, current: int, k: nat)
    requires k < |ledger|
    ensures Spans(ds, ledger, current)[k] == Span(SwitchStart(ds, ledger[k]), SwitchEnd(ds, ledger, k, current))
  {
  }

  /** The range of switch k holds j exactly when switch k covers j. */
  lemma SpanHolds(ds: seq<int>, ledger: seq<Switch>, current: int, k: nat, j: int)
    requires k < |ledger|
    ensures Spans(ds, ledger, current)[k].Holds(j) <==> Covers(ds, ledger, current, k, j)
  {
    SpanAt(ds, ledger, current, k);
  }

  /** Among the first n ranges, the last one that contains index j. */
  function LastCover(spans: seq<Span>, n: nat, j: int): (r: Option<nat>)
    requires n <= |spans|
    ensures r.Some? ==> r.value < n && spans[r.value].Holds(j)
    ensures r.Some? ==> forall k :: r.value < k < n ==> !spans[k].Holds(j)
    ensures r.None? ==> forall k :: 0 <= k < n ==> !spans[k].Holds(j)
  {
    if n == 0 then None
    else if spans[n - 1].Holds(j) then Some(n - 1)
    else LastCover(spans, n - 1, j)
  }

  /** Every fund shares fund 0's length and the ledger names existing funds. */
  predicate Splicable(funds: seq<Fund>, ledger: seq<Switch>)
  {
    && |funds| > 0
    && LedgerFits(funds, ledger)
    && forall f :: 0 <= f < |funds| ==> |funds[f].data| == |funds[0].data|
  }

  /** Index j of the series after the first n switches, with ranges spans, have been written. */
  function HeldAfter(funds: seq<Fund>, ledger: seq<Switch>, spans: seq<Span>, n: nat, j: nat): Option<real>
    requires Splicable(funds, ledger) && |spans| == |ledger| && n <= |ledger| && j < |funds[0].data|
  {
    match LastCover(spans, n, j)
    case None => None
    case Some(k) => Some(funds[ledger[k].fundId].data[j].value)
  }

  /** The series s with indices a through b set to the values of data. */
  function Overwrite(s: seq<Option<real>>, a: int, b: int, data: seq<Point>): (r: seq<Option<real>>)
    requires |s| <= |data|
    ensures |r| == |s|
    ensures forall m :: 0 <= m < |s| ==> r[m] == if a <= m <= b then Some(data[m].value) else s[m]
  {
    seq(|s|, m requires 0 <= m < |s| && |s| <= |data| => if a <= m <= b then Some(data[m].value) else s[m])
  }

  /** Writing switch n over the series of the first n switches gives the series of the first n + 1. */
  lemma HeldAfterStep(funds: seq<Fund>, ledger: seq<Switch>, spans: seq<Span>, n: nat, j: nat)
    requires Splicable(funds, ledger) && |spans| == |ledger| && n < |ledger| && j < |funds[0].data|
    ensures HeldAfter(funds, ledger, spans, n + 1, j) ==
              if spans[n].Holds(j) then Some(funds[ledger[n].fundId].data[j].value)
              else HeldAfter(funds, ledger, spans, n, j)
  {
  }

  /**
   * The series the nested loops of calculateUserPortfolioValue leave after
   * the first n switches: all null, then each switch k in turn overwriting
   * its inclusive range spans[k] with its fund's values.
   */
  function Spliced(funds: seq<Fund>, ledger: seq<Switch>, spans: seq<Span>, n: nat): (r: seq<Option<real>>)
    requires Splicable(funds, ledger) && |spans| == |ledger| && n <= |ledger|
    ensures |r| == |funds[0].data|
  {
    if n == 0 then seq(|funds[0].data|, _ => None)
    else
      var k := n - 1;
      Overwrite(Spliced(funds, ledger, spans, k), spans[k].lo, spans[k].hi, funds[ledger[k].fundId].data)
  }

  /**
   * The loops agree with the last-cover reading: after n switches, index j
   * holds the value of the last of them whose range contains j, or null.
   */
  lemma {:induction false} SplicedIsLastCover(funds: seq<Fund>, ledger: seq<Switch>, spans: seq<Span>, n: nat, j: nat)
    requires Splicable(funds, ledger) && |spans| == |ledger| && n <= |ledger| && j < |funds[0].data|
    ensures Spliced(funds, ledger, spans, n)[j] == HeldAfter(funds, ledger, spans, n, j)
  {
    if n > 0 {
      SplicedIsLastCover(funds, ledger, spans, n - 1, j);
      HeldAfterStep(funds, ledger, spans, n - 1, j);
    }
  }

  /** The series calculateUserPortfolioValue returns, with `current` the current data index. */
  function PortfolioSeries(funds: seq<Fund>, ledger: seq<Switch>, current: int): (r: seq<Option<real>>)
    requires |funds| > 0 ==> Splicable(funds, ledger)
    ensures (|funds| == 0 || ledger == []) ==> r == []
    ensures |funds| > 0 && ledger != [] ==> |r| == |funds[0].data|
    ensures |funds| > 0 && ledger != [] ==>
              forall j :: 0 <= j < |r| ==>
                r[j] == HeldAfter(funds, ledger, Spans(Axis(funds), ledger, current), |ledger|, j)
  {
    if |funds| == 0 || ledger == [] then []
    else seq(|funds[0].data|, j requires 0 <= j < |funds[0].data| && Splicable(funds, ledger) =>
               HeldAfter(funds, ledger, Spans(Axis(funds), ledger, current), |ledger|, j))
  }

  /**
   * When switch k is the last switch whose range contains j, index j holds the
   * value of switch k's fund at j (PortfolioNullAt covers the null case).
   */
  lemma PortfolioValueAt(funds: seq<Fund>, ledger: seq<Switch>, current: int, j: nat, k: nat)
    requires Splicable(funds, ledger) && ledger != [] && j < |funds[0].data| && k < |ledger|
    requires Covers(Axis(funds), ledger, current, k, j)
    requires forall m :: k < m < |ledger| ==> !Covers(Axis(funds), ledger, current, m, j)
    ensures PortfolioSeries(funds, ledger, current)[j] == Some(funds[ledger[k].fundId].data[j].value)
  {
    var sp := Spans(Axis(funds), ledger, current);
    SpanHolds(Axis(funds), ledger, current, k, j);
    forall m | k < m < |ledger|
      ensures !sp[m].Holds(j)
    {
      assert !Covers(Axis(funds), ledger, current, m, j);
      SpanHolds(Axis(funds), ledger, current, m, j);
    }
    var c := LastCover(sp, |ledger|, j);
    assert c.Some? && c.value == k;
  }

  lemma PortfolioNullAt(funds: seq<Fund>, ledger: seq<Switch>, current: int, j: nat)
    requires Splicable(funds, ledger) && ledger != [] && j < |funds[0].data|
    ensures PortfolioSeries(funds, ledger, current)[j].None? <==>
            forall k :: 0 <= k < |ledger| ==> !Covers(Axis(funds), ledger, current, k, j)
  {
    var sp := Spans(Axis(funds), ledger, current);
    forall k | 0 <= k < |ledger|
      ensures sp[k].Holds(j) <==> Covers(Axis(funds), ledger, current, k, j)
    {
      SpanHolds(Axis(funds), ledger, current, k, j);
    }
    var c := LastCover(sp, |ledger|, j);
    assert PortfolioSeries(funds, ledger, current)[j].None? <==> c.None?;
  }

  /** Only the last point in time bounds the switch dates. */
  predicate WithinAxis(ds: seq<int>, ledger: seq<Switch>)
  {
    |ds| > 0 && forall k :: 0 <= k < |ledger| ==> ledger[k].date <= ds[|ds| - 1]
  }

  /** With ordered switch dates inside the axis, no switch starts before the first one. */
  lemma StartsNotBeforeFirst(ds: seq<int>, ledger: seq<Switch>, k: nat)
    requires LedgerOrdered(ledger) && WithinAxis(ds, ledger) && k < |ledger|
    ensures SwitchStart(ds, ledger[0]) <= SwitchStart(ds, ledger[k])
  {
    FirstAtOrAfterMonotone(ds, ledger[0].date, ledger[k].date);
    assert FirstAtOrAfter(ds, ledger[k].date) < |ds|;
  }

  /**
   * The series is null at every index before the first switch's start, when
   * the switch dates are ordered and inside the axis.
   */
  lemma NullBeforeFirstStart(funds: seq<Fund>, ledger: seq<Switch>, current: int, j: nat)
    requires Splicable(funds, ledger) && ledger != [] && j < |funds[0].data|
    requires LedgerOrdered(ledger) && WithinAxis(Axis(funds), ledger)
    requires j < SwitchStart(Axis(funds), ledger[0])
    ensures PortfolioSeries(funds, ledger, current)[j] == None
  {
    forall k | 0 <= k < |ledger|
      ensures !Covers(Axis(funds), ledger, current, k, j)
    {
      StartsNotBeforeFirst(Axis(funds), ledger, k);
    }
    PortfolioNullAt(funds, ledger, current, j);
  }

  /**
   * The inclusive end of switch k is the start of switch k + 1, so that shared
   * index is rewritten by switch k + 1 (or a later switch) whenever switch
   * k + 1 covers it.
   */
  lemma SharedBoundary(funds: seq<Fund>, ledger: seq<Switch>, current: int, k: nat)
    requires Splicable(funds, ledger) && k + 1 < |ledger|
    requires WithinAxis(Axis(funds), ledger)
    ensures SwitchEnd(Axis(funds), ledger, k, current) == SwitchStart(Axis(funds), ledger[k + 1])
    ensures var b := SwitchStart(Axis(funds), ledger[k + 1]);
            Covers(Axis(funds), ledger, current, k + 1, b) ==>
              exists m :: k < m < |ledger| && Covers(Axis(funds), ledger, current, m, b) &&
                PortfolioSeries(funds, ledger, current)[b] == Some(funds[ledger[m].fundId].data[b].value)
  {
    var ds := Axis(funds);
    assert FirstAtOrAfter(ds, ledger[k + 1].date) < |ds|;
    var b := SwitchStart(ds, ledger[k + 1]);
    if Covers(ds, ledger, current, k + 1, b) {
      var sp := Spans(ds, ledger, current);
      SpanHolds(ds, ledger, current, k + 1, b);
      var c := LastCover(sp, |ledger|, b);
      var m := c.value;
      SpanHolds(ds, ledger, current, m, b);
      assert PortfolioSeries(funds, ledger, current)[b] == Some(funds[ledger[m].fundId].data[b].value);
      assert k < m < |ledger| && Covers(ds, ledger, current, m, b);
    }
  }

  /** Switch n-1 or an earlier one covers j, given that switch n (if any) starts after j. */
  lemma {:induction false} CoveredBelow(ds: seq<int>, ledger: seq<Switch>, current: int, n: nat, j: int)
    requires 1 <= n <= |ledger|
    requires SwitchStart(ds, ledger[0]) <= j <= current
    requires n < |ledger| ==> SwitchStart(ds, ledger[n]) > j
    requires forall k :: 0 <= k < |ledger| - 1 ==> SwitchEnd(ds, ledger, k, current) == SwitchStart(ds, ledger[k + 1])
    ensures exists k :: 0 <= k < n && Covers(ds, ledger, current, k, j)
  {
    if SwitchStart(ds, ledger[n - 1]) <= j {
      assert Covers(ds, ledger, current, n - 1, j);
    } else {
      CoveredBelow(ds, ledger, current, n - 1, j);
    }
  }

  /**
   * With ordered switch dates inside the axis and the current index on the
   * axis, every index from the first switch's start through the current
   * index holds a value.
   */
  lemma DefinedFromFirstStart(funds: seq<Fund>, ledger: seq<Switch>, current: int, j: nat)
    requires Splicable(funds, ledger) && ledger != [] && current < |funds[0].data|
    requires LedgerOrdered(ledger) && WithinAxis(Axis(funds), ledger)
    requires SwitchStart(Axis(funds), ledger[0]) <= j <= current
    ensures PortfolioSeries(funds, ledger, current)[j].Some?
  {
    var ds := Axis(funds);
    forall k | 0 <= k < |ledger| - 1
      ensures SwitchEnd(ds, ledger, k, current) == SwitchStart(ds, ledger[k + 1])
    {
      assert FirstAtOrAfter(ds, ledger[k + 1].date) < |ds|;
    }
    CoveredBelow(ds, ledger, current, |ledger|, j);
    PortfolioNullAt(funds, ledger, current, j);
  }

  /**
   * A switch dated after the last point starts at index 0, not at the end:
   * on the axis [0, 10] with switches (0, fund 0) and (11, fund 1) and current
   * index 1, fund 1 overwrites the whole series, index 0 included.
   */
  lemma LateSwitchRestartsAtZero()
    ensures var ds := [0, 10];
            var ledger := [Switch(0, 0), Switch(11, 1)];
            SwitchStart(ds, ledger[1]) == 0 &&
            LastCover(Spans(ds, ledger, 1), 2, 0) == Some(1) &&
            LastCover(Spans(ds, ledger, 1), 2, 1) == Some(1)
  {
    var ds := [0, 10];
    var ledger := [Switch(0, 0), Switch(11, 1)];
    assert FirstAtOrAfter(ds, 11) == 2;
    assert FirstAtOrAfter(ds, 0) == 0;
    SpanAt(ds, ledger, 1, 1);
  }
}
