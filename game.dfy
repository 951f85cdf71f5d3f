/**
 * The FundGame state machine: the simulated clock, the phase (tutorial, then
 * the live game from 2022), the yearly adjustment budget, the switch ledger
 * and the fund store, with the operations that change them.
 */
module Game {
  import opened Wrappers
  import opened TimeSeries
  import opened CalendarIndex
  import opened Portfolio
  import opened Statistics

  datatype Phase = Tutorial | Playing

  /** What one call of nextWeek did. */
  datatype WeekOutcome =
    | NoFunds                                  // no data loaded: nothing happened
    | Ended                                    // the date reached the end of the data: final summary
    | Advanced(yearSummary: bool, newYear: bool)  // the December summary and the new-year handling it ran

  /** The year the live phase starts, and the January index whose values become the new base. */
  const LiveYear: int := 2022
  const January: int := 0
  const December: int := 11
  /** Adjustments granted at every new year. */
  const ChangesPerYear: int := 3
  /** new Date('2020-12-30'): midnight UTC, in milliseconds. */
  const StartDate: int := 1609286400000
  const StartYear: int := 2020

  /** The index resetGameFor2022 and getChartStartIndex look for: the first point dated January 2022. */
  function LiveStartIndex(funds: seq<Fund>, cal: Calendar): Option<nat>
  {
    MonthStart(Axis(funds), cal, LiveYear, January)
  }

  /** The fund store after resetGameFor2022: normalised at the live-start index when there is one. */
  function ResetFunds(funds: seq<Fund>, cal: Calendar): (g: seq<Fund>)
    requires WellFormed(funds) && |funds| > 0
    ensures WellFormed(g)
  {
    match LiveStartIndex(funds, cal)
    case None => funds
    case Some(r) =>
      RebasedWellFormed(funds, r);
      Rebased(funds, r)
  }

  /**
   * The effect of the reset on fund f: without a January-2022 point nothing
   * changes; with one at r, fund f keeps its name and is normalised at r
   * (NormalizedBase, NormalizedScales: 1 at r, earlier points kept, later
   * values divided by the value at r), with its value at r nonzero.
   */
  lemma ResetFundsEffect(funds: seq<Fund>, cal: Calendar, f: nat)
    requires WellFormed(funds) && f < |funds|
    ensures LiveStartIndex(funds, cal).None? ==> ResetFunds(funds, cal) == funds
    ensures LiveStartIndex(funds, cal).Some? ==>
              var r := LiveStartIndex(funds, cal).value;
              r < |funds[f].data| && funds[f].data[r].value > 0.0 &&
              ResetFunds(funds, cal)[f] == Fund(funds[f].name, Normalized(funds[f].data, r))
  {
    assert |Dates(funds[f].data)| == |Dates(funds[0].data)|;
  }

  /** A well-formed store with a fitting ledger can be spliced. */
  lemma FitsSplicable(funds: seq<Fund>, ledger: seq<Switch>)
    requires WellFormed(funds) && |funds| > 0 && LedgerFits(funds, ledger)
    ensures Splicable(funds, ledger)
  {
    forall f | 0 <= f < |funds|
      ensures |funds[f].data| == |funds[0].data|
    {
      assert |Dates(funds[f].data)| == |Dates(funds[0].data)|;
    }
  }

  class FundGame {
    const cal: Calendar
    var funds: seq<Fund>
    var currentDate: int
    var currentYear: int
    var gamePhase: Phase
    var remainingChanges: int
    var userPortfolio: seq<Switch>
    var selectedFund: Option<nat>

    ghost predicate Valid()
      reads this
    {
      && WellFormed(funds)
      && LedgerFits(funds, userPortfolio)
      && LedgerOrdered(userPortfolio)
      && (forall k :: 0 <= k < |userPortfolio| ==> userPortfolio[k].date <= currentDate)
      && (selectedFund.Some? ==> selectedFund.value < |funds|)
      && 0 <= remainingChanges <= ChangesPerYear
      && (gamePhase == Playing ==> currentYear >= LiveYear)
    }

    constructor (cal: Calendar)
      ensures Valid()
      ensures this.cal == cal && funds == [] && currentDate == StartDate && currentYear == StartYear
      ensures gamePhase == Tutorial && remainingChanges == ChangesPerYear
      ensures userPortfolio == [] && selectedFund == None
    {
      this.cal := cal;
      funds := [];
      currentDate := StartDate;
      gamePhase := Tutorial;
      currentYear := StartYear;
      selectedFund := None;
      userPortfolio := [];
      remainingChanges := ChangesPerYear;
    }

    /** processFundData without the parsing: the loaded funds replace the store. */
    method LoadFunds(data: seq<Fund>)
      requires Valid() && WellFormed(data)
      requires LedgerFits(data, userPortfolio) && (selectedFund.Some? ==> selectedFund.value < |data|)
      modifies this`funds
      ensures Valid() && funds == data
    {
      funds := data;
    }

    /** The index getCurrentDataIndex returns. */
    function CurrentIndex(): nat
      reads this
    {
      FloorIndex(Axis(funds), currentDate)
    }

    /** getCurrentDataIndex: scan fund 0 forward, remembering the last date at or before the current date. */
    method GetCurrentDataIndex() returns (lastValidIndex: nat)
      ensures lastValidIndex == CurrentIndex()
      ensures |funds| > 0 && |funds[0].data| > 0 ==> lastValidIndex < |funds[0].data|
    {
      if |funds| == 0 {
        return 0;
      }
      var data := funds[0].data;
      ghost var ds := Dates(data);
      lastValidIndex := 0;
      var i := 0;
      while i < |data|
        invariant 0 <= i <= |data|
        invariant forall m :: 0 <= m < i ==> ds[m] <= currentDate
        invariant lastValidIndex == if i == 0 then 0 else i - 1
      {
        if data[i].date <= currentDate {
          lastValidIndex := i;
        } else {
          break;
        }
        i := i + 1;
      }
    }

    /** findDateIndex: the first index of fund 0 dated at or after `date`, else the last index. */
    method FindDateIndex(date: int) returns (idx: int)
      ensures idx == if |funds| == 0 then 0 else CeilingIndex(Axis(funds), date)
    {
      if |funds| == 0 {
        return 0;
      }
      var data := funds[0].data;
      ghost var ds := Dates(data);
      var i := 0;
      while i < |data|
        invariant 0 <= i <= |data|
        invariant forall m :: 0 <= m < i ==> ds[m] < date
      {
        if data[i].date >= date {
          return i;
        }
        i := i + 1;
      }
      return |data| - 1;
    }

    /** isEndOfData */
    predicate EndOfData()
      reads this
    {
      |funds| == 0 || CurrentIndex() >= |funds[0].data| - 1
    }

    /** isEndOfData: no funds, or the current date has reached the last point of the axis. */
    method IsEndOfData() returns (end: bool)
      requires Valid()
      ensures end == EndOfData()
      ensures end <==> |funds| == 0 || |funds[0].data| <= 1 ||
                       funds[0].data[|funds[0].data| - 1].date <= currentDate
    {
      if |funds| == 0 {
        return true;
      }
      var idx := GetCurrentDataIndex();
      end := idx >= |funds[0].data| - 1;
      ghost var ds := Axis(funds);
      if |ds| > 1 && ds[0] <= currentDate {
        assert Sorted(ds);
      }
    }

    /** getChartStartIndex: in the live phase the chart starts at the January-2022 point, otherwise at 0. */
    function ChartStartIndex(): (r: nat)
      reads this
      ensures gamePhase != Playing || |funds| == 0 ==> r == 0
      ensures r > 0 ==> LiveStartIndex(funds, cal) == Some(r)
      ensures gamePhase == Playing && |funds| > 0 && LiveStartIndex(funds, cal).Some? ==>
                r == LiveStartIndex(funds, cal).value
    {
      if gamePhase != Playing || |funds| == 0 then 0
      else
        match LiveStartIndex(funds, cal)
        case None => 0
        case Some(r) => r
    }

    /** The fill loop of calculateUserPortfolioValue: indices start through end take the fund's values. */
    static method WriteRange(result: array<Option<real>>, start: int, end: int, values: seq<Point>)
      requires 0 <= start && end < result.Length <= |values|
      modifies result
      ensures result[..] == Overwrite(old(result[..]), start, end, values)
    {
      var j := start;
      while j <= end
        invariant start <= j && (j == start || j <= end + 1)
        invariant forall m :: 0 <= m < result.Length ==>
                    result[m] == if start <= m < j then Some(values[m].value) else old(result[m])
      {
        result[j] := Some(values[j].value);
        j := j + 1;
      }
      assert forall m :: 0 <= m < result.Length ==>
        result[..][m] == Overwrite(old(result[..]), start, end, values)[m];
    }

    /** One pass of the outer loop of calculateUserPortfolioValue: switch i writes its range. */
    method WriteSwitch(result: array<Option<real>>, store: seq<Fund>, ledger: seq<Switch>, i: nat,
                       ghost current: int, ghost spans: seq<Span>)
      requires store == funds && ledger == userPortfolio && current == CurrentIndex()
      requires Splicable(store, ledger) && i < |ledger| && spans == Spans(Axis(store), ledger, current)
      requires 0 < |store[0].data| && result[..] == Spliced(store, ledger, spans, i)
      modifies result
      ensures result[..] == Spliced(store, ledger, spans, i + 1)
    {
      var change := ledger[i];
      var values := store[change.fundId].data;
      var startIndex := SwitchStartIndex(change);
      var endIndex;
      if i < |ledger| - 1 {
        endIndex := FindDateIndex(ledger[i + 1].date);
      } else {
        endIndex := GetCurrentDataIndex();
      }
      SpanAt(Axis(store), ledger, current, i);
      WriteRange(result, startIndex, endIndex, values);
    }

    /**
     * calculateUserStats, total return: the selected fund from its first point
     * to the current index, in percent; the default 0 without a selection or
     * funds, and when the selected series is empty (the caught TypeError).
     */
    function UserTotalReturn(): (r: real)
      reads this
      requires Valid()
      ensures selectedFund.None? || |funds| == 0 ==> r == 0.0
      ensures selectedFund.Some? && |funds[0].data| > 0 ==>
                var d := funds[selectedFund.value].data;
                CurrentIndex() < |d| && (r > 0.0 <==> d[CurrentIndex()].value > d[0].value) &&
                (r == 0.0 <==> d[CurrentIndex()].value == d[0].value)
    {
      if selectedFund.None? || |funds| == 0 then 0.0
      else
        var d := funds[selectedFund.value].data;
        assert |Dates(d)| == |Dates(funds[0].data)|;
        if |d| == 0 then 0.0
        else TotalReturn(Values(d), CurrentIndex())
    }

    /**
     * calculateUserStats, maximum drawdown: the percent-form scan of the
     * selected fund from its first point through the current index.
     */
    function UserMaxDrawdown(): (r: real)
      reads this
      requires Valid()
      ensures r >= 0.0
      ensures selectedFund.None? || |funds| == 0 ==> r == 0.0
      ensures selectedFund.Some? && |funds[0].data| > 0 ==>
                var d := funds[selectedFund.value].data;
                CurrentIndex() < |d| && r <= 100.0 &&
                (r == 0.0 <==> NonDecreasing(Values(d), CurrentIndex()))
    {
      if selectedFund.None? || |funds| == 0 then 0.0
      else
        var d := funds[selectedFund.value].data;
        assert |Dates(d)| == |Dates(funds[0].data)|;
        if |d| == 0 then 0.0
        else
          var v := Values(d);
          MaxDrawdownNonNegative(v, CurrentIndex(), 100.0);
          MaxDrawdownAtMostScale(v, CurrentIndex(), 100.0);
          MaxDrawdownZeroIff(v, CurrentIndex(), 100.0);
          MaxDrawdownOf(v, CurrentIndex(), 100.0)
    }

    /** The all-null series calculateUserPortfolioValue starts from. */
    static method NullSeries(store: seq<Fund>, ledger: seq<Switch>, ghost spans: seq<Span>)
      returns (result: array<Option<real>>)
      requires Splicable(store, ledger) && |spans| == |ledger|
      ensures fresh(result)
      ensures result[..] == Spliced(store, ledger, spans, 0)
    {
      result := new Option<real>[|store[0].data|](_ => None);
      assert result[..] == Spliced(store, ledger, spans, 0);
    }

    /** The nested loops of calculateUserPortfolioValue, on a non-empty ledger. */
    method SpliceLedger() returns (series: seq<Option<real>>)
      requires Splicable(funds, userPortfolio) && userPortfolio != [] && |funds[0].data| > 0
      ensures series == Spliced(funds, userPortfolio, Spans(Axis(funds), userPortfolio, CurrentIndex()), |userPortfolio|)
    {
      var store, ledger := funds, userPortfolio;
      ghost var current := CurrentIndex();
      ghost var spans := Spans(Axis(store), ledger, current);
      var result := NullSeries(store, ledger, spans);
      var i := 0;
      while i < |ledger|
        invariant 0 <= i <= |ledger|
        invariant result[..] == Spliced(store, ledger, spans, i)
      {
        WriteSwitch(result, store, ledger, i, current, spans);
        i := i + 1;
      }
      series := result[..];
    }

    /** The start-index scan of calculateUserPortfolioValue: the first date at or after the switch, else 0. */
    method SwitchStartIndex(change: Switch) returns (startIndex: nat)
      ensures startIndex == if |funds| == 0 then 0 else SwitchStart(Axis(funds), change)
    {
      startIndex := 0;
      if |funds| == 0 {
        return;
      }
      var data := funds[0].data;
      ghost var ds := Dates(data);
      var j := 0;
      while j < |data|
        invariant 0 <= j <= |data|
        invariant forall m :: 0 <= m < j ==> ds[m] < change.date
      {
        if data[j].date >= change.date {
          startIndex := j;
          return;
        }
        j := j + 1;
      }
    }

    /**
     * calculateUserPortfolioValue: a null series as long as fund 0, written
     * switch by switch over each switch's inclusive range.
     */
    method CalculateUserPortfolioValue() returns (series: seq<Option<real>>)
      requires Valid()
      requires |funds| > 0 && userPortfolio != [] ==> |funds[0].data| > 0
      ensures |funds| > 0 ==> Splicable(funds, userPortfolio)
      ensures series == PortfolioSeries(funds, userPortfolio, CurrentIndex())
    {
      if |funds| == 0 {
        return [];
      }
      FitsSplicable(funds, userPortfolio);
      if |userPortfolio| == 0 {
        return [];
      }
      series := SpliceLedger();
      forall j | 0 <= j < |series|
        ensures series[j] == PortfolioSeries(funds, userPortfolio, CurrentIndex())[j]
      {
        SplicedIsLastCover(funds, userPortfolio, Spans(Axis(funds), userPortfolio, CurrentIndex()), |userPortfolio|, j);
      }
    }

    /**
     * showFundSelector: the selector opens when adjustments remain or in the
     * tutorial; only outside the tutorial does opening use one up.
     */
    method ShowFundSelector() returns (shown: bool)
      requires Valid()
      modifies this`remainingChanges
      ensures Valid()
      ensures shown == (old(remainingChanges) > 0 || gamePhase == Tutorial)
      ensures remainingChanges ==
                if shown && gamePhase != Tutorial then old(remainingChanges) - 1 else old(remainingChanges)
    {
      if remainingChanges > 0 || gamePhase == Tutorial {
        shown := true;
        if gamePhase != Tutorial {
          remainingChanges := remainingChanges - 1;
        }
      } else {
        shown := false;
      }
    }

    /**
     * selectFund with the parsed selector value (None for NaN): an existing
     * fund becomes the selection and a switch dated today is appended.
     */
    method SelectFund(choice: Option<int>) returns (accepted: bool)
      requires Valid()
      modifies this`selectedFund, this`userPortfolio
      ensures Valid()
      ensures accepted == (choice.Some? && 0 <= choice.value < |funds|)
      ensures accepted ==> selectedFund == Some(choice.value as nat) &&
                           userPortfolio == old(userPortfolio) + [Switch(currentDate, choice.value as nat)]
      ensures !accepted ==> selectedFund == old(selectedFund) && userPortfolio == old(userPortfolio)
    {
      accepted := choice.Some? && 0 <= choice.value < |funds|;
      if accepted {
        var fundId := choice.value as nat;
        selectedFund := Some(fundId);
        userPortfolio := userPortfolio + [Switch(currentDate, fundId)];
      }
    }

    /** The inner loop of resetGameFor2022: divide the values from index r on by the value at r. */
    static method NormalizeFrom(data: seq<Point>, r: nat) returns (out: seq<Point>)
      requires r < |data| && data[r].value != 0.0
      ensures out == Normalized(data, r)
    {
      out := data;
      var resetValue := data[r].value;
      var i := r;
      while i < |out|
        invariant r <= i <= |out| == |data|
        invariant forall m :: 0 <= m < i ==> out[m] == Normalized(data, r)[m]
        invariant forall m :: i <= m < |out| ==> out[m] == data[m]
      {
        out := out[i := Point(out[i].date, out[i].value / resetValue)];
        i := i + 1;
      }
    }

    /** The forEach of resetGameFor2022: every fund normalised at index r, with its own value at r. */
    static method RebaseStore(store: seq<Fund>, r: nat) returns (out: seq<Fund>)
      requires WellFormed(store) && |store| > 0 && r < |store[0].data|
      ensures out == Rebased(store, r)
    {
      out := store;
      var f := 0;
      while f < |out|
        invariant 0 <= f <= |out| == |store|
        invariant forall g :: 0 <= g < f ==> out[g] == Rebased(store, r)[g]
        invariant forall g :: f <= g < |out| ==> out[g] == store[g]
      {
        assert |Dates(store[f].data)| == |Dates(store[0].data)|;
        var data := NormalizeFrom(out[f].data, r);
        out := out[f := Fund(out[f].name, data)];
        f := f + 1;
      }
    }

    /**
     * resetGameFor2022: clear the ledger and the selection; when fund 0 has a
     * January-2022 point r, divide every fund's values from r on by that
     * fund's value at r, read before the loop.
     */
    method ResetGameFor2022()
      requires Valid() && |funds| > 0
      modifies this`funds, this`userPortfolio, this`selectedFund
      ensures Valid()
      ensures userPortfolio == [] && selectedFund == None
      ensures funds == ResetFunds(old(funds), cal)
    {
      userPortfolio := [];
      selectedFund := None;
      var resetIndex := LiveStartIndex(funds, cal);
      if resetIndex.Some? {
        RebasedWellFormed(funds, resetIndex.value);
        funds := RebaseStore(funds, resetIndex.value);
      }
      assert WellFormed(funds);
    }

    /** Everything but the date is as before. */
    twostate predicate StateKept()
      reads this
    {
      && currentYear == old(currentYear) && gamePhase == old(gamePhase) && funds == old(funds)
      && remainingChanges == old(remainingChanges) && userPortfolio == old(userPortfolio)
      && selectedFund == old(selectedFund)
    }

    /** What handleNewYear leaves behind, relative to the state before it. */
    twostate predicate NewYearHandled()
      reads this
      requires old(WellFormed(funds)) && |old(funds)| > 0
    {
      && currentYear == cal.year(currentDate)
      && (currentYear == LiveYear ==>
            gamePhase == Playing && userPortfolio == [] && selectedFund == None &&
            funds == ResetFunds(old(funds), cal))
      && (currentYear != LiveYear ==>
            gamePhase == old(gamePhase) && funds == old(funds) &&
            userPortfolio == old(userPortfolio) && selectedFund == old(selectedFund))
      && remainingChanges == if gamePhase == Tutorial then ChangesPerYear else ChangesPerYear - 1
    }

    /**
     * handleNewYear: take the new year; entering 2022 starts the live phase
     * and normalises the store; then grant the yearly adjustments and open the
     * selector, which in the live phase uses one of them.
     */
    method HandleNewYear()
      requires Valid() && |funds| > 0
      requires cal.year(currentDate) > currentYear
      modifies this
      ensures Valid() && NewYearHandled() && currentDate == old(currentDate)
    {
      currentYear := cal.year(currentDate);
      if currentYear == LiveYear {
        gamePhase := Playing;
        ResetGameFor2022();
      }
      remainingChanges := ChangesPerYear;
      var _ := ShowFundSelector();
    }

    /**
     * checkSpecialDateEvents: the year summary from 25 December on (it only
     * reads the state), then the new-year handling when the date's year is
     * past the current year.
     */
    method CheckSpecialDateEvents() returns (yearSummary: bool, newYear: bool)
      requires Valid() && |funds| > 0
      modifies this
      ensures Valid() && currentDate == old(currentDate)
      ensures yearSummary == (cal.month(currentDate) == December && cal.day(currentDate) >= 25)
      ensures newYear == (cal.year(currentDate) > old(currentYear))
      ensures newYear ==> NewYearHandled()
      ensures !newYear ==>
                StateKept()
    {
      yearSummary := cal.month(currentDate) == December && cal.day(currentDate) >= 25;
      newYear := cal.year(currentDate) > currentYear;
      if newYear {
        HandleNewYear();
      }
    }

    /**
     * nextWeek: with funds loaded, advance the date by one week; stop at the
     * end of the data, otherwise run the date events.
     */
    method NextWeek() returns (outcome: WeekOutcome)
      requires Valid()
      modifies this
      ensures Valid()
      ensures old(|funds|) == 0 <==> outcome == NoFunds
      ensures currentDate == if outcome == NoFunds then old(currentDate) else old(currentDate) + WeekMs
      ensures outcome.Ended? <==> outcome != NoFunds && EndOfData()
      ensures !outcome.Advanced? || !outcome.newYear ==>
                StateKept()
      ensures outcome.Advanced? ==>
                outcome.yearSummary == (cal.month(currentDate) == December && cal.day(currentDate) >= 25) &&
                outcome.newYear == (cal.year(currentDate) > old(currentYear))
      ensures outcome.Advanced? && outcome.newYear ==> NewYearHandled()
    {
      if |funds| == 0 {
        return NoFunds;
      }
      currentDate := currentDate + WeekMs;
      var end := IsEndOfData();
      if end {
        return Ended;
      }
      var yearSummary, newYear := CheckSpecialDateEvents();
      return Advanced(yearSummary, newYear);
    }
  }
}
