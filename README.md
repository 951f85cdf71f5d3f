# FundGame simulation engine, modelled in Dafny

`script.js` implements a week-by-week fund-investment game, the `FundGame` class.
- A simulated clock starts on 30 December 2020 and advances one week per `nextWeek`.
- 2020 and 2021 are a tutorial. The live game starts in January 2022. At that point every fund's value history is renormalised to 1 at the first January-2022 point, and the user's switch ledger is cleared.
- Each year grants three adjustments. Opening the fund selector in the live phase uses one up.
- A user's holding is a ledger of switches (date, fund). The portfolio curve is spliced together from the chosen funds' series.
- The leaderboards sort funds by return.
- A final summary ranks the user against the funds.
- A commentary panel shows the review whose date key is nearest to the current date.

This project models that engine without its DOM and chart code, and proves what each piece computes:
- `TimeSeries`: funds as sequences of (date, value) points. Dates are integer milliseconds. Values are exact reals. It also holds the live-phase normalisation.
- `CalendarIndex`: the date-to-index lookups. These are the floor lookup of `getCurrentDataIndex`, the ceiling lookups of `findDateIndex` and of the start scan in `calculateUserPortfolioValue`, and the January-2022 `findIndex`.
- `Portfolio`: the spliced portfolio series, as a specification over the switch ledger. A switch dated after the last data point has no ceiling index, and the source's start scan then leaves its start at index 0 (script.js:919-926), so that switch overwrites the series from the beginning (`LateSwitchRestartsAtZero`). The source lets this happen: `selectFund` (script.js:215-228) does not check for the end of the data, so a fund chosen after the final week is recorded with a date past the axis. For that reason the lemmas about the leading nulls and the shared boundaries (`NullBeforeFirstStart`, `SharedBoundary`) assume every switch date lies inside the axis (`WithinAxis`).
- `Commentary`: `findClosestDate`.
- `Statistics`: total return, the running-peak maximum-drawdown scan (percent form and fraction form) and `calculateMedian`.
- `Ranking`: the stable descending sorts behind the leaderboards, `calculateFundPerformance` and `calculateUserRank`.
- `Game`: the class `FundGame`. Its fields are `funds`, `currentDate`, `currentYear`, `gamePhase`, `remainingChanges`, `userPortfolio` and `selectedFund`. Its methods change them as the source's methods do: `nextWeek`, `checkSpecialDateEvents`, `handleNewYear`, `showFundSelector`, `selectFund` and `resetGameFor2022`. The scanning loops (`getCurrentDataIndex`, `findDateIndex`, the nested fill loops of `calculateUserPortfolioValue`, the in-place division of `resetGameFor2022`) are `while` loops. Each is proved equal to the specification function of its module.

The calendar accessors `getFullYear`, `getMonth` and `getDate` are a given `Calendar` value, three functions of the millisecond date, fixed when the game is constructed. The market-review map is a parameter of `FindClosestDate`.

## Model

| member | source | states |
|---|---|---|
| TimeSeries.Normalized | script.js:1392-1398 | the series with every point from index r on divided by the value at r read before the loop, and earlier points kept; same length and dates |
| TimeSeries.NormalizedBase | script.js:1394-1397 | the point at the reset index becomes exactly 1, and every point before it is unchanged |
| TimeSeries.NormalizedScales | script.js:1395-1397 | from the reset index on, every new value times the old value at r is the old value (one common factor) |
| TimeSeries.NormalizedKeepsRatios | script.js:1395-1397 | the ratio between any two points at or after the reset index is unchanged, so relative performance survives the reset |
| TimeSeries.NormalizedPositive | script.js:1395-1397 | positive values stay positive |
| TimeSeries.Rebased | script.js:1393-1398 | every fund keeps its name and has its own series normalised at the same index, each by its own value there |
| TimeSeries.RebasedWellFormed | script.js:1393-1398 | after the reset all funds still share fund 0's dates and hold positive values |
| CalendarIndex.LeadingAtOrBefore | script.js:889-896 | the count where the forward scan breaks: every earlier date is at or before t, and the date at the count (if any) is after t |
| CalendarIndex.FloorIndex | script.js:881-905 | 0 on an empty axis or one that starts after t; otherwise, on a sorted axis, an index below the length whose date is at or before t with every later date after t |
| CalendarIndex.LeadingMonotone | script.js:889-896 | the scan's count never decreases as t grows |
| CalendarIndex.FloorMonotone | script.js:881-905 | a later current date never yields an earlier data index |
| CalendarIndex.FirstAtOrAfterFrom | script.js:943-948 | from index i on, the first index whose date is at or after t, or the length; every date skipped is before t |
| CalendarIndex.FirstAtOrAfter | script.js:943-948 | the least index whose date is at or after t (every earlier date is before t), or the length when none is |
| CalendarIndex.FirstAtOrAfterFromMonotone | script.js:943-948 | the first qualifying index from i on only moves right as t grows |
| CalendarIndex.FirstAtOrAfterMonotone | script.js:943-948 | the first qualifying index only moves right as t grows |
| CalendarIndex.CeilingIndex | script.js:940-951 | the least index with date at or after t; when no date qualifies, the last index (len - 1, not len), every date then being before t |
| CalendarIndex.ChangeStart | script.js:919-926 | the least index with date at or after t; when none qualifies, 0 (the start scan's default), every date then being before t |
| CalendarIndex.ChangeStartIsCeiling | script.js:919-929 | whenever some date reaches t, the start scan and findDateIndex return the same index |
| CalendarIndex.MonthStartFrom | script.js:1388-1390 | findIndex from i: the first index whose date falls in the given year and month, none before it does; None (-1) exactly when no date from i on does |
| CalendarIndex.MonthStart | script.js:1388-1390 | findIndex over the whole axis for the given year and month, with the same first-match and none-match guarantees |
| Commentary.FirstClosest | script.js:534-545 | the scan's choice among the first n keys: at minimum distance from the target, and strictly closer than every key before it (first on ties) |
| Commentary.Chosen | script.js:534-551 | when some key is within 30 days, the first key at minimum distance; when every key is farther than 30 days, key 0 |
| Commentary.FindClosestDate | script.js:518-555 | null exactly when the reviews are missing or have no keys; otherwise the text of the Chosen key, so always one of the keys |
| Commentary.FallbackIgnoresNearerKey | script.js:547-551 | with keys on day 0 and day 40 and a target on day 80, the day-0 key is returned although the day-40 key is nearer |
| Statistics.TotalReturn | script.js:1025-1027 | (v[n] - v[0]) / v[0] * 100 is positive exactly when v[n] exceeds v[0], zero exactly when they are equal, and zero at n = 0 |
| Statistics.TotalReturnExample | script.js:1025-1027 | the series 100, 110, 99 has a total return of -1 percent |
| Statistics.Peak | script.js:1043-1047 | the running peak is at least the first value and at least every value seen so far |
| Statistics.FallPositive | script.js:1049 | a value strictly below the peak falls by a positive amount |
| Statistics.FallAtMostScale | script.js:1049 | for non-negative values the fall is at most the scale (100 percent) |
| Statistics.FallScales | script.js:1049 | the percent fall is 100 times the fraction fall |
| Statistics.MaxDrawdown | script.js:1042-1052 | the running-peak loop returns the MaxDrawdownOf value, for the percent scale (1049, 1108) and the fraction scale (1294) alike |
| Statistics.PeakRises | script.js:1046-1047 | the peak never decreases along the scan |
| Statistics.MaxDrawdownNonNegative | script.js:1042-1052 | the maximum drawdown is never negative |
| Statistics.MaxDrawdownIsLargest | script.js:1048-1050 | every drawdown the scan records, measured against the running peak before it, is at most the result |
| Statistics.MaxDrawdownAttained | script.js:1042-1052 | the result is 0 or one of the recorded drawdowns |
| Statistics.MaxDrawdownZeroIff | script.js:1042-1052 | the result is exactly 0 if and only if the series never falls over the scanned range |
| Statistics.PeakAttained | script.js:1043-1047 | the running peak is one of the values seen |
| Statistics.MaxDrawdownAtMostScale | script.js:1042-1052 | on non-negative values the result is at most 100 (percent form) or 1 (fraction form) |
| Statistics.MaxDrawdownScales | script.js:1287-1297 | the percent result is 100 times the fraction result, which calculateFundPerformance multiplies by 100 (1267) |
| Statistics.MaxDrawdownExample | script.js:1042-1052 | the series 100, 110, 99 has a maximum drawdown of 10 percent |
| Statistics.InsertAsc | script.js:423 | inserting into an ascending sequence keeps it ascending and adds exactly one copy of x |
| Statistics.SortAsc | script.js:423 | the sorted copy is ascending and a permutation of the input |
| Statistics.CountsOfInsert | script.js:423 | insertion adds x to the count below (or above) m exactly when x is below (or above) m |
| Statistics.CountsOfSort | script.js:423 | sorting keeps the number of values below and above any m |
| Statistics.Median | script.js:422-426 | on non-empty input, the median of an odd-length input is one of its values, and that of an even-length input is the mean of the values at two distinct positions |
| Statistics.MedianSplits | script.js:422-426 | at most half the values (rounded down) lie strictly below the median, and at most half strictly above |
| Statistics.MedianWithinRange | script.js:422-426 | some value is at most the median and some value is at least it |
| Ranking.InsertDesc | script.js:1269 | inserting into a descending sequence keeps it descending and adds exactly one copy; x goes before the first entry whose key is not greater |
| Ranking.SortDesc | script.js:1269 | the comparator sort b - a (also 1123, 1165) is descending by key and a permutation of its input |
| Ranking.InsertDescWithKey | script.js:1269 | x is placed before every entry of s that has the same key (first among equals), and the entries with any other key are unchanged |
| Ranking.SortDescStable | script.js:1269 | the sort is stable: for every key, the entries carrying it keep their original order |
| Ranking.PerformanceOf | script.js:1255-1268 | a fund's row keeps its name, has a positive return exactly when the last value exceeds the first, and a non-negative drawdown |
| Ranking.Rows | script.js:1255-1268 | one row per fund, in fund order |
| Ranking.FundPerformance | script.js:1254-1270 | the rows sorted best return first, a permutation of the per-fund rows |
| Ranking.UserRank | script.js:1302-1309 | a rank in 1 .. len + 1: the user does not beat any row before it, and beats the row at it when there is one |
| Ranking.UserRankCountsAtLeast | script.js:1302-1309 | on a list sorted best first, the rank is 1 plus the number of rows whose return is at least the user's |
| Ranking.UserRankTieBelow | script.js:1302-1309 | on a sorted list, a user tied with row i is ranked below row i |
| Ranking.CountAtLeastInsert | script.js:1269 | insertion adds one to the at-least count exactly when the new row's return is at least the user's |
| Ranking.CountAtLeastSort | script.js:1269 | sorting keeps the number of rows at or above the user's return |
| Ranking.FinalRank | script.js:1239-1250 | the final rank is 1 plus the number of funds whose whole-history return is at least the user's, and at most the participants (funds + 1) |
| Portfolio.Spans | script.js:919-930 | one inclusive range per switch, in ledger order: start as the start scan, end as findDateIndex of the next switch or the current index |
| Portfolio.LastCover | script.js:914-935 | among the first n ranges, the last one containing j: none after it contains j; None exactly when none contains j |
| Portfolio.Overwrite | script.js:932-934 | indices a through b take the fund's values, every other index keeps its content, and the length is kept |
| Portfolio.HeldAfterStep | script.js:914-935 | writing switch n changes index j to switch n's fund value exactly when j is in its range, and leaves it otherwise |
| Portfolio.Spliced | script.js:912-935 | the series after n passes of the outer loop has fund 0's length |
| Portfolio.SplicedIsLastCover | script.js:912-935 | after n passes, index j holds the value of the last switch whose range contains j, or null when none does |
| Portfolio.PortfolioSeries | script.js:907-938 | [] without funds or switches; otherwise fund 0's length, each index holding the last covering switch's fund value or null |
| Portfolio.PortfolioValueAt | script.js:914-935 | when switch k is the last switch whose range contains index j, index j holds the value of k's fund at j |
| Portfolio.PortfolioNullAt | script.js:912-935 | an index is null if and only if no switch's range contains it |
| Portfolio.StartsNotBeforeFirst | script.js:919-926 | with ordered switch dates inside the axis, no switch starts before the first switch |
| Portfolio.NullBeforeFirstStart | script.js:912-926 | with ordered switch dates inside the axis, every index before the first switch's start stays null |
| Portfolio.SharedBoundary | script.js:928-934 | with switch dates inside the axis, switch k's inclusive end is switch k + 1's start, and at that shared index, when switch k + 1 covers it, the series shows the value of a later switch that covers it |
| Portfolio.CoveredBelow | script.js:928-934 | with adjacent ranges touching, an index between the first start and the current index is covered by some switch |
| Portfolio.DefinedFromFirstStart | script.js:912-934 | with ordered switch dates inside the axis and the current index on it, every index from the first switch's start through the current index holds a value |
| Portfolio.LateSwitchRestartsAtZero | script.js:919-926 | a switch dated after the last point starts at index 0 and overwrites the whole series from there |
| Game.ResetFunds | script.js:1384-1400 | the store after the reset is still well formed |
| Game.ResetFundsEffect | script.js:1388-1398 | without a January-2022 point nothing changes; with one at r, each fund keeps its name and is normalised at r, its value there positive |
| Game.FundGame.constructor | script.js:2-13 | the start state: 30 December 2020, year 2020, tutorial, three adjustments, no funds, no switches, no selection |
| Game.FundGame.LoadFunds | script.js:89-99 | the loaded funds replace the store and the invariant holds |
| Game.FundGame.GetCurrentDataIndex | script.js:881-905 | the loop returns the floor index of the current date, below the length whenever fund 0 has points |
| Game.FundGame.FindDateIndex | script.js:940-951 | 0 without funds; otherwise the ceiling index of the date, falling back to len - 1 |
| Game.FundGame.IsEndOfData | script.js:288-293 | true exactly when there are no funds, fund 0 has at most one point, or its last date is at or before the current date |
| Game.FundGame.ChartStartIndex | script.js:738-746 | 0 outside the live phase or without funds; otherwise the January-2022 index, or 0 when there is none |
| Game.FundGame.WriteRange | script.js:932-934 | the fill loop leaves the array equal to Overwrite of its old content over start .. end |
| Game.FundGame.WriteSwitch | script.js:915-934 | one pass of the outer loop turns the series after i switches into the series after i + 1 |
| Game.FundGame.UserTotalReturn | script.js:1008-1027 | 0 without a selection or funds; otherwise positive exactly when the selected fund's current value exceeds its first, and zero exactly when they are equal |
| Game.FundGame.UserMaxDrawdown | script.js:1008-1052 | 0 without a selection or funds; otherwise between 0 and 100, and 0 exactly when the selected fund never fell up to the current index |
| Game.FundGame.NullSeries | script.js:912 | a fresh all-null array as long as fund 0 |
| Game.FundGame.SpliceLedger | script.js:912-935 | the nested loops return the series after every switch has been written |
| Game.FundGame.SwitchStartIndex | script.js:919-926 | the start scan returns ChangeStart of the switch date |
| Game.FundGame.CalculateUserPortfolioValue | script.js:907-938 | the returned series is PortfolioSeries of the store, the ledger and the current data index |
| Game.FundGame.ShowFundSelector | script.js:242-258 | opens exactly when adjustments remain or in the tutorial; only the live phase uses one, so the count never goes negative and a refusal changes nothing |
| Game.FundGame.SelectFund | script.js:215-228 | an existing fund id becomes the selection and appends a switch dated today; any other input changes nothing |
| Game.FundGame.NormalizeFrom | script.js:1394-1397 | the in-place division loop yields Normalized of the fund's series |
| Game.FundGame.RebaseStore | script.js:1393-1398 | the forEach over funds yields Rebased of the store |
| Game.FundGame.ResetGameFor2022 | script.js:1384-1400 | clears the ledger and the selection and leaves the store as ResetFunds of the old store |
| Game.FundGame.HandleNewYear | script.js:311-325 | takes the date's year; entering 2022 starts the live phase with the reset; the count ends at 3 in the tutorial and 2 in the live phase |
| Game.FundGame.CheckSpecialDateEvents | script.js:301-309 | reports the year summary exactly from 25 December on, runs handleNewYear exactly when the date's year passed the current year, and otherwise changes nothing |
| Game.FundGame.NextWeek | script.js:260-286 | nothing without funds; otherwise exactly one week later, ending without date events at the end of the data, else running the date events |

## Left out

- DOM updates, HTML building, alerts, `toLocaleDateString` formatting and all Chart.js configuration, colours and point styles: presentation only.
- Loading (`fetch`, `loadMarketReviews`, `processFundData`'s `parseFloat`/`new Date` parsing and error display): I/O and foreign parsing. `LoadFunds` takes already-parsed funds in its place.
- Timers: `startAutoPlay`/`stopAutoPlay`, `isManualClick` and `showWeeklyReview` are asynchronous scheduling and display.
- Volatility, Sharpe ratio and the weekly returns feeding them: they need `Math.sqrt` and `Math.pow(…, 52)`, which exact reals do not model. This includes the missing zero-volatility guard at script.js:1285.
- `generateIndexPerformanceData`: it draws from `Math.random`.
- JavaScript `Date`: year, month and day of the month are the given `Calendar` functions, and a week is exactly 7 × 86 400 000 ms (no daylight-saving shift).
- `getMarketReviewContent` and the review texts: only the key lookup is modelled. Keys are assumed to parse to dates, so a key whose date is invalid (NaN distance) is not modelled.
- SelectFund: `parseInt` of the selector value is its `Option<int>` argument, with NaN as None; the missing selector element is not modelled.
- The `fundName` field of a ledger entry: display only, never read by the engine.
- The weekly return and the once-a-year summary tables of `showYearSummary` and `updateRanking`: only their sort (`Ranking.SortDesc`) and drawdown scan (`Statistics.MaxDrawdown`) are modelled.
- Ranking.FinalRank: the user's return is passed in as a real. It is the value `Game.FundGame.UserTotalReturn` computes.
- Ranking.PerformanceOf: requires a non-empty series whose first value is positive (`Priced`), and so do `Rows`, `FundPerformance` and `FinalRank`. On an empty series the source's `calculateFundPerformance` reads `fund.data[0].value` (script.js:1256) and throws a TypeError. `nextWeek` reaches it through `showFinalSummary` and `prepareSummaryData` (script.js:272-274, 1240-1241) when fund 0 has no points, since `isEndOfData` is then true (script.js:291-292); the model does not represent that exception. The positive first value is the same data-file assumption as for `Game.FundGame.Valid`.
- Game.FundGame.Valid: the data file's shape (one shared, strictly increasing date axis; positive values) is an invariant the source assumes rather than checks.
- Statistics.Median: requires a non-empty input; the source returns NaN on an empty array.
- Game.FundGame.CalculateUserPortfolioValue: requires fund 0 to have points when the ledger is non-empty, because the source's fill loop then reads past the end of an empty series and throws.
