/**
 * Leaderboards: the stable descending sorts by return (updateRanking,
 * showYearSummary, calculateFundPerformance), the final per-fund performance
 * table, and the user's rank by the first-exceeds scan of calculateUserRank.
 */
module Ranking {
  import opened TimeSeries
  import opened Statistics

  predicate SortedDesc<T>(s: seq<T>, key: T -> real)
  {
    forall i, j :: 0 <= i <= j < |s| ==> key(s[i]) >= key(s[j])
  }

  /** The entries of s whose key is k, in their order in s. */
  function WithKey<T>(s: seq<T>, key: T -> real, k: real): seq<T>
  {
    if s == [] then [] else (if key(s[0]) == k then [s[0]] else []) + WithKey(s[1..], key, k)
  }

  /** Place x after every entry with a greater key and before the rest. */
  lemma ConsSortedDesc<T>(a: T, t: seq<T>, key: T -> real)
    requires SortedDesc(t, key) && (t == [] || key(a) >= key(t[0]))
    ensures SortedDesc([a] + t, key)
  {
  }

  function InsertDesc<T(==)>(x: T, s: seq<T>, key: T -> real): (r: seq<T>)
    requires SortedDesc(s, key)
    ensures SortedDesc(r, key)
    ensures multiset(r) == multiset(s) + multiset{x}
    ensures |r| == |s| + 1 && r[0] == (if s == [] || key(s[0]) <= key(x) then x else s[0])
  {
    if s == [] || key(s[0]) <= key(x) then
      ConsSortedDesc(x, s, key);
      [x] + s
    else
      assert s == [s[0]] + s[1..];
      var t := InsertDesc(x, s[1..], key);
      ConsSortedDesc(s[0], t, key);
      [s[0]] + t
  }

  /**
   * Array.prototype.sort with the comparator (a, b) => key(b) - key(a):
   * descending by key, and stable, so entries with equal keys keep their
   * original order.
   */
  function SortDesc<T(==)>(s: seq<T>, key: T -> real): (r: seq<T>)
    ensures |r| == |s|
    ensures SortedDesc(r, key)
    ensures multiset(r) == multiset(s)
  {
    if s == [] then []
    else
      assert s == [s[0]] + s[1..];
      InsertDesc(s[0], SortDesc(s[1..], key), key)
  }

  lemma WithKeyCons<T>(a: T, t: seq<T>, key: T -> real, k: real)
    ensures WithKey([a] + t, key, k) == (if key(a) == k then [a] else []) + WithKey(t, key, k)
  {
    assert ([a] + t)[1..] == t;
  }

  lemma {:induction false} InsertDescWithKey<T>(x: T, s: seq<T>, key: T -> real, k: real)
    requires SortedDesc(s, key)
    ensures WithKey(InsertDesc(x, s, key), key, k) ==
            (if key(x) == k then [x] else []) + WithKey(s, key, k)
  {
    if s == [] || key(s[0]) <= key(x) {
      WithKeyCons(x, s, key, k);
    } else {
      var t := InsertDesc(x, s[1..], key);
      InsertDescWithKey(x, s[1..], key, k);
      WithKeyCons(s[0], t, key, k);
      WithKeyCons(s[0], s[1..], key, k);
      assert s == [s[0]] + s[1..];
      if key(x) == k {
        assert key(s[0]) != k;
      }
    }
  }

  /** The sort is stable: for every key value, the entries carrying it appear in their original order. */
  lemma {:induction false} SortDescStable<T>(s: seq<T>, key: T -> real, k: real)
    ensures WithKey(SortDesc(s, key), key, k) == WithKey(s, key, k)
  {
    if s != [] {
      SortDescStable(s[1..], key, k);
      InsertDescWithKey(s[0], SortDesc(s[1..], key), key, k);
    }
  }

  // ---------------------------------------------------------------------------
  // Final performance table and the user's rank

  /** One row of the final leaderboard: name, total return (%), max drawdown (%). */
  datatype Performance = Performance(name: string, ret: real, maxDrawdown: real)

  function ReturnOf(p: Performance): real
  {
    p.ret
  }

  /** The row calculateFundPerformance builds for one fund, over its whole history. */
  function PerformanceOf(fund: Fund): (p: Performance)
    requires |fund.data| > 0 && fund.data[0].value > 0.0
    ensures p.name == fund.name
    ensures p.ret > 0.0 <==> fund.data[|fund.data| - 1].value > fund.data[0].value
    ensures p.maxDrawdown >= 0.0
  {
    var v := Values(fund.data);
    var n := |v| - 1;
    MaxDrawdownNonNegative(v, n, 1.0);
    Performance(fund.name, TotalReturn(v, n), MaxDrawdownOf(v, n, 1.0) * 100.0)
  }

  /** Every fund has a first point with a positive value. */
  predicate Priced(funds: seq<Fund>)
  {
    forall f :: 0 <= f < |funds| ==> |funds[f].data| > 0 && funds[f].data[0].value > 0.0
  }

  /** The rows in fund order, before sorting. */
  function Rows(funds: seq<Fund>): (rows: seq<Performance>)
    requires Priced(funds)
    ensures |rows| == |funds|
    ensures forall f :: 0 <= f < |funds| ==> rows[f] == PerformanceOf(funds[f])
  {
    seq(|funds|, f requires 0 <= f < |funds| && Priced(funds) => PerformanceOf(funds[f]))
  }

  /** calculateFundPerformance: the rows sorted by total return, best first. */
  function FundPerformance(funds: seq<Fund>): (r: seq<Performance>)
    requires Priced(funds)
    ensures |r| == |funds|
    ensures SortedDesc(r, ReturnOf)
    ensures multiset(r) == multiset(Rows(funds))
  {
    SortDesc(Rows(funds), ReturnOf)
  }

  /**
   * calculateUserRank: one more than the index of the first row whose return
   * the user's total return strictly exceeds, or one more than the number of
   * rows when none is exceeded.
   */
  function UserRank(user: real, rows: seq<Performance>): (r: nat)
    ensures 1 <= r <= |rows| + 1
    ensures forall i :: 0 <= i < r - 1 ==> user <= rows[i].ret
    ensures r <= |rows| ==> user > rows[r - 1].ret
  {
    if rows == [] then 1
    else if user > rows[0].ret then 1
    else 1 + UserRank(user, rows[1..])
  }

  /** Number of rows whose return is at least the user's. */
  function CountAtLeast(rows: seq<Performance>, user: real): (c: nat)
    ensures c <= |rows|
  {
    if rows == [] then 0 else (if rows[0].ret >= user then 1 else 0) + CountAtLeast(rows[1..], user)
  }

  lemma {:induction false} CountAtLeastNone(rows: seq<Performance>, user: real)
    requires forall i :: 0 <= i < |rows| ==> rows[i].ret < user
    ensures CountAtLeast(rows, user) == 0
  {
    if rows != [] {
      CountAtLeastNone(rows[1..], user);
    }
  }

  /**
   * On a list sorted best first, the first-exceeds rank is 1 plus the number
   * of rows whose return is at least the user's: a tie ranks the user below.
   */
  lemma {:induction false} UserRankCountsAtLeast(user: real, rows: seq<Performance>)
    requires SortedDesc(rows, ReturnOf)
    ensures UserRank(user, rows) == 1 + CountAtLeast(rows, user)
  {
    if rows != [] {
      assert forall i :: 0 <= i < |rows[1..]| ==> rows[1..][i] == rows[i + 1];
      if user > rows[0].ret {
        assert forall i :: 0 <= i < |rows[1..]| ==> rows[1..][i].ret < user;
        CountAtLeastNone(rows[1..], user);
      } else {
        UserRankCountsAtLeast(user, rows[1..]);
      }
    }
  }

  /** On a list sorted best first, a user whose return equals row i's is ranked below that row. */
  lemma UserRankTieBelow(user: real, rows: seq<Performance>, i: nat)
    requires SortedDesc(rows, ReturnOf) && i < |rows| && rows[i].ret == user
    ensures UserRank(user, rows) > i + 1
  {
  }

  lemma CountAtLeastCons(a: Performance, t: seq<Performance>, user: real)
    ensures CountAtLeast([a] + t, user) == (if a.ret >= user then 1 else 0) + CountAtLeast(t, user)
  {
    assert ([a] + t)[1..] == t;
  }

  lemma {:induction false} CountAtLeastInsert(x: Performance, s: seq<Performance>, user: real)
    requires SortedDesc(s, ReturnOf)
    ensures CountAtLeast(InsertDesc(x, s, ReturnOf), user) ==
            CountAtLeast(s, user) + (if x.ret >= user then 1 else 0)
  {
    if s == [] || s[0].ret <= x.ret {
      CountAtLeastCons(x, s, user);
    } else {
      CountAtLeastInsert(x, s[1..], user);
      CountAtLeastCons(s[0], InsertDesc(x, s[1..], ReturnOf), user);
      CountAtLeastCons(s[0], s[1..], user);
      assert s == [s[0]] + s[1..];
    }
  }

  lemma {:induction false} CountAtLeastSort(s: seq<Performance>, user: real)
    ensures CountAtLeast(SortDesc(s, ReturnOf), user) == CountAtLeast(s, user)
  {
    if s != [] {
      CountAtLeastSort(s[1..], user);
      CountAtLeastInsert(s[0], SortDesc(s[1..], ReturnOf), user);
    }
  }

  /**
   * The final rank (prepareSummaryData) is 1 plus the number of funds whose
   * whole-history return is at least the user's, and at most the number of
   * participants, funds plus the user.
   */
  lemma FinalRank(user: real, funds: seq<Fund>)
    requires Priced(funds)
    ensures UserRank(user, FundPerformance(funds)) == 1 + CountAtLeast(Rows(funds), user)
    ensures UserRank(user, FundPerformance(funds)) <= |funds| + 1
  {
    UserRankCountsAtLeast(user, FundPerformance(funds));
    CountAtLeastSort(Rows(funds), user);
  }
}
