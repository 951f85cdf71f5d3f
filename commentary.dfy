/**
 * The market-commentary lookup (findClosestDate): choose the commentary key
 * whose date is nearest to the current date, or the first key when even the
 * nearest is more than 30 days away.
 */
module Commentary {
  import opened Wrappers
  import opened TimeSeries

  /** Largest distance, in milliseconds, at which the nearest key is still used. */
  const ToleranceMs: int := 30 * DayMs

  /** A key of the commentary map: its text as stored and the time it parses to. */
  datatype ReviewKey = ReviewKey(text: string, time: int)

  /** The running minimum of the scan; it starts at Infinity. */
  datatype Bound = Finite(n: nat) | Infinity
  {
    predicate Exceeds(d: nat)
    {
      Infinity? || d < n
    }
  }

  /** |keyTime - targetTime| */
  function Distance(key: ReviewKey, target: int): nat
  {
    if key.time >= target then key.time - target else target - key.time
  }

  /** Among the first n keys, the first one at minimum distance from target. */
  function FirstClosest(keys: seq<ReviewKey>, target: int, n: nat): (r: nat)
    requires 1 <= n <= |keys|
    ensures r < n
    ensures forall i :: 0 <= i < n ==> Distance(keys[r], target) <= Distance(keys[i], target)
    ensures forall i :: 0 <= i < r ==> Distance(keys[i], target) > Distance(keys[r], target)
  {
    if n == 1 then 0
    else
      var p := FirstClosest(keys, target, n - 1);
      if Distance(keys[n - 1], target) < Distance(keys[p], target) then n - 1 else p
  }

  /**
   * The index findClosestDate settles on: the first closest key when it lies
   * within the tolerance, and key 0 otherwise.
   */
  function Chosen(keys: seq<ReviewKey>, target: int): (r: nat)
    requires |keys| > 0
    ensures r < |keys|
    ensures (exists i :: 0 <= i < |keys| && Distance(keys[i], target) <= ToleranceMs) ==>
              && (forall i :: 0 <= i < |keys| ==> Distance(keys[r], target) <= Distance(keys[i], target))
              && (forall i :: 0 <= i < r ==> Distance(keys[i], target) > Distance(keys[r], target))
    ensures (forall i :: 0 <= i < |keys| ==> Distance(keys[i], target) > ToleranceMs) ==> r == 0
  {
    var c := FirstClosest(keys, target, |keys|);
    if Distance(keys[c], target) > ToleranceMs then 0 else c
  }

  /**
   * findClosestDate. `reviews` is the key list of the loaded commentary map,
   * None when the map or its `reviews` member is missing.
   */
  method FindClosestDate(reviews: Option<seq<ReviewKey>>, target: int) returns (r: Option<string>)
    ensures r.None? <==> (reviews.None? || reviews.value == [])
    ensures r.Some? ==> r.value == reviews.value[Chosen(reviews.value, target)].text
  {
    if reviews.None? {
      return None;
    }
    var keys := reviews.value;
    if |keys| == 0 {
      return None;
    }
    var closest: Option<string> := None;
    var minDiff := Infinity;
    var i := 0;
    while i < |keys|
      invariant 0 <= i <= |keys|
      invariant i == 0 ==> closest == None && minDiff == Infinity
      invariant i > 0 ==>
        && minDiff == Finite(Distance(keys[FirstClosest(keys, target, i)], target))
        && closest == Some(keys[FirstClosest(keys, target, i)].text)
    {
      var diff := Distance(keys[i], target);
      if minDiff.Exceeds(diff) {
        minDiff := Finite(diff);
        closest := Some(keys[i].text);
      }
      i := i + 1;
    }
    if minDiff.n > ToleranceMs {
      closest := Some(keys[0].text);
    }
    return closest;
  }

  /**
   * The fallback is not the nearest key: with keys on day 0 and day 40 and a
   * target on day 80, the day-40 key is 40 days away, beyond the tolerance,
   * so the day-0 key (80 days away) is chosen.
   */
  lemma FallbackIgnoresNearerKey()
    ensures var keys := [ReviewKey("d0", 0), ReviewKey("d40", 40 * DayMs)];
            var target := 80 * DayMs;
            Chosen(keys, target) == 0 && Distance(keys[1], target) < Distance(keys[0], target)
  {
    var keys := [ReviewKey("d0", 0), ReviewKey("d40", 40 * DayMs)];
    var target := 80 * DayMs;
    assert FirstClosest(keys, target, 2) == 1;
  }
}
