/**
 * The price matcher of static/js/analytics.js: a left fold over a price series
 * that keeps the point nearest to a target day, optionally only among points
 * within a tolerance window. Ties go to the point seen first, because the fold
 * replaces its running choice only on a strictly smaller distance.
 */
module PriceMatcher {
  import opened Wrappers
  import opened Records

  /** Largest distance, in days, at which `findClosestPrice` accepts a point. */
  const ToleranceDays: nat := 5

  function Distance(day: int, target: int): nat {
    if day >= target then day - target else target - day
  }

  /** A point may be chosen when it lies within the tolerance (None: no limit). */
  predicate Eligible(p: PricePoint, target: int, tolerance: Option<nat>) {
    tolerance.None? || Distance(p.date, target) <= tolerance.value
  }

  /** One step of the fold: take `current` when eligible and strictly nearer than the running choice. */
  function Step(closest: Option<PricePoint>, current: PricePoint, target: int, tolerance: Option<nat>): Option<PricePoint> {
    if Eligible(current, target, tolerance)
       && (closest.None? || Distance(current.date, target) < Distance(closest.value.date, target))
    then Some(current)
    else closest
  }

  /** `prices.reduce(step, null)`: the fold over the whole series, left to right. */
  function Nearest(prices: seq<PricePoint>, target: int, tolerance: Option<nat>): Option<PricePoint>
    decreases |prices|
  {
    if |prices| == 0 then None
    else Step(Nearest(prices[..|prices| - 1], target, tolerance), prices[|prices| - 1], target, tolerance)
  }

  /**
   * Index i holds the first of the nearest eligible points: it is eligible, no
   * eligible point is nearer, and every eligible point before it is strictly farther.
   */
  ghost predicate IsFirstNearest(prices: seq<PricePoint>, target: int, tolerance: Option<nat>, i: int) {
    && 0 <= i < |prices|
    && Eligible(prices[i], target, tolerance)
    && (forall j :: 0 <= j < |prices| && Eligible(prices[j], target, tolerance) ==>
          Distance(prices[i].date, target) <= Distance(prices[j].date, target))
    && (forall j :: 0 <= j < i && Eligible(prices[j], target, tolerance) ==>
          Distance(prices[i].date, target) < Distance(prices[j].date, target))
  }

  /** At most one index is the first nearest one, so the choice below is fully determined. */
  lemma FirstNearestUnique(prices: seq<PricePoint>, target: int, tolerance: Option<nat>, i: int, k: int)
    requires IsFirstNearest(prices, target, tolerance, i) && IsFirstNearest(prices, target, tolerance, k)
    ensures i == k
  {
  }

  /** The first eligible point is the first nearest one. */
  lemma FirstEligible(prices: seq<PricePoint>, target: int, tolerance: Option<nat>)
    requires |prices| > 0 && Eligible(prices[|prices| - 1], target, tolerance)
    requires forall j :: 0 <= j < |prices| - 1 ==> !Eligible(prices[j], target, tolerance)
    ensures IsFirstNearest(prices, target, tolerance, |prices| - 1)
  {
  }

  /** A strictly nearer eligible last point takes over from the first nearest one of the prefix. */
  lemma NearerLast(prices: seq<PricePoint>, target: int, tolerance: Option<nat>, i: nat)
    requires 0 < |prices| && IsFirstNearest(prices[..|prices| - 1], target, tolerance, i)
    requires Eligible(prices[|prices| - 1], target, tolerance)
    requires Distance(prices[|prices| - 1].date, target) < Distance(prices[i].date, target)
    ensures IsFirstNearest(prices, target, tolerance, |prices| - 1)
  {
    var n := |prices| - 1;
    assert forall j :: 0 <= j < n ==> prices[..n][j] == prices[j];
  }

  /** Otherwise the first nearest point of the prefix stays the first nearest one. */
  lemma KeptChoice(prices: seq<PricePoint>, target: int, tolerance: Option<nat>, i: nat)
    requires 0 < |prices| && IsFirstNearest(prices[..|prices| - 1], target, tolerance, i)
    requires !(Eligible(prices[|prices| - 1], target, tolerance) &&
               Distance(prices[|prices| - 1].date, target) < Distance(prices[i].date, target))
    ensures IsFirstNearest(prices, target, tolerance, i)
  {
    var n := |prices| - 1;
    assert forall j :: 0 <= j < n ==> prices[..n][j] == prices[j];
  }

  /** The fold finds nothing exactly when no point is eligible, and otherwise finds the first nearest one. */
  lemma {:induction false} NearestIsFirstNearest(prices: seq<PricePoint>, target: int, tolerance: Option<nat>)
    ensures Nearest(prices, target, tolerance).None? <==>
              forall j :: 0 <= j < |prices| ==> !Eligible(prices[j], target, tolerance)
    ensures Nearest(prices, target, tolerance).Some? ==>
              exists i :: IsFirstNearest(prices, target, tolerance, i) && prices[i] == Nearest(prices, target, tolerance).value
    decreases |prices|
  {
    if |prices| > 0 {
      var n := |prices| - 1;
      var init := prices[..n];
      var last := prices[n];
      NearestIsFirstNearest(init, target, tolerance);
      var before := Nearest(init, target, tolerance);
      assert forall j :: 0 <= j < n ==> init[j] == prices[j];
      if before.None? {
        if Eligible(last, target, tolerance) {
          FirstEligible(prices, target, tolerance);
        }
      } else {
        var i :| IsFirstNearest(init, target, tolerance, i) && init[i] == before.value;
        if Eligible(last, target, tolerance) && Distance(last.date, target) < Distance(before.value.date, target) {
          NearerLast(prices, target, tolerance, i);
        } else {
          KeptChoice(prices, target, tolerance, i);
        }
      }
    }
  }

  /**
   * `findClosestPrice(prices, targetDate)`: the first nearest point within
   * five days of the target, or None when no point is that close (in
   * particular when the series is empty).
   */
  function FindClosestPrice(prices: seq<PricePoint>, target: int): (r: Option<PricePoint>)
    ensures r.None? <==> forall j :: 0 <= j < |prices| ==> Distance(prices[j].date, target) > ToleranceDays
    ensures r.Some? ==> r.value in prices && Distance(r.value.date, target) <= ToleranceDays
    ensures r.Some? ==> exists i :: IsFirstNearest(prices, target, Some(ToleranceDays), i) && prices[i] == r.value
  {
    NearestIsFirstNearest(prices, target, Some(ToleranceDays));
    Nearest(prices, target, Some(ToleranceDays))
  }

  lemma EveryPointEligibleWithoutLimit(prices: seq<PricePoint>, target: int)
    ensures (forall j :: 0 <= j < |prices| ==> !Eligible(prices[j], target, None)) <==> |prices| == 0
  {
    if |prices| > 0 {
      assert Eligible(prices[0], target, None);
    }
  }

  /**
   * `findPriceAfterDays(prices, startDate, days)`: the first nearest point to
   * `start + days` with no tolerance limit; None only for an empty series.
   */
  function FindPriceAfterDays(prices: seq<PricePoint>, start: int, days: int): (r: Option<PricePoint>)
    ensures r.None? <==> |prices| == 0
    ensures r.Some? ==> exists i :: IsFirstNearest(prices, start + days, None, i) && prices[i] == r.value
  {
    var target := start + days;
    NearestIsFirstNearest(prices, target, None);
    EveryPointEligibleWithoutLimit(prices, target);
    Nearest(prices, target, None)
  }
}
