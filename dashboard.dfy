/**
 * The two dashboard datasets: trips and revenue per pickup zone, busiest
 * zone first, and leaked trips and their revenue per month.
 */
module Dashboard {
  import opened Wrappers
  import opened Sql
  import opened Schema
  import opened Tables
  import opened Grouping
  import opened GhostFilter
  import opened Kpis

  /** A row of zone_trip_counts. */
  datatype ZoneCount = ZoneCount(pickupLoc: int, tripCount: nat, revenue: Option<real>)

  /** A row of monthly_leakage. */
  datatype LeakageMonth = LeakageMonth(month: Month, leakageTrips: nat, leakageRevenue: Option<real>)

  function PickupLocOf(m: MeasuredTrip): int {
    m.trip.pickupLoc
  }

  function RowPickupLoc(r: ZoneCount): int {
    r.pickupLoc
  }

  function TripCountOf(r: ZoneCount): nat {
    r.tripCount
  }

  /** `ORDER BY trip_count DESC`. */
  function BusiestFirst(r: ZoneCount): int {
    r.tripCount
  }

  function Revenue(g: seq<MeasuredTrip>): Option<real> {
    SqlSum(Map(g, (m: MeasuredTrip) => m.trip.totalAmount))
  }

  function ZoneGroups(trips: seq<MeasuredTrip>): seq<ZoneCount> {
    var ks := GroupKeys(trips, PickupLocOf);
    seq(|ks|, j requires 0 <= j < |ks| =>
      var g := GroupOf(trips, PickupLocOf, ks[j]);
      ZoneCount(ks[j], |g|, Revenue(g)))
  }

  /** zone_trip_counts. */
  function ZoneTripCounts(trips: seq<MeasuredTrip>): seq<ZoneCount> {
    SortBy(ZoneGroups(trips), BusiestFirst)
  }

  function LeakageMonthOf(r: LeakageMonth): Month {
    r.month
  }

  function LeakageTripsOf(r: LeakageMonth): nat {
    r.leakageTrips
  }

  /** `ORDER BY month`. */
  function LeakageEarlierFirst(r: LeakageMonth): int {
    -MonthIndex(r.month)
  }

  function LeakageGroups(leakage: seq<MeasuredTrip>): seq<LeakageMonth> {
    var ks := GroupKeys(leakage, MonthOf);
    seq(|ks|, j requires 0 <= j < |ks| =>
      var g := GroupOf(leakage, MonthOf, ks[j]);
      LeakageMonth(ks[j], |g|, Revenue(g)))
  }

  /** monthly_leakage. */
  function MonthlyLeakage(leakage: seq<MeasuredTrip>): seq<LeakageMonth> {
    SortBy(LeakageGroups(leakage), LeakageEarlierFirst)
  }

  /** The zone counts add up to the number of clean trips. */
  lemma ZoneCountsAddUp(trips: seq<MeasuredTrip>)
    ensures SumBy(ZoneTripCounts(trips), TripCountOf) == |trips|
  {
    var groups := ZoneGroups(trips);
    GroupedCountsSum(trips, PickupLocOf, groups, TripCountOf);
    SortByPermutes(groups, BusiestFirst);
    SumByPermutation(ZoneTripCounts(trips), groups, TripCountOf);
  }

  /** Busiest zone first, one row per pickup zone that has trips, and no other. */
  lemma ZoneCountsRanked(trips: seq<MeasuredTrip>)
    ensures var rows := ZoneTripCounts(trips);
      NonIncreasing(rows, BusiestFirst)
      && (forall i, j :: 0 <= i < j < |rows| ==> rows[i].pickupLoc != rows[j].pickupLoc)
      && DistinctValues(rows, RowPickupLoc) == DistinctValues(trips, PickupLocOf)
  {
    SortedGroupRows(trips, PickupLocOf, ZoneGroups(trips), RowPickupLoc, BusiestFirst);
  }

  /** Each zone's row counts exactly the trips picked up there, and sums their total amounts. */
  lemma ZoneCountOfZone(trips: seq<MeasuredTrip>, r: ZoneCount)
    requires r in ZoneTripCounts(trips)
    ensures var g := GroupOf(trips, PickupLocOf, r.pickupLoc);
      r.tripCount == |g| > 0 && r.revenue == Revenue(g)
  {
    var groups := ZoneGroups(trips);
    var ks := GroupKeys(trips, PickupLocOf);
    SortByPermutes(groups, BusiestFirst);
    assert r in multiset(groups);
    var j :| 0 <= j < |groups| && groups[j] == r;
    assert ks[j] in ks;
    GroupNonEmpty(trips, PickupLocOf, ks[j]);
  }

  /** Every leaked trip is counted in exactly one month. */
  lemma MonthlyLeakageAddsUp(leakage: seq<MeasuredTrip>)
    ensures SumBy(MonthlyLeakage(leakage), LeakageTripsOf) == |leakage|
  {
    var groups := LeakageGroups(leakage);
    GroupedCountsSum(leakage, MonthOf, groups, LeakageTripsOf);
    SortByPermutes(groups, LeakageEarlierFirst);
    SumByPermutation(MonthlyLeakage(leakage), groups, LeakageTripsOf);
  }

  /**
   * One row per month with leakage, in calendar order, each counting that
   * month's leaked trips and summing their total amounts.
   */
  lemma MonthlyLeakageRows(leakage: seq<MeasuredTrip>)
    ensures var rows := MonthlyLeakage(leakage);
      (forall i, j :: 0 <= i < j < |rows| ==>
         MonthIndex(rows[i].month) <= MonthIndex(rows[j].month) && rows[i].month != rows[j].month)
      && DistinctValues(rows, LeakageMonthOf) == DistinctValues(leakage, MonthOf)
      && (forall r :: r in rows ==>
            var g := GroupOf(leakage, MonthOf, r.month);
            r.leakageTrips == |g| > 0 && r.leakageRevenue == Revenue(g))
  {
    var groups := LeakageGroups(leakage);
    var ks := GroupKeys(leakage, MonthOf);
    var rows := MonthlyLeakage(leakage);
    SortedGroupRows(leakage, MonthOf, groups, LeakageMonthOf, LeakageEarlierFirst);
    forall i, j | 0 <= i < j < |rows|
      ensures MonthIndex(rows[i].month) <= MonthIndex(rows[j].month)
    {
      assert LeakageEarlierFirst(rows[i]) >= LeakageEarlierFirst(rows[j]);
    }
    forall r | r in rows
      ensures var g := GroupOf(leakage, MonthOf, r.month);
        r.leakageTrips == |g| > 0 && r.leakageRevenue == Revenue(g)
    {
      var j :| 0 <= j < |groups| && groups[j] == r;
      assert ks[j] in ks;
      GroupNonEmpty(leakage, MonthOf, ks[j]);
    }
  }
}
