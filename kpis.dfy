/**
 * The monthly KPI table: clean trips grouped by pickup month, with a trip
 * count, revenue sums, and average distance and duration, in month order.
 */
module Kpis {
  import opened Wrappers
  import opened Sql
  import opened Schema
  import opened Tables
  import opened Grouping
  import opened GhostFilter

  /** A row of monthly_kpis. */
  datatype KpiRow = KpiRow(
    month: Month,
    totalTrips: nat,
    totalRevenue: Option<real>,
    congestionRevenue: Option<real>,
    avgDistance: Option<real>,
    avgDurationMinutes: Option<real>)

  /** DATE_TRUNC('month', pickup_time). */
  function MonthOf(m: MeasuredTrip): Month {
    PickupMonth(m.trip)
  }

  /** Months counted from year 0, so that calendar order is numeric order. */
  function MonthIndex(mo: Month): int {
    mo.year * 12 + (mo.month - 1)
  }

  /** `ORDER BY month` is `ORDER BY -MonthIndex(month) DESC`. */
  function EarlierFirst(r: KpiRow): int {
    -MonthIndex(r.month)
  }

  function RowMonth(r: KpiRow): Month {
    r.month
  }

  function TotalTripsOf(r: KpiRow): nat {
    r.totalTrips
  }

  /** The aggregates of one month's group of trips. */
  function KpiOf(month: Month, g: seq<MeasuredTrip>): KpiRow {
    KpiRow(
      month,
      |g|,
      SqlSum(Map(g, (m: MeasuredTrip) => m.trip.totalAmount)),
      SqlSum(Map(g, (m: MeasuredTrip) => m.trip.congestionSurcharge)),
      SqlAvg(Map(g, (m: MeasuredTrip) => m.trip.tripDistance)),
      SqlAvg(Map(g, (m: MeasuredTrip) => DurationMinutes(m.trip))))
  }

  /** `GROUP BY 1`, before the ORDER BY. */
  function KpiGroups(trips: seq<MeasuredTrip>): seq<KpiRow> {
    var ks := GroupKeys(trips, MonthOf);
    seq(|ks|, j requires 0 <= j < |ks| => KpiOf(ks[j], GroupOf(trips, MonthOf, ks[j])))
  }

  /** monthly_kpis. */
  function MonthlyKpis(trips: seq<MeasuredTrip>): seq<KpiRow> {
    SortBy(KpiGroups(trips), EarlierFirst)
  }

  /** Every trip is counted in exactly one month: the monthly counts add up to the table. */
  lemma KpiTripsAddUp(trips: seq<MeasuredTrip>)
    ensures SumBy(MonthlyKpis(trips), TotalTripsOf) == |trips|
  {
    var groups := KpiGroups(trips);
    GroupedCountsSum(trips, MonthOf, groups, TotalTripsOf);
    SortByPermutes(groups, EarlierFirst);
    SumByPermutation(MonthlyKpis(trips), groups, TotalTripsOf);
  }

  /** One row per month in which a trip was picked up, no other, in calendar order. */
  lemma KpiMonths(trips: seq<MeasuredTrip>)
    ensures var rows := MonthlyKpis(trips);
      (forall i, j :: 0 <= i < j < |rows| ==>
         MonthIndex(rows[i].month) <= MonthIndex(rows[j].month) && rows[i].month != rows[j].month)
      && DistinctValues(rows, RowMonth) == DistinctValues(trips, MonthOf)
  {
    var groups := KpiGroups(trips);
    var rows := MonthlyKpis(trips);
    SortedGroupRows(trips, MonthOf, groups, RowMonth, EarlierFirst);
    forall i, j | 0 <= i < j < |rows|
      ensures MonthIndex(rows[i].month) <= MonthIndex(rows[j].month)
    {
      assert EarlierFirst(rows[i]) >= EarlierFirst(rows[j]);
    }
  }

  /** The rows are the month groups, reordered. */
  lemma KpiRowIsGroup(trips: seq<MeasuredTrip>, r: KpiRow)
    requires r in MonthlyKpis(trips)
    ensures r == KpiOf(r.month, GroupOf(trips, MonthOf, r.month)) && r.totalTrips > 0
  {
    var groups := KpiGroups(trips);
    var ks := GroupKeys(trips, MonthOf);
    SortByPermutes(groups, EarlierFirst);
    assert r in multiset(groups);
    var j :| 0 <= j < |groups| && groups[j] == r;
    assert ks[j] in ks;
    GroupNonEmpty(trips, MonthOf, ks[j]);
  }

  /**
   * Each row aggregates exactly the trips of its month: there is at least
   * one, and each average is NULL only when every value it averages is.
   */
  lemma KpiRowOfMonth(trips: seq<MeasuredTrip>, r: KpiRow)
    requires r in MonthlyKpis(trips)
    ensures var g := GroupOf(trips, MonthOf, r.month);
      r == KpiOf(r.month, g) && r.totalTrips > 0
      && (r.avgDistance == None <==> forall i :: 0 <= i < |g| ==> g[i].trip.tripDistance == None)
      && (r.avgDurationMinutes == None <==> forall i :: 0 <= i < |g| ==> g[i].trip.dropoffTime == None)
  {
    KpiRowIsGroup(trips, r);
    var g := GroupOf(trips, MonthOf, r.month);
    AvgOfColumnNullIff(g, (m: MeasuredTrip) => m.trip.tripDistance);
    AvgOfColumnNullIff(g, (m: MeasuredTrip) => DurationMinutes(m.trip));
  }
}
