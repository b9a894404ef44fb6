/**
 * The rain-tax analysis: clean trips counted per pickup date, each date
 * marked rainy or dry from the daily precipitation, and the average daily
 * count on rainy and on dry days.
 */
module RainTax {
  import opened Wrappers
  import opened Sql
  import opened Schema
  import opened Tables
  import opened Grouping
  import opened GhostFilter

  /** A row of daily_trips. */
  datatype DailyCount = DailyCount(tripDate: Date, tripCount: nat)

  /** A row of rain_analysis. */
  datatype RainDay = RainDay(tripDate: Date, tripCount: nat, rainy: int)

  /** A row of rain_summary. */
  datatype RainSummary = RainSummary(rainy: int, avgTrips: Option<real>)

  /**
   * The weather table: a date's precipitation sum, which the archive may
   * report as NULL. The table is taken as given; fetching it is not modelled.
   */
  type Weather = map<Date, Option<real>>

  /** DATE(pickup_time). */
  function DateOf(m: MeasuredTrip): Date {
    m.trip.pickupTime.date
  }

  function DailyDate(d: DailyCount): Date {
    d.tripDate
  }

  function TripCountOf(d: DailyCount): nat {
    d.tripCount
  }

  /** daily_trips: `GROUP BY trip_date` with COUNT(*). */
  function DailyTrips(clean: seq<MeasuredTrip>): seq<DailyCount> {
    var ks := GroupKeys(clean, DateOf);
    seq(|ks|, j requires 0 <= j < |ks| => DailyCount(ks[j], |GroupOf(clean, DateOf, ks[j])|))
  }

  /**
   * CASE WHEN COALESCE(w.precipitation, 0) > 0 THEN 1 ELSE 0 END after the
   * LEFT JOIN: a date missing from the weather table, or with a NULL sum,
   * counts as dry.
   */
  function Rainy(weather: Weather, date: Date): (flag: int)
    ensures flag == 0 || flag == 1
    ensures flag == 1 <==> date in weather && weather[date].Some? && weather[date].value > 0.0
  {
    var precipitation := if date in weather && weather[date].Some? then weather[date].value else 0.0;
    if precipitation > 0.0 then 1 else 0
  }

  /**
   * rain_analysis: `daily_trips LEFT JOIN weather`. Every day is kept, with
   * its count, and only the rainy flag is added.
   */
  function RainAnalysis(daily: seq<DailyCount>, weather: Weather): (analysis: seq<RainDay>)
    ensures |analysis| == |daily|
    ensures forall i :: 0 <= i < |daily| ==>
      analysis[i].tripDate == daily[i].tripDate && analysis[i].tripCount == daily[i].tripCount
      && (analysis[i].rainy == 0 || analysis[i].rainy == 1)
      && analysis[i].rainy == Rainy(weather, daily[i].tripDate)
  {
    Map(daily, (d: DailyCount) => RainDay(d.tripDate, d.tripCount, Rainy(weather, d.tripDate)))
  }

  function RainyOf(r: RainDay): int {
    r.rainy
  }

  function SummaryRainy(s: RainSummary): int {
    s.rainy
  }

  function CountAsReal(r: RainDay): Option<real> {
    Some(r.tripCount as real)
  }

  /** rain_summary: `GROUP BY rainy` with AVG(trip_count). */
  function RainSummaryOf(analysis: seq<RainDay>): seq<RainSummary> {
    var ks := GroupKeys(analysis, RainyOf);
    seq(|ks|, j requires 0 <= j < |ks| => RainSummary(ks[j], SqlAvg(Map(GroupOf(analysis, RainyOf, ks[j]), CountAsReal))))
  }

  /** The whole analysis, from clean trips and weather to rain_summary. */
  function RainTaxSummary(clean: seq<MeasuredTrip>, weather: Weather): seq<RainSummary> {
    RainSummaryOf(RainAnalysis(DailyTrips(clean), weather))
  }

  /** Every clean trip is counted on exactly one day. */
  lemma DailyTripsAddUp(clean: seq<MeasuredTrip>)
    ensures SumBy(DailyTrips(clean), TripCountOf) == |clean|
  {
    GroupedCountsSum(clean, DateOf, DailyTrips(clean), TripCountOf);
  }

  /** One row per pickup date, each counting that date's trips, at least one. */
  lemma DailyTripsRows(clean: seq<MeasuredTrip>)
    ensures var daily := DailyTrips(clean);
      (forall i, j :: 0 <= i < j < |daily| ==> daily[i].tripDate != daily[j].tripDate)
      && DistinctValues(daily, DailyDate) == DistinctValues(clean, DateOf)
      && (forall d :: d in daily ==> d.tripCount == |GroupOf(clean, DateOf, d.tripDate)| > 0)
  {
    var daily := DailyTrips(clean);
    var ks := GroupKeys(clean, DateOf);
    forall d | d in daily
      ensures d.tripCount == |GroupOf(clean, DateOf, d.tripDate)| > 0
    {
      var j :| 0 <= j < |daily| && daily[j] == d;
      assert ks[j] in ks;
      GroupNonEmpty(clean, DateOf, ks[j]);
    }
    forall k | k in DistinctValues(daily, DailyDate)
      ensures k in DistinctValues(clean, DateOf)
    {
      var d :| d in daily && DailyDate(d) == k;
      var j :| 0 <= j < |daily| && daily[j] == d;
      assert ks[j] in ks;
      var n :| 0 <= n < |clean| && DateOf(clean[n]) == k;
      assert clean[n] in clean;
    }
    forall k | k in DistinctValues(clean, DateOf)
      ensures k in DistinctValues(daily, DailyDate)
    {
      var m :| m in clean && DateOf(m) == k;
      var n :| 0 <= n < |clean| && clean[n] == m;
      assert k in ks;
      var j :| 0 <= j < |ks| && ks[j] == k;
      assert daily[j] in daily;
    }
  }

  /** A date the weather table lacks, or reports with a NULL or zero sum, is dry. */
  lemma DryDayExamples(date: Date)
    ensures Rainy(map[], date) == 0
    ensures Rainy(map[date := None], date) == 0
    ensures Rainy(map[date := Some(0.0)], date) == 0
    ensures Rainy(map[date := Some(2.5)], date) == 1
  {
  }

  /**
   * rain_summary has a row for exactly the flags the days carry, and each
   * row averages the trip counts of its own flag's days.
   */
  lemma RainSummaryGroups(analysis: seq<RainDay>)
    ensures var rows := RainSummaryOf(analysis);
      DistinctValues(rows, SummaryRainy) == DistinctValues(analysis, RainyOf)
      && forall r :: r in rows ==> r.avgTrips == SqlAvg(Map(GroupOf(analysis, RainyOf, r.rainy), CountAsReal))
  {
    var ks := GroupKeys(analysis, RainyOf);
    var rows := RainSummaryOf(analysis);
    forall k | k in DistinctValues(rows, SummaryRainy)
      ensures k in DistinctValues(analysis, RainyOf)
    {
      var r :| r in rows && SummaryRainy(r) == k;
      var j :| 0 <= j < |rows| && rows[j] == r;
      assert ks[j] in ks;
      var n :| 0 <= n < |analysis| && RainyOf(analysis[n]) == k;
      assert analysis[n] in analysis;
    }
    forall k | k in DistinctValues(analysis, RainyOf)
      ensures k in DistinctValues(rows, SummaryRainy)
    {
      var d :| d in analysis && RainyOf(d) == k;
      var n :| 0 <= n < |analysis| && analysis[n] == d;
      assert k in ks;
      var j :| 0 <= j < |ks| && ks[j] == k;
      assert rows[j] in rows;
    }
  }

  /**
   * At most two rows, one for rainy and one for dry days: a row for each
   * flag some day carries, averaging the trip counts of that flag's days,
   * and each average is defined and at least one trip per day.
   */
  lemma RainSummaryRows(clean: seq<MeasuredTrip>, weather: Weather)
    ensures var analysis := RainAnalysis(DailyTrips(clean), weather);
      var rows := RainTaxSummary(clean, weather);
      |rows| <= 2
      && (forall i, j :: 0 <= i < j < |rows| ==> rows[i].rainy != rows[j].rainy)
      && DistinctValues(rows, SummaryRainy) == DistinctValues(analysis, RainyOf)
      && (forall s :: s in rows ==> s.avgTrips == SqlAvg(Map(GroupOf(analysis, RainyOf, s.rainy), CountAsReal)))
      && (forall s :: s in rows ==> (s.rainy == 0 || s.rainy == 1) && s.avgTrips.Some? && s.avgTrips.value >= 1.0)
  {
    RainSummaryGroups(RainAnalysis(DailyTrips(clean), weather));
    var analysis := RainAnalysis(DailyTrips(clean), weather);
    var ks := GroupKeys(analysis, RainyOf);
    var rows := RainTaxSummary(clean, weather);
    forall i | 0 <= i < |ks|
      ensures ks[i] in {0, 1}
    {
      assert ks[i] in ks;
    }
    DistinctWithin(ks, {0, 1});
    forall s | s in rows
      ensures (s.rainy == 0 || s.rainy == 1) && s.avgTrips.Some? && s.avgTrips.value >= 1.0
    {
      var j :| 0 <= j < |rows| && rows[j] == s;
      assert ks[j] in ks;
      RainGroupAverage(clean, weather, ks[j]);
    }
  }

  /** A non-empty group of days averages at least one trip per day. */
  lemma RainGroupAverage(clean: seq<MeasuredTrip>, weather: Weather, flag: int)
    requires flag in GroupKeys(RainAnalysis(DailyTrips(clean), weather), RainyOf)
    ensures var g := GroupOf(RainAnalysis(DailyTrips(clean), weather), RainyOf, flag);
      SqlAvg(Map(g, CountAsReal)).Some? && SqlAvg(Map(g, CountAsReal)).value >= 1.0
  {
    var daily := DailyTrips(clean);
    var analysis := RainAnalysis(daily, weather);
    DailyTripsRows(clean);
    GroupNonEmpty(analysis, RainyOf, flag);
    var g := GroupOf(analysis, RainyOf, flag);
    var vs := Map(g, CountAsReal);
    forall i | 0 <= i < |vs| && vs[i].Some?
      ensures 1.0 <= vs[i].value
    {
      assert g[i] in g;
      var n :| 0 <= n < |analysis| && analysis[n] == g[i];
      assert daily[n] in daily;
    }
    AvgAtLeast(vs, 1.0);
    assert g[0] in g;
    AvgOfColumnNullIff(g, CountAsReal);
  }
}
