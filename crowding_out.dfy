/**
 * The crowding-out analysis: per month, the average congestion surcharge
 * and the average tip-to-fare ratio, over the trips that have a ratio.
 */
module CrowdingOut {
  import opened Wrappers
  import opened Sql
  import opened Schema
  import opened Tables
  import opened Grouping
  import opened GhostFilter
  import opened Kpis

  /** A row of tipping_data. */
  datatype TipRow = TipRow(month: Month, congestionSurcharge: Option<real>, tipRatio: Option<real>)

  /** A row of tipping_summary. */
  datatype TipMonth = TipMonth(month: Month, avgSurcharge: Option<real>, avgTipRatio: Option<real>)

  /** CASE WHEN fare > 0 THEN tip_amount / fare ELSE NULL END. */
  function TipRatio(t: Trip): (v: Option<real>)
    ensures v.Some? <==> t.fare.Some? && t.fare.value > 0.0 && t.tipAmount.Some?
    ensures v.Some? ==> v.value * t.fare.value == t.tipAmount.value
  {
    match t.fare
    case None => None
    case Some(f) =>
      if f > 0.0 then
        match t.tipAmount
        case None => None
        case Some(tip) => Some(tip / f)
      else None
  }

  function TipRowOf(m: MeasuredTrip): TipRow {
    TipRow(MonthOf(m), m.trip.congestionSurcharge, TipRatio(m.trip))
  }

  /** tipping_data. */
  function TippingData(clean: seq<MeasuredTrip>): seq<TipRow> {
    Map(clean, TipRowOf)
  }

  predicate HasRatio(r: TipRow) {
    r.tipRatio.Some?
  }

  /** The rows the aggregate reads: `WHERE tip_ratio IS NOT NULL`. */
  function RatedTrips(clean: seq<MeasuredTrip>): seq<TipRow> {
    Where(TippingData(clean), HasRatio)
  }

  function TipRowMonth(r: TipRow): Month {
    r.month
  }

  function SummaryMonth(r: TipMonth): Month {
    r.month
  }

  /** `ORDER BY month`. */
  function SummaryEarlierFirst(r: TipMonth): int {
    -MonthIndex(r.month)
  }

  function TipMonthOf(month: Month, g: seq<TipRow>): TipMonth {
    TipMonth(
      month,
      SqlAvg(Map(g, (r: TipRow) => r.congestionSurcharge)),
      SqlAvg(Map(g, (r: TipRow) => r.tipRatio)))
  }

  function TipGroups(d: seq<TipRow>): seq<TipMonth> {
    var ks := GroupKeys(d, TipRowMonth);
    seq(|ks|, j requires 0 <= j < |ks| => TipMonthOf(ks[j], GroupOf(d, TipRowMonth, ks[j])))
  }

  /** tipping_summary. */
  function TippingSummary(clean: seq<MeasuredTrip>): seq<TipMonth> {
    SortBy(TipGroups(RatedTrips(clean)), SummaryEarlierFirst)
  }

  /**
   * A trip without a ratio (no positive fare, or no tip) changes nothing:
   * the WHERE drops it before either average, so its surcharge is not
   * averaged either.
   */
  lemma UnratedTripIgnored(clean: seq<MeasuredTrip>, m: MeasuredTrip)
    requires TipRatio(m.trip) == None
    ensures TippingSummary(clean + [m]) == TippingSummary(clean)
  {
    MapConcat(clean, [m], TipRowOf);
    WhereNone(Map([m], TipRowOf), HasRatio);
    WhereConcat(TippingData(clean), Map([m], TipRowOf), HasRatio);
    assert RatedTrips(clean + [m]) == RatedTrips(clean);
  }

  /**
   * One row per month in which some trip has a ratio, in calendar order,
   * each holding the averages of that month's rated trips, the ratio
   * average always defined.
   */
  lemma TippingMonths(clean: seq<MeasuredTrip>)
    ensures var rows := TippingSummary(clean);
      (forall i, j :: 0 <= i < j < |rows| ==>
         MonthIndex(rows[i].month) <= MonthIndex(rows[j].month) && rows[i].month != rows[j].month)
      && DistinctValues(rows, SummaryMonth) == DistinctValues(RatedTrips(clean), TipRowMonth)
      && (forall r :: r in rows ==>
            r == TipMonthOf(r.month, GroupOf(RatedTrips(clean), TipRowMonth, r.month)) && r.avgTipRatio.Some?)
  {
    var d := RatedTrips(clean);
    var rows := TippingSummary(clean);
    SortedGroupRows(d, TipRowMonth, TipGroups(d), SummaryMonth, SummaryEarlierFirst);
    forall i, j | 0 <= i < j < |rows|
      ensures MonthIndex(rows[i].month) <= MonthIndex(rows[j].month)
    {
      assert SummaryEarlierFirst(rows[i]) >= SummaryEarlierFirst(rows[j]);
    }
    forall r | r in rows
      ensures r == TipMonthOf(r.month, GroupOf(d, TipRowMonth, r.month)) && r.avgTipRatio.Some?
    {
      TipMonthIsGroup(clean, r);
    }
  }

  /**
   * Each summary row holds the two averages of its own month's rated
   * trips, of which there is at least one, so its ratio average is defined.
   */
  lemma TipMonthIsGroup(clean: seq<MeasuredTrip>, r: TipMonth)
    requires r in TippingSummary(clean)
    ensures var g := GroupOf(RatedTrips(clean), TipRowMonth, r.month);
      r == TipMonthOf(r.month, g) && |g| > 0 && r.avgTipRatio.Some?
  {
    var d := RatedTrips(clean);
    var groups := TipGroups(d);
    var ks := GroupKeys(d, TipRowMonth);
    SortByPermutes(groups, SummaryEarlierFirst);
    assert r in multiset(groups);
    var j :| 0 <= j < |groups| && groups[j] == r;
    assert ks[j] in ks;
    GroupNonEmpty(d, TipRowMonth, ks[j]);
    TipGroupDefined(clean, ks[j]);
  }

  /** A month with rated trips has a defined average tip ratio. */
  lemma TipGroupDefined(clean: seq<MeasuredTrip>, k: Month)
    requires k in GroupKeys(RatedTrips(clean), TipRowMonth)
    ensures var g := GroupOf(RatedTrips(clean), TipRowMonth, k);
      SqlAvg(Map(g, (r: TipRow) => r.tipRatio)).Some?
  {
    var d := RatedTrips(clean);
    GroupNonEmpty(d, TipRowMonth, k);
    var g := GroupOf(d, TipRowMonth, k);
    assert g[0] in g;
    AvgOfColumnNullIff(g, (r: TipRow) => r.tipRatio);
  }

  /** The months of the summary are the pickup months of the clean trips that have a ratio. */
  lemma RatedMonths(clean: seq<MeasuredTrip>)
    ensures DistinctValues(RatedTrips(clean), TipRowMonth)
      == DistinctValues(Where(clean, (m: MeasuredTrip) => TipRatio(m.trip).Some?), MonthOf)
  {
    var d := RatedTrips(clean);
    var rated := Where(clean, (m: MeasuredTrip) => TipRatio(m.trip).Some?);
    forall k | k in DistinctValues(d, TipRowMonth)
      ensures k in DistinctValues(rated, MonthOf)
    {
      var r :| r in d && TipRowMonth(r) == k;
      var i :| 0 <= i < |clean| && TippingData(clean)[i] == r;
      assert clean[i] in rated;
    }
    forall k | k in DistinctValues(rated, MonthOf)
      ensures k in DistinctValues(d, TipRowMonth)
    {
      var m :| m in rated && MonthOf(m) == k;
      var i :| 0 <= i < |clean| && clean[i] == m;
      assert TippingData(clean)[i] in d;
    }
  }
}
