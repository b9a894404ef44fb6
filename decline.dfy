/**
 * The yellow-versus-green comparison: trips entering the congestion zone
 * in the first quarter of 2024 and of 2025, counted per fleet and year.
 * It reads the unified table, so suspicious trips are counted too.
 */
module Decline {
  import opened Schema
  import opened Tables
  import opened Grouping
  import opened Leakage

  const Q1_MONTHS: set<int> := {1, 2, 3}
  const COMPARED_YEARS: set<int> := {2024, 2025}

  datatype FleetYear = FleetYear(taxiType: TaxiType, year: int)

  /** A row of q1_comparison. */
  datatype Q1Row = Q1Row(taxiType: TaxiType, year: int, trips: nat)

  /** entering_zone, over the unified trips and without a year floor. */
  function EnteringZone(u: seq<Trip>, cz: set<int>): seq<Trip> {
    Where(u, (t: Trip) => EntersZone(t, cz))
  }

  predicate InQ1(t: Trip) {
    t.pickupTime.date.month in Q1_MONTHS && PickupYear(t) in COMPARED_YEARS
  }

  /** q1_data; the projection onto fleet and year is left to the grouping key. */
  function Q1Data(u: seq<Trip>, cz: set<int>): seq<Trip> {
    Where(EnteringZone(u, cz), InQ1)
  }

  function FleetYearOf(t: Trip): FleetYear {
    FleetYear(t.taxiType, PickupYear(t))
  }

  function RowFleetYear(r: Q1Row): FleetYear {
    FleetYear(r.taxiType, r.year)
  }

  function TripsOf(r: Q1Row): nat {
    r.trips
  }

  /** q1_comparison: `GROUP BY taxi_type, year`. */
  function Q1Comparison(u: seq<Trip>, cz: set<int>): seq<Q1Row> {
    var d := Q1Data(u, cz);
    var ks := GroupKeys(d, FleetYearOf);
    seq(|ks|, j requires 0 <= j < |ks| => Q1Row(ks[j].taxiType, ks[j].year, |GroupOf(d, FleetYearOf, ks[j])|))
  }

  /** A trip that the comparison counts under fleet and year k. */
  predicate CountedUnder(t: Trip, cz: set<int>, k: FleetYear) {
    EntersZone(t, cz) && InQ1(t) && FleetYearOf(t) == k
  }

  /** Every first-quarter entry is counted once. */
  lemma Q1CountsAddUp(u: seq<Trip>, cz: set<int>)
    ensures SumBy(Q1Comparison(u, cz), TripsOf) == |Q1Data(u, cz)|
  {
    GroupedCountsSum(Q1Data(u, cz), FleetYearOf, Q1Comparison(u, cz), TripsOf);
  }

  /**
   * Each row counts exactly the unified trips of its fleet that entered the
   * zone in the first quarter of its year, flagged or not, and there is at
   * least one.
   */
  lemma Q1RowCounts(u: seq<Trip>, cz: set<int>, r: Q1Row)
    requires r in Q1Comparison(u, cz)
    ensures r.year in COMPARED_YEARS
    ensures r.trips == |Where(u, (t: Trip) => CountedUnder(t, cz, RowFleetYear(r)))| > 0
  {
    var d := Q1Data(u, cz);
    var ks := GroupKeys(d, FleetYearOf);
    var rows := Q1Comparison(u, cz);
    var j :| 0 <= j < |rows| && rows[j] == r;
    var k := ks[j];
    assert k == RowFleetYear(r);
    assert k in ks;
    GroupNonEmpty(d, FleetYearOf, k);
    var t :| t in GroupOf(d, FleetYearOf, k);
    assert PickupYear(t) == r.year;
    GroupOfWhere(EnteringZone(u, cz), InQ1, FleetYearOf, k, (t: Trip) => InQ1(t) && FleetYearOf(t) == k);
    WhereWhere(u, (t: Trip) => EntersZone(t, cz), (t: Trip) => InQ1(t) && FleetYearOf(t) == k,
      (t: Trip) => CountedUnder(t, cz, RowFleetYear(r)));
  }

  /** One row per fleet and year, so at most four rows. */
  lemma Q1RowsDistinct(u: seq<Trip>, cz: set<int>)
    ensures var rows := Q1Comparison(u, cz);
      (forall i, j :: 0 <= i < j < |rows| ==> RowFleetYear(rows[i]) != RowFleetYear(rows[j]))
      && |rows| <= 4
  {
    var d := Q1Data(u, cz);
    var ks := GroupKeys(d, FleetYearOf);
    var universe := {FleetYear(Yellow, 2024), FleetYear(Yellow, 2025), FleetYear(Green, 2024), FleetYear(Green, 2025)};
    forall i | 0 <= i < |ks|
      ensures ks[i] in universe
    {
      assert ks[i] in ks;
      var n :| 0 <= n < |d| && FleetYearOf(d[n]) == ks[i];
      assert d[n] in d && InQ1(d[n]);
      assert PickupYear(d[n]) == 2024 || PickupYear(d[n]) == 2025;
      assert d[n].taxiType == Yellow || d[n].taxiType == Green;
    }
    DistinctWithin(ks, universe);
  }
}
