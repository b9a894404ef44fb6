/** create_unified_schema: both fleets renamed to one record shape and concatenated (UNION ALL). */
module Unify {
  import opened Schema
  import opened Tables

  function FromYellow(r: YellowRow): Trip {
    Trip(Yellow, r.tpepPickupDatetime, r.tpepDropoffDatetime, r.puLocationId, r.doLocationId,
         r.tripDistance, r.fareAmount, r.tipAmount, r.totalAmount, r.congestionSurcharge)
  }

  function FromGreen(r: GreenRow): Trip {
    Trip(Green, r.lpepPickupDatetime, r.lpepDropoffDatetime, r.puLocationId, r.doLocationId,
         r.tripDistance, r.fareAmount, r.tipAmount, r.totalAmount, r.congestionSurcharge)
  }

  /** The yellow row a unified record came from (inverse of FromYellow). */
  function ToYellow(t: Trip): (r: YellowRow)
    requires t.taxiType == Yellow
    ensures FromYellow(r) == t
  {
    YellowRow(t.pickupTime, t.dropoffTime, t.pickupLoc, t.dropoffLoc,
              t.tripDistance, t.fare, t.tipAmount, t.totalAmount, t.congestionSurcharge)
  }

  /** The green row a unified record came from (inverse of FromGreen). */
  function ToGreen(t: Trip): (r: GreenRow)
    requires t.taxiType == Green
    ensures FromGreen(r) == t
  {
    GreenRow(t.pickupTime, t.dropoffTime, t.pickupLoc, t.dropoffLoc,
             t.tripDistance, t.fare, t.tipAmount, t.totalAmount, t.congestionSurcharge)
  }

  predicate IsYellow(t: Trip) {
    t.taxiType == Yellow
  }

  predicate IsGreen(t: Trip) {
    t.taxiType == Green
  }

  /** unified_trips: every yellow row, then every green row; nothing filtered. */
  function UnifiedTrips(yellow: seq<YellowRow>, green: seq<GreenRow>): seq<Trip> {
    Map(yellow, FromYellow) + Map(green, FromGreen)
  }

  /** The rows of one fleet, recovered from the unified table. */
  function YellowPart(u: seq<Trip>): seq<YellowRow> {
    var ys := Where(u, IsYellow);
    seq(|ys|, i requires 0 <= i < |ys| => assert ys[i] in ys; ToYellow(ys[i]))
  }

  function GreenPart(u: seq<Trip>): seq<GreenRow> {
    var gs := Where(u, IsGreen);
    seq(|gs|, i requires 0 <= i < |gs| => assert gs[i] in gs; ToGreen(gs[i]))
  }

  /**
   * The union loses and invents nothing: the unified table has one row per
   * source row, and each fleet's rows come back out of it unchanged, in
   * their original order, under their own tag.
   */
  lemma UnifiedRoundTrip(yellow: seq<YellowRow>, green: seq<GreenRow>)
    ensures |UnifiedTrips(yellow, green)| == |yellow| + |green|
    ensures YellowPart(UnifiedTrips(yellow, green)) == yellow
    ensures GreenPart(UnifiedTrips(yellow, green)) == green
  {
    YellowRowsBack(yellow, green);
    GreenRowsBack(yellow, green);
  }

  lemma YellowRowsBack(yellow: seq<YellowRow>, green: seq<GreenRow>)
    ensures Where(UnifiedTrips(yellow, green), IsYellow) == Map(yellow, FromYellow)
  {
    var ys, gs := Map(yellow, FromYellow), Map(green, FromGreen);
    WhereConcat(ys, gs, IsYellow);
    WhereAll(ys, IsYellow);
    WhereNone(gs, IsYellow);
  }

  lemma GreenRowsBack(yellow: seq<YellowRow>, green: seq<GreenRow>)
    ensures Where(UnifiedTrips(yellow, green), IsGreen) == Map(green, FromGreen)
  {
    var ys, gs := Map(yellow, FromYellow), Map(green, FromGreen);
    WhereConcat(ys, gs, IsGreen);
    WhereNone(ys, IsGreen);
    WhereAll(gs, IsGreen);
  }

  /** Counting the tags recovers the two source sizes. */
  lemma UnifiedTagCounts(yellow: seq<YellowRow>, green: seq<GreenRow>)
    ensures |Where(UnifiedTrips(yellow, green), IsYellow)| == |yellow|
    ensures |Where(UnifiedTrips(yellow, green), IsGreen)| == |green|
  {
    UnifiedRoundTrip(yellow, green);
  }
}
