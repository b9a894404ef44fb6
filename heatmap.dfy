/**
 * The velocity heatmap: the average speed of trips picked up inside the
 * congestion zone, per weekday and hour.
 */
module Heatmap {
  import opened Wrappers
  import opened Sql
  import opened Schema
  import opened Tables
  import opened Grouping
  import opened GhostFilter

  /** A row of speed_metrics. */
  datatype SpeedMetric = SpeedMetric(hour: int, weekday: int, speedMph: Option<real>)

  datatype Slot = Slot(weekday: int, hour: int)

  /** A row of heatmap_data. */
  datatype HeatCell = HeatCell(weekday: int, hour: int, avgSpeed: Option<real>)

  /** zone_trips: the JOIN on the pickup zone keeps the trips picked up inside the zone. */
  function ZoneTrips(clean: seq<MeasuredTrip>, cz: set<int>): seq<MeasuredTrip> {
    Where(clean, (m: MeasuredTrip) => m.trip.pickupLoc in cz)
  }

  /**
   * CASE WHEN elapsed > 0 THEN distance / (elapsed / 3600) ELSE NULL END:
   * unlike the ghost filter's metric, a trip with no positive duration has
   * no speed here rather than speed 0.
   */
  function SpeedMph(t: Trip): (v: Option<real>)
    ensures v.Some? <==> ElapsedSeconds(t).Some? && ElapsedSeconds(t).value > 0 && t.tripDistance.Some?
    ensures v.Some? ==> v == AvgSpeedMph(t)
  {
    match ElapsedSeconds(t)
    case None => None
    case Some(e) =>
      if e > 0 then
        match t.tripDistance
        case None => None
        case Some(d) => Some(d / ((e as real) / 3600.0))
      else None
  }

  function SpeedMetricOf(m: MeasuredTrip): SpeedMetric {
    SpeedMetric(m.trip.pickupTime.hour, m.trip.pickupTime.weekday, SpeedMph(m.trip))
  }

  /** speed_metrics. */
  function SpeedMetrics(clean: seq<MeasuredTrip>, cz: set<int>): seq<SpeedMetric> {
    Map(ZoneTrips(clean, cz), SpeedMetricOf)
  }

  predicate HasSpeed(s: SpeedMetric) {
    s.speedMph.Some?
  }

  function SlotOf(s: SpeedMetric): Slot {
    Slot(s.weekday, s.hour)
  }

  function SpeedOf(s: SpeedMetric): Option<real> {
    s.speedMph
  }

  function CellSlot(c: HeatCell): Slot {
    Slot(c.weekday, c.hour)
  }

  /** The rows the aggregate reads: `WHERE speed_mph IS NOT NULL`. */
  function TimedSpeeds(clean: seq<MeasuredTrip>, cz: set<int>): seq<SpeedMetric> {
    Where(SpeedMetrics(clean, cz), HasSpeed)
  }

  /** heatmap_data: `GROUP BY weekday, hour` with the average speed. */
  function HeatmapData(clean: seq<MeasuredTrip>, cz: set<int>): seq<HeatCell> {
    var d := TimedSpeeds(clean, cz);
    var ks := GroupKeys(d, SlotOf);
    seq(|ks|, j requires 0 <= j < |ks| =>
      HeatCell(ks[j].weekday, ks[j].hour, SqlAvg(Map(GroupOf(d, SlotOf, ks[j]), SpeedOf))))
  }

  /** The slot of a trip's pickup. */
  function TripSlot(m: MeasuredTrip): Slot {
    Slot(m.trip.pickupTime.weekday, m.trip.pickupTime.hour)
  }

  /** A speed the aggregate reads comes from a zone trip with a positive duration. */
  lemma TimedSpeedSource(clean: seq<MeasuredTrip>, cz: set<int>, s: SpeedMetric)
    requires s in TimedSpeeds(clean, cz)
    ensures exists m :: m in clean && m.trip.pickupLoc in cz && s == SpeedMetricOf(m) && SpeedMph(m.trip).Some?
  {
    var zt := ZoneTrips(clean, cz);
    var i :| 0 <= i < |SpeedMetrics(clean, cz)| && SpeedMetrics(clean, cz)[i] == s;
    assert zt[i] in zt;
  }

  /** Each cell averages a non-empty group of speeds, the speeds of the zone trips of its slot. */
  lemma CellGroup(clean: seq<MeasuredTrip>, cz: set<int>, c: HeatCell)
    requires c in HeatmapData(clean, cz)
    ensures var g := GroupOf(TimedSpeeds(clean, cz), SlotOf, CellSlot(c));
      |g| > 0 && c.avgSpeed == SqlAvg(Map(g, SpeedOf))
  {
    var d := TimedSpeeds(clean, cz);
    var ks := GroupKeys(d, SlotOf);
    var cells := HeatmapData(clean, cz);
    var j :| 0 <= j < |cells| && cells[j] == c;
    assert ks[j] == CellSlot(c) && ks[j] in ks;
    GroupNonEmpty(d, SlotOf, ks[j]);
  }

  /**
   * Over the clean trips, every cell has an average speed, and it is at
   * most the 65 mph that the ghost filter lets through.
   */
  lemma HeatmapWithinLimit(u: seq<Trip>, cz: set<int>)
    ensures forall c :: c in HeatmapData(CleanTrips(u), cz) ==>
      c.avgSpeed.Some? && c.avgSpeed.value <= SPEED_LIMIT_MPH
  {
    var clean := CleanTrips(u);
    forall c | c in HeatmapData(clean, cz)
      ensures c.avgSpeed.Some? && c.avgSpeed.value <= SPEED_LIMIT_MPH
    {
      CellGroup(clean, cz, c);
      var g := GroupOf(TimedSpeeds(clean, cz), SlotOf, CellSlot(c));
      var vs := Map(g, SpeedOf);
      forall i | 0 <= i < |vs| && vs[i].Some?
        ensures vs[i].value <= SPEED_LIMIT_MPH
      {
        assert g[i] in g;
        TimedSpeedSource(clean, cz, g[i]);
        var m :| m in clean && m.trip.pickupLoc in cz && g[i] == SpeedMetricOf(m) && SpeedMph(m.trip).Some?;
        CleanTripFacts(u, m);
      }
      AvgAtMost(vs, SPEED_LIMIT_MPH);
      assert g[0] in g && vs[0] == SpeedOf(g[0]);
      AvgNullIffAllNull(vs);
    }
  }

  /**
   * A trip with no positive duration (or no dropoff) changes nothing in
   * the heatmap: its speed is NULL and the WHERE drops it.
   */
  lemma UntimedTripIgnored(clean: seq<MeasuredTrip>, cz: set<int>, m: MeasuredTrip)
    requires ElapsedSeconds(m.trip) == None || ElapsedSeconds(m.trip).value <= 0
    ensures HeatmapData(clean + [m], cz) == HeatmapData(clean, cz)
  {
    UntimedSpeedDropped(clean, cz, m);
  }

  lemma UntimedSpeedDropped(clean: seq<MeasuredTrip>, cz: set<int>, x: MeasuredTrip)
    requires ElapsedSeconds(x.trip) == None || ElapsedSeconds(x.trip).value <= 0
    ensures TimedSpeeds(clean + [x], cz) == TimedSpeeds(clean, cz)
  {
    WhereSnoc(clean, x, (m: MeasuredTrip) => m.trip.pickupLoc in cz);
    if x.trip.pickupLoc in cz {
      assert ZoneTrips(clean + [x], cz) == ZoneTrips(clean, cz) + [x];
      MapSnoc(ZoneTrips(clean, cz), x, SpeedMetricOf);
      WhereSnoc(SpeedMetrics(clean, cz), SpeedMetricOf(x), HasSpeed);
    } else {
      assert ZoneTrips(clean + [x], cz) == ZoneTrips(clean, cz);
    }
  }

  /**
   * The cells are one per slot, for exactly the slots in which some zone
   * trip has a speed.
   */
  lemma HeatmapSlots(clean: seq<MeasuredTrip>, cz: set<int>)
    ensures var cells := HeatmapData(clean, cz);
      (forall i, j :: 0 <= i < j < |cells| ==> CellSlot(cells[i]) != CellSlot(cells[j]))
      && forall k :: k in DistinctValues(cells, CellSlot) <==>
           exists m :: m in clean && m.trip.pickupLoc in cz && SpeedMph(m.trip).Some? && TripSlot(m) == k
  {
    var cells := HeatmapData(clean, cz);
    HeatmapCellsDistinct(clean, cz);
    forall k | k in DistinctValues(cells, CellSlot)
      ensures exists m :: m in clean && m.trip.pickupLoc in cz && SpeedMph(m.trip).Some? && TripSlot(m) == k
    {
      CellSlotHasTrip(clean, cz, k);
    }
    forall k | exists m :: m in clean && m.trip.pickupLoc in cz && SpeedMph(m.trip).Some? && TripSlot(m) == k
      ensures k in DistinctValues(cells, CellSlot)
    {
      var m :| m in clean && m.trip.pickupLoc in cz && SpeedMph(m.trip).Some? && TripSlot(m) == k;
      TripSlotHasCell(clean, cz, m);
    }
  }

  lemma HeatmapCellsDistinct(clean: seq<MeasuredTrip>, cz: set<int>)
    ensures var cells := HeatmapData(clean, cz);
      forall i, j :: 0 <= i < j < |cells| ==> CellSlot(cells[i]) != CellSlot(cells[j])
  {
    var ks := GroupKeys(TimedSpeeds(clean, cz), SlotOf);
    var cells := HeatmapData(clean, cz);
    assert forall j :: 0 <= j < |cells| ==> CellSlot(cells[j]) == ks[j];
  }

  lemma CellSlotHasTrip(clean: seq<MeasuredTrip>, cz: set<int>, k: Slot)
    requires k in DistinctValues(HeatmapData(clean, cz), CellSlot)
    ensures exists m :: m in clean && m.trip.pickupLoc in cz && SpeedMph(m.trip).Some? && TripSlot(m) == k
  {
    var c :| c in HeatmapData(clean, cz) && CellSlot(c) == k;
    CellGroup(clean, cz, c);
    var g := GroupOf(TimedSpeeds(clean, cz), SlotOf, k);
    assert g[0] in g;
    TimedSpeedSource(clean, cz, g[0]);
  }

  lemma TripSlotHasCell(clean: seq<MeasuredTrip>, cz: set<int>, m: MeasuredTrip)
    requires m in clean && m.trip.pickupLoc in cz && SpeedMph(m.trip).Some?
    ensures TripSlot(m) in DistinctValues(HeatmapData(clean, cz), CellSlot)
  {
    var d := TimedSpeeds(clean, cz);
    var ks := GroupKeys(d, SlotOf);
    var cells := HeatmapData(clean, cz);
    var zt := ZoneTrips(clean, cz);
    assert m in zt;
    var i :| 0 <= i < |zt| && zt[i] == m;
    var s := SpeedMetrics(clean, cz)[i];
    assert s in SpeedMetrics(clean, cz) && HasSpeed(s);
    assert s in d;
    var n :| 0 <= n < |d| && d[n] == s;
    assert SlotOf(s) == TripSlot(m) && TripSlot(m) in ks;
    var j :| 0 <= j < |ks| && ks[j] == TripSlot(m);
    assert cells[j] in cells;
  }
}
