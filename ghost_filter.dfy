/**
 * ghost_trip_filter: keep trips picked up in 2023 or later, derive their
 * duration and average speed, and split them into the audit log (ghost
 * trips) and the clean trips on a three-clause condition evaluated with
 * SQL's three-valued logic.
 */
module GhostFilter {
  import opened Wrappers
  import opened Sql
  import opened Schema
  import opened Tables

  /** Rows picked up before this year are dropped as stale. */
  const FIRST_YEAR := 2023
  /** Faster than this is physically implausible for a taxi. */
  const SPEED_LIMIT_MPH := 65.0

  /** A row of trips_with_metrics: the trip plus its derived columns. */
  datatype MeasuredTrip = MeasuredTrip(trip: Trip, durationMinutes: Option<real>, avgSpeedMph: Option<real>)

  /**
   * CASE WHEN elapsed > 0 THEN distance / (elapsed / 3600) ELSE 0 END.
   * A NULL elapsed time fails the WHEN, so it gives 0 as well.
   */
  function AvgSpeedMph(t: Trip): (v: Option<real>)
    ensures ElapsedSeconds(t) == None || ElapsedSeconds(t).value <= 0 ==> v == Some(0.0)
    ensures v == None <==> ElapsedSeconds(t).Some? && ElapsedSeconds(t).value > 0 && t.tripDistance == None
  {
    match ElapsedSeconds(t)
    case None => Some(0.0)
    case Some(e) =>
      if e > 0 then
        match t.tripDistance
        case None => None
        case Some(d) => Some(d / ((e as real) / 3600.0))
      else Some(0.0)
  }

  function Measure(t: Trip): MeasuredTrip {
    MeasuredTrip(t, DurationMinutes(t), AvgSpeedMph(t))
  }

  /** WHERE EXTRACT(YEAR FROM pickup_time) >= 2023. */
  predicate InScope(t: Trip) {
    PickupYear(t) >= FIRST_YEAR
  }

  /** trips_with_metrics. */
  function TripsWithMetrics(u: seq<Trip>): seq<MeasuredTrip> {
    Map(Where(u, InScope), Measure)
  }

  /** avg_speed_mph > 65 OR (duration_minutes < 1 AND fare > 20) OR (trip_distance = 0 AND fare > 0). */
  function GhostCondition(m: MeasuredTrip): Truth {
    Or(Or(Gt(m.avgSpeedMph, SPEED_LIMIT_MPH),
          And(Lt(m.durationMinutes, 1.0), Gt(m.trip.fare, 20.0))),
       And(Eq(m.trip.tripDistance, 0.0), Gt(m.trip.fare, 0.0)))
  }

  /** The audit log's WHERE: the condition is True. */
  predicate Flagged(m: MeasuredTrip) {
    GhostCondition(m) == True
  }

  /** The clean table's WHERE NOT (…): the condition is False. */
  predicate Passed(m: MeasuredTrip) {
    Not(GhostCondition(m)) == True
  }

  /** audit_log: the ghost trips. */
  function AuditLog(u: seq<Trip>): seq<MeasuredTrip> {
    Where(TripsWithMetrics(u), Flagged)
  }

  /** clean_trips: the trips every later analysis reads. */
  function CleanTrips(u: seq<Trip>): seq<MeasuredTrip> {
    Where(TripsWithMetrics(u), Passed)
  }

  /** The columns the ghost condition reads are all non-NULL. */
  predicate Complete(t: Trip) {
    t.dropoffTime.Some? && t.tripDistance.Some? && t.fare.Some?
  }

  /**
   * The three ghost rules on a complete trip, stated on the elapsed
   * seconds e without division: faster than 65 mph means
   * distance · 3600 > 65 · e with e > 0; under a minute means e < 60.
   */
  predicate Implausible(t: Trip)
    requires Complete(t)
  {
    var e, d, f := ElapsedSeconds(t).value, t.tripDistance.value, t.fare.value;
    (e > 0 && d * 3600.0 > SPEED_LIMIT_MPH * (e as real))
    || (e < 60 && f > 20.0)
    || (d == 0.0 && f > 0.0)
  }

  /** For e > 0: distance / (e / 3600) > 65 exactly when distance · 3600 > 65 · e. */
  lemma SpeedAboveLimit(d: real, e: real)
    requires e > 0.0
    ensures d / (e / 3600.0) > SPEED_LIMIT_MPH <==> d * 3600.0 > SPEED_LIMIT_MPH * e
  {
    var q := e / 3600.0;
    var v := d / q;
    assert v * q == d;
    assert d * 3600.0 == v * e;
    if v > SPEED_LIMIT_MPH {
      assert v * e > SPEED_LIMIT_MPH * e;
    } else {
      assert v * e <= SPEED_LIMIT_MPH * e;
    }
  }

  /** On a complete trip the ghost condition is never NULL, and it is True exactly for implausible trips. */
  lemma GhostConditionDecided(t: Trip)
    requires Complete(t)
    ensures GhostCondition(Measure(t)) == OfBool(Implausible(t))
  {
    var e := ElapsedSeconds(t).value;
    if e > 0 {
      SpeedAboveLimit(t.tripDistance.value, e as real);
    }
  }

  lemma MeasuredIn(u: seq<Trip>, t: Trip)
    requires t in u && InScope(t)
    ensures Measure(t) in TripsWithMetrics(u)
  {
    var s := Where(u, InScope);
    var i :| 0 <= i < |s| && s[i] == t;
    assert TripsWithMetrics(u)[i] == Measure(t);
  }

  /**
   * A complete trip picked up in 2023 or later lands in the audit log
   * exactly when it breaks a ghost rule, and in the clean table exactly
   * when it does not: never both, never neither.
   */
  lemma CompleteTripClassified(u: seq<Trip>, t: Trip)
    requires t in u && InScope(t) && Complete(t)
    ensures Measure(t) in AuditLog(u) <==> Implausible(t)
    ensures Measure(t) in CleanTrips(u) <==> !Implausible(t)
  {
    MeasuredIn(u, t);
    GhostConditionDecided(t);
  }

  /** What a row of the clean table is known to satisfy. */
  lemma CleanTripFacts(u: seq<Trip>, m: MeasuredTrip)
    requires m in CleanTrips(u)
    ensures m.trip in u && InScope(m.trip) && m == Measure(m.trip)
    ensures GhostCondition(m) == False
    ensures m.avgSpeedMph.Some? && m.avgSpeedMph.value <= SPEED_LIMIT_MPH
  {
    var s := Where(u, InScope);
    var i :| 0 <= i < |TripsWithMetrics(u)| && TripsWithMetrics(u)[i] == m;
    assert s[i] in s;
  }

  /**
   * When every in-scope row has its dropoff, distance and fare, the audit
   * log and the clean table together hold every measured row exactly once.
   */
  lemma GhostPartition(u: seq<Trip>)
    requires forall t :: t in u && InScope(t) ==> Complete(t)
    ensures multiset(AuditLog(u)) + multiset(CleanTrips(u)) == multiset(TripsWithMetrics(u))
    ensures |AuditLog(u)| + |CleanTrips(u)| == |Where(u, InScope)|
  {
    var ms := TripsWithMetrics(u);
    forall m | m in ms
      ensures Flagged(m) != Passed(m)
    {
      var s := Where(u, InScope);
      var i :| 0 <= i < |ms| && ms[i] == m;
      assert s[i] in s;
      GhostConditionDecided(s[i]);
    }
    WhereSplit(ms, Flagged, Passed);
    WherePartition(ms, Flagged, Passed);
  }

  /** No row is ever in both tables, NULLs or not. */
  lemma AuditCleanDisjoint(u: seq<Trip>, m: MeasuredTrip)
    ensures !(m in AuditLog(u) && m in CleanTrips(u))
  {
  }

  /**
   * A measured row whose ghost condition is NULL lands in neither table:
   * the audit log keeps only True, the clean table only rows whose
   * negated condition is True, and NOT NULL is NULL.
   */
  lemma UnknownConditionInNeither(u: seq<Trip>, m: MeasuredTrip)
    requires m in TripsWithMetrics(u) && GhostCondition(m) == Unknown
    ensures m !in AuditLog(u) && m !in CleanTrips(u)
  {
    assert !Flagged(m) && !Passed(m);
  }

  /**
   * A row with a NULL dropoff and a fare over 20 has a NULL duration, so
   * `duration_minutes < 1 AND fare > 20` is NULL, while its speed is 0.
   * The row is a ghost trip only through the zero-distance rule; with any
   * other distance, NULL included, the whole condition is NULL and the row
   * lands in neither table.
   */
  lemma NullDropoffInNeither(u: seq<Trip>, t: Trip)
    requires t in u && InScope(t)
    requires t.dropoffTime == None && Gt(t.fare, 20.0) == True
    ensures Measure(t) in TripsWithMetrics(u)
    ensures t.tripDistance == Some(0.0) ==> Measure(t) in AuditLog(u) && Measure(t) !in CleanTrips(u)
    ensures t.tripDistance != Some(0.0) ==> Measure(t) !in AuditLog(u) && Measure(t) !in CleanTrips(u)
  {
    MeasuredIn(u, t);
    var m := Measure(t);
    assert m.avgSpeedMph == Some(0.0) && m.durationMinutes == None;
    if t.tripDistance == Some(0.0) {
      assert GhostCondition(m) == True;
    } else {
      assert GhostCondition(m) == Unknown;
      UnknownConditionInNeither(u, m);
    }
  }
}
