/**
 * congestion_leakage_audit: clean trips that enter the congestion zone
 * once the policy is live, their surcharge compliance, the trips that
 * leaked (paid no surcharge) and the three pickup zones leaking most.
 */
module Leakage {
  import opened Wrappers
  import opened Schema
  import opened Tables
  import opened Grouping
  import opened GhostFilter

  /** The surcharge is audited from this pickup year on. */
  const POLICY_YEAR := 2024
  /** LIMIT 3. */
  const TOP_N := 3

  /**
   * Picked up outside the zone and dropped off inside it: the two LEFT
   * JOINs with `p.LocationID IS NULL AND d.LocationID IS NOT NULL`.
   */
  predicate EntersZone(t: Trip, cz: set<int>) {
    t.pickupLoc !in cz && t.dropoffLoc in cz
  }

  /** The WHERE of entering_zone: enters the zone, picked up in 2024 or later. */
  predicate Entering(m: MeasuredTrip, cz: set<int>) {
    EntersZone(m.trip, cz) && PickupYear(m.trip) >= POLICY_YEAR
  }

  /** entering_zone. */
  function EnteringTrips(clean: seq<MeasuredTrip>, cz: set<int>): seq<MeasuredTrip> {
    Where(clean, (m: MeasuredTrip) => Entering(m, cz))
  }

  /** CASE WHEN congestion_surcharge > 0 THEN 1 ELSE 0 END is 1 (a NULL surcharge gives 0). */
  predicate Compliant(m: MeasuredTrip) {
    m.trip.congestionSurcharge.Some? && m.trip.congestionSurcharge.value > 0.0
  }

  /** congestion_surcharge IS NULL OR congestion_surcharge <= 0. */
  predicate Leaked(m: MeasuredTrip) {
    m.trip.congestionSurcharge == None || m.trip.congestionSurcharge.value <= 0.0
  }

  /** compliance_stats; SUM over no rows is NULL, so compliantTrips is NULL when nothing entered. */
  datatype ComplianceStats = ComplianceStats(totalEntering: nat, compliantTrips: Option<nat>)

  function Compliance(entering: seq<MeasuredTrip>): ComplianceStats {
    ComplianceStats(|entering|,
                    if entering == [] then None else Some(|Where(entering, Compliant)|))
  }

  /** leakage_trips. */
  function LeakageTrips(entering: seq<MeasuredTrip>): seq<MeasuredTrip> {
    Where(entering, Leaked)
  }

  /** A row of top_leakage_pickups. */
  datatype PickupCount = PickupCount(pickupLoc: int, leakageCount: nat)

  function PickupOf(m: MeasuredTrip): int {
    m.trip.pickupLoc
  }

  function LeakageCountOf(r: PickupCount): int {
    r.leakageCount
  }

  /** SELECT pickup_loc, COUNT(*) FROM leakage_trips GROUP BY pickup_loc. */
  function LeakageByPickup(leakage: seq<MeasuredTrip>): seq<PickupCount> {
    var ks := GroupKeys(leakage, PickupOf);
    seq(|ks|, j requires 0 <= j < |ks| => PickupCount(ks[j], |GroupOf(leakage, PickupOf, ks[j])|))
  }

  /** … ORDER BY leakage_count DESC LIMIT 3. */
  function TopLeakagePickups(leakage: seq<MeasuredTrip>): seq<PickupCount> {
    TopBy(LeakageByPickup(leakage), LeakageCountOf, TOP_N)
  }

  /** The three artifacts the audit writes. */
  datatype Audit = Audit(compliance: ComplianceStats, leakage: seq<MeasuredTrip>, topPickups: seq<PickupCount>)

  function LeakageAudit(clean: seq<MeasuredTrip>, cz: set<int>): Audit {
    var entering := EnteringTrips(clean, cz);
    var leakage := LeakageTrips(entering);
    Audit(Compliance(entering), leakage, TopLeakagePickups(leakage))
  }

  /**
   * Leakage ⊆ entering ⊆ clean, every entering trip crosses into the zone
   * on or after the policy year, and every leaked trip carries a NULL or
   * non-positive surcharge.
   */
  lemma LeakageWithinEntering(clean: seq<MeasuredTrip>, cz: set<int>)
    ensures multiset(LeakageAudit(clean, cz).leakage) <= multiset(EnteringTrips(clean, cz)) <= multiset(clean)
    ensures forall m :: m in EnteringTrips(clean, cz) ==>
      m.trip.pickupLoc !in cz && m.trip.dropoffLoc in cz && PickupYear(m.trip) >= POLICY_YEAR
    ensures forall m :: m in LeakageAudit(clean, cz).leakage ==>
      m in EnteringTrips(clean, cz)
      && (m.trip.congestionSurcharge == None || m.trip.congestionSurcharge.value <= 0.0)
  {
    var entering := EnteringTrips(clean, cz);
    WhereMultiset(clean, (m: MeasuredTrip) => Entering(m, cz));
    WhereMultiset(entering, Leaked);
  }

  /**
   * Every entering trip is compliant or leaked, never both: compliant
   * trips plus leaked trips make up the entering total. With no entering
   * trip, compliant_trips is NULL.
   */
  lemma ComplianceBalance(clean: seq<MeasuredTrip>, cz: set<int>)
    ensures var a := LeakageAudit(clean, cz);
      (a.compliance.totalEntering == 0 <==> a.compliance.compliantTrips == None)
      && (a.compliance.compliantTrips.Some? ==>
            a.compliance.compliantTrips.value + |a.leakage| == a.compliance.totalEntering)
  {
    var entering := EnteringTrips(clean, cz);
    WhereSplit(entering, Compliant, Leaked);
  }

  /** The grouped counts: one row per leaking pickup zone, counting exactly that zone's leaked trips. */
  lemma LeakageGroupsCount(leakage: seq<MeasuredTrip>, r: PickupCount)
    requires r in LeakageByPickup(leakage)
    ensures r.leakageCount == |GroupOf(leakage, PickupOf, r.pickupLoc)| > 0
  {
    var groups := LeakageByPickup(leakage);
    var ks := GroupKeys(leakage, PickupOf);
    var j :| 0 <= j < |groups| && groups[j] == r;
    assert ks[j] in ks;
    var i :| 0 <= i < |leakage| && PickupOf(leakage[i]) == ks[j];
    assert leakage[i] in GroupOf(leakage, PickupOf, ks[j]);
  }

  lemma LeakageGroupsKeys(leakage: seq<MeasuredTrip>)
    ensures forall a, b :: 0 <= a < b < |LeakageByPickup(leakage)| ==>
      LeakageByPickup(leakage)[a].pickupLoc != LeakageByPickup(leakage)[b].pickupLoc
  {
  }

  /**
   * The leakage ranking: at most three rows, heaviest first, one per
   * pickup zone, each counting exactly the leaked trips from its zone.
   */
  lemma TopLeakageRanks(leakage: seq<MeasuredTrip>)
    ensures var top := TopLeakagePickups(leakage);
      |top| <= TOP_N
      && NonIncreasing(top, LeakageCountOf)
      && (forall r :: r in top ==> r.leakageCount == |GroupOf(leakage, PickupOf, r.pickupLoc)| > 0)
      && (forall i, j :: 0 <= i < j < |top| ==> top[i].pickupLoc != top[j].pickupLoc)
  {
    var groups := LeakageByPickup(leakage);
    var top := TopLeakagePickups(leakage);
    TopByOrdered(groups, LeakageCountOf, TOP_N);
    TopByMultiset(groups, LeakageCountOf, TOP_N);
    forall r | r in top
      ensures r.leakageCount == |GroupOf(leakage, PickupOf, r.pickupLoc)| > 0
    {
      TopByMembers(groups, LeakageCountOf, TOP_N, r);
      LeakageGroupsCount(leakage, r);
    }
    LeakageGroupsKeys(leakage);
    forall i, j | 0 <= i < j < |top|
      ensures top[i].pickupLoc != top[j].pickupLoc
    {
      SubTableKeysDistinct(groups, top, RankedPickup, i, j);
    }
  }

  function RankedPickup(r: PickupCount): int {
    r.pickupLoc
  }

  /** No pickup zone left out of the ranking leaks more than a zone listed in it. */
  lemma TopLeakageOmittedLighter(leakage: seq<MeasuredTrip>, m: MeasuredTrip, r: PickupCount)
    requires m in leakage && r in TopLeakagePickups(leakage)
    requires forall x :: x in TopLeakagePickups(leakage) ==> x.pickupLoc != m.trip.pickupLoc
    ensures |GroupOf(leakage, PickupOf, m.trip.pickupLoc)| <= r.leakageCount
  {
    var groups := LeakageByPickup(leakage);
    var ks := GroupKeys(leakage, PickupOf);
    var k := m.trip.pickupLoc;
    var i :| 0 <= i < |leakage| && leakage[i] == m;
    assert k in ks;
    var j :| 0 <= j < |ks| && ks[j] == k;
    var g := groups[j];
    assert g.pickupLoc == k && g.leakageCount == |GroupOf(leakage, PickupOf, k)|;
    assert g in groups;
    assert g !in TopLeakagePickups(leakage);
    TopByOmittedLighter(groups, LeakageCountOf, TOP_N, g, r);
    assert LeakageCountOf(g) <= LeakageCountOf(r);
  }
}
