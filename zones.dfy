/**
 * build_congestion_zone_reference and the border-zone query of
 * border_effect_analysis: zone-ID sets derived from the zone lookup table.
 */
module Zones {
  import opened Text

  /** A row of taxi_zone_lookup.csv. */
  datatype ZoneRow = ZoneRow(locationId: int, borough: string, zone: string)

  const TARGET_BOROUGH := "Manhattan"

  /** A zone name that one of the three NOT LIKE patterns rules out of the congestion zone. */
  predicate ExcludedName(zone: string) {
    Contains(zone, "Harlem") || Contains(zone, "Inwood") || Contains(zone, "Washington Heights")
  }

  /** The IDs of every Manhattan row of the lookup. */
  function ManhattanIds(lookup: seq<ZoneRow>): set<int> {
    set r | r in lookup && r.borough == TARGET_BOROUGH :: r.locationId
  }

  /** congestion_zone: the Manhattan zones whose name avoids the three excluded districts. */
  function CongestionZone(lookup: seq<ZoneRow>): (cz: set<int>)
    ensures cz <= ManhattanIds(lookup)
  {
    set r | r in lookup && r.borough == TARGET_BOROUGH && !ExcludedName(r.zone) :: r.locationId
  }

  /** border_zones: Manhattan IDs with no match in the persisted congestion zone (the LEFT JOIN … IS NULL). */
  function BorderZones(lookup: seq<ZoneRow>, cz: set<int>): (border: set<int>)
    ensures border !! cz
  {
    set r | r in lookup && r.borough == TARGET_BOROUGH && r.locationId !in cz :: r.locationId
  }

  /**
   * A zone ID is in the congestion zone exactly when some Manhattan row
   * carries it and none of the three district names occurs anywhere in
   * that row's zone name.
   */
  lemma CongestionZoneMembers(lookup: seq<ZoneRow>, id: int)
    ensures id in CongestionZone(lookup) <==>
      exists r :: r in lookup && r.locationId == id && r.borough == TARGET_BOROUGH
        && (forall i :: !OccursAt(r.zone, "Harlem", i))
        && (forall i :: !OccursAt(r.zone, "Inwood", i))
        && (forall i :: !OccursAt(r.zone, "Washington Heights", i))
  {
    forall r | r in lookup
      ensures ExcludedName(r.zone) <==>
        (exists i :: OccursAt(r.zone, "Harlem", i))
        || (exists i :: OccursAt(r.zone, "Inwood", i))
        || (exists i :: OccursAt(r.zone, "Washington Heights", i))
    {
      ContainsIffOccurs(r.zone, "Harlem");
      ContainsIffOccurs(r.zone, "Inwood");
      ContainsIffOccurs(r.zone, "Washington Heights");
    }
  }

  /**
   * Built from the same lookup, the congestion zone and the border zones
   * are disjoint and together are exactly the Manhattan IDs.
   */
  lemma ZonesSplitManhattan(lookup: seq<ZoneRow>)
    ensures CongestionZone(lookup) !! BorderZones(lookup, CongestionZone(lookup))
    ensures CongestionZone(lookup) + BorderZones(lookup, CongestionZone(lookup)) == ManhattanIds(lookup)
  {
    var cz := CongestionZone(lookup);
    var border := BorderZones(lookup, cz);
    forall id | id in ManhattanIds(lookup)
      ensures id in cz + border
    {
      var r :| r in lookup && r.borough == TARGET_BOROUGH && r.locationId == id;
      if id !in cz {
        assert id in border;
      }
    }
  }
}
