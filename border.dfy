/**
 * The border effect: dropoffs in Manhattan zones just outside the
 * congestion zone, counted per zone for 2024 and 2025, and the percent
 * change between the two years.
 */
module Border {
  import opened Wrappers
  import opened Sql
  import opened Schema
  import opened Tables
  import opened Grouping
  import opened GhostFilter
  import opened Zones

  const BEFORE_YEAR := 2024
  const AFTER_YEAR := 2025

  datatype ZoneYear = ZoneYear(dropoffLoc: int, year: int)

  /** A row of border_counts. */
  datatype BorderCount = BorderCount(dropoffLoc: int, year: int, trips: nat)

  /** A row of border_change. */
  datatype BorderChange = BorderChange(dropoffLoc: int, trips2024: nat, trips2025: nat, percentChange: Option<real>)

  /** The WHERE and JOIN of border_dropoffs; the year is the pickup's. */
  predicate BorderDropoff(m: MeasuredTrip, border: set<int>) {
    m.trip.dropoffLoc in border && (PickupYear(m.trip) == BEFORE_YEAR || PickupYear(m.trip) == AFTER_YEAR)
  }

  /** border_dropoffs; the projection onto zone and year is left to the grouping key. */
  function BorderDropoffs(clean: seq<MeasuredTrip>, border: set<int>): seq<MeasuredTrip> {
    Where(clean, (m: MeasuredTrip) => BorderDropoff(m, border))
  }

  function ZoneYearOf(m: MeasuredTrip): ZoneYear {
    ZoneYear(m.trip.dropoffLoc, PickupYear(m.trip))
  }

  function DropoffLocOf(m: MeasuredTrip): int {
    m.trip.dropoffLoc
  }

  function CountKey(c: BorderCount): ZoneYear {
    ZoneYear(c.dropoffLoc, c.year)
  }

  function CountLoc(c: BorderCount): int {
    c.dropoffLoc
  }

  function ChangeLoc(r: BorderChange): int {
    r.dropoffLoc
  }

  /** border_counts: `GROUP BY dropoff_loc, year`. */
  function BorderCounts(dropoffs: seq<MeasuredTrip>): seq<BorderCount> {
    var ks := GroupKeys(dropoffs, ZoneYearOf);
    seq(|ks|, j requires 0 <= j < |ks| =>
      BorderCount(ks[j].dropoffLoc, ks[j].year, |GroupOf(dropoffs, ZoneYearOf, ks[j])|))
  }

  /** `SELECT * FROM border_counts WHERE year = y`. */
  function CountsOfYear(counts: seq<BorderCount>, y: int): seq<BorderCount> {
    Where(counts, (c: BorderCount) => c.year == y)
  }

  /** The trips of the first row for zone loc, or NULL when no row has it. */
  function TripsAt(rows: seq<BorderCount>, loc: int): Option<nat> {
    if rows == [] then None
    else if rows[0].dropoffLoc == loc then Some(rows[0].trips)
    else TripsAt(rows[1..], loc)
  }

  function Coalesce(n: Option<nat>): nat {
    if n.Some? then n.value else 0
  }

  /** The CASE expression of border_change: NULL unless there were 2024 dropoffs. */
  function PercentChange(before: nat, after: nat): Option<real> {
    if before > 0 then Some(100.0 * ((after as real) - (before as real)) / (before as real)) else None
  }

  /** One output row of the join, from the 2024 and 2025 sides (either may be NULL). */
  function Joined(loc: int, before: Option<nat>, after: Option<nat>): BorderChange {
    BorderChange(loc, Coalesce(before), Coalesce(after), PercentChange(Coalesce(before), Coalesce(after)))
  }

  /** The rows of a, each with its match in b, if any. */
  function JoinLeft(a: seq<BorderCount>, b: seq<BorderCount>): seq<BorderChange> {
    Map(a, (x: BorderCount) => Joined(x.dropoffLoc, Some(x.trips), TripsAt(b, x.dropoffLoc)))
  }

  /** The rows of b that match no row of a. */
  function Unmatched(a: seq<BorderCount>, b: seq<BorderCount>): seq<BorderCount> {
    Where(b, (y: BorderCount) => TripsAt(a, y.dropoffLoc) == None)
  }

  function JoinRight(a: seq<BorderCount>, b: seq<BorderCount>): seq<BorderChange> {
    Map(Unmatched(a, b), (y: BorderCount) => Joined(y.dropoffLoc, None, Some(y.trips)))
  }

  /**
   * `a FULL OUTER JOIN b ON a.dropoff_loc = b.dropoff_loc`: each row of a
   * with its match in b, if any, then each row of b that matches nothing
   * in a.
   */
  function FullOuterJoin(a: seq<BorderCount>, b: seq<BorderCount>): seq<BorderChange> {
    JoinLeft(a, b) + JoinRight(a, b)
  }

  /** border_change. */
  function BorderEffect(clean: seq<MeasuredTrip>, border: set<int>): seq<BorderChange> {
    var counts := BorderCounts(BorderDropoffs(clean, border));
    FullOuterJoin(CountsOfYear(counts, BEFORE_YEAR), CountsOfYear(counts, AFTER_YEAR))
  }

  /** The number of clean trips dropped off in zone loc whose pickup was in year y. */
  function DropoffsIn(clean: seq<MeasuredTrip>, loc: int, y: int): nat {
    |Where(clean, (m: MeasuredTrip) => m.trip.dropoffLoc == loc && PickupYear(m.trip) == y)|
  }

  predicate DistinctLocs(rows: seq<BorderCount>) {
    forall i, j :: 0 <= i < j < |rows| ==> rows[i].dropoffLoc != rows[j].dropoffLoc
  }

  /** The percent change is defined exactly when 2024 had dropoffs, never below -100, and signed like the change. */
  lemma PercentChangeFacts(before: nat, after: nat)
    ensures PercentChange(before, after).Some? <==> before > 0
    ensures PercentChange(before, after).Some? ==>
      var p := PercentChange(before, after).value;
      -100.0 <= p && (p > 0.0 <==> after > before) && (p == 0.0 <==> after == before)
  {
    if before > 0 {
      var b, a := before as real, after as real;
      var p := 100.0 * (a - b) / b;
      assert p * b == 100.0 * (a - b);
      QuotientAtLeast(100.0 * (a - b), b, -100.0);
      if p > 0.0 {
        assert p * b > 0.0;
      }
      if after > before {
        assert 100.0 * (a - b) > 0.0;
      }
      if p == 0.0 {
        assert 100.0 * (a - b) == 0.0;
      }
    }
  }

  lemma PercentChangeExamples()
    ensures PercentChange(0, 5) == None
    ensures PercentChange(10, 15) == Some(50.0)
    ensures PercentChange(10, 5) == Some(-50.0)
  {
  }

  /** The lookup is NULL exactly when no row has the zone. */
  lemma {:induction false} TripsAtNone(rows: seq<BorderCount>, loc: int)
    ensures TripsAt(rows, loc) == None <==> forall i :: 0 <= i < |rows| ==> rows[i].dropoffLoc != loc
  {
    if rows != [] && rows[0].dropoffLoc != loc {
      TripsAtNone(rows[1..], loc);
      assert forall i :: 1 <= i < |rows| ==> rows[i] == rows[1..][i - 1];
    }
  }

  /** In a table with one row per zone, a row's zone finds that row. */
  lemma {:induction false} TripsAtRow(rows: seq<BorderCount>, x: BorderCount)
    requires DistinctLocs(rows) && x in rows
    ensures TripsAt(rows, x.dropoffLoc) == Some(x.trips)
  {
    if rows[0] != x {
      assert x in rows[1..];
      TripsAtRow(rows[1..], x);
    }
  }

  /** A selection of rows of a table with one row per zone has one row per zone. */
  lemma SubRowsDistinct(rows: seq<BorderCount>, sub: seq<BorderCount>)
    requires DistinctLocs(rows) && multiset(sub) <= multiset(rows)
    ensures DistinctLocs(sub)
  {
    assert forall a, b :: 0 <= a < b < |rows| ==> CountLoc(rows[a]) != CountLoc(rows[b]);
    forall i, j | 0 <= i < j < |sub|
      ensures sub[i].dropoffLoc != sub[j].dropoffLoc
    {
      SubTableKeysDistinct(rows, sub, CountLoc, i, j);
    }
  }

  /** Row i of the left part is row i of a, joined with its match in b. */
  lemma JoinLeftRow(a: seq<BorderCount>, b: seq<BorderCount>, i: nat)
    requires DistinctLocs(a) && i < |a|
    ensures var r := JoinLeft(a, b)[i];
      r.dropoffLoc == a[i].dropoffLoc
      && r.trips2024 == Coalesce(TripsAt(a, r.dropoffLoc))
      && r.trips2025 == Coalesce(TripsAt(b, r.dropoffLoc))
      && r.percentChange == PercentChange(r.trips2024, r.trips2025)
  {
    assert a[i] in a;
    TripsAtRow(a, a[i]);
  }

  /** Row i of the right part is a row of b that no row of a matches, with 0 for 2024. */
  lemma JoinRightRow(a: seq<BorderCount>, b: seq<BorderCount>, i: nat)
    requires DistinctLocs(b) && i < |Unmatched(a, b)|
    ensures var y := Unmatched(a, b)[i];
      var r := JoinRight(a, b)[i];
      y in b && TripsAt(a, y.dropoffLoc) == None
      && r.dropoffLoc == y.dropoffLoc
      && r.trips2024 == Coalesce(TripsAt(a, r.dropoffLoc))
      && r.trips2025 == Coalesce(TripsAt(b, r.dropoffLoc))
      && r.percentChange == PercentChange(r.trips2024, r.trips2025)
  {
    var y := Unmatched(a, b)[i];
    assert y in Unmatched(a, b);
    TripsAtRow(b, y);
  }

  lemma UnmatchedDistinct(a: seq<BorderCount>, b: seq<BorderCount>)
    requires DistinctLocs(b)
    ensures DistinctLocs(Unmatched(a, b))
  {
    WhereMultiset(b, (y: BorderCount) => TripsAt(a, y.dropoffLoc) == None);
    SubRowsDistinct(b, Unmatched(a, b));
  }

  /**
   * The full outer join of two tables with one row per zone: one row per
   * zone found on either side, each with that side's count or 0, and the
   * percent change of the two.
   */
  lemma JoinRows(a: seq<BorderCount>, b: seq<BorderCount>)
    requires DistinctLocs(a) && DistinctLocs(b)
    ensures var rows := FullOuterJoin(a, b);
      (forall i, j :: 0 <= i < j < |rows| ==> rows[i].dropoffLoc != rows[j].dropoffLoc)
      && DistinctValues(rows, ChangeLoc) == DistinctValues(a, CountLoc) + DistinctValues(b, CountLoc)
      && (forall r :: r in rows ==>
            r.trips2024 == Coalesce(TripsAt(a, r.dropoffLoc))
            && r.trips2025 == Coalesce(TripsAt(b, r.dropoffLoc))
            && r.percentChange == PercentChange(r.trips2024, r.trips2025))
  {
    JoinRowsDistinct(a, b);
    JoinRowsValues(a, b);
    JoinLocs(a, b);
  }

  lemma JoinRowsDistinct(a: seq<BorderCount>, b: seq<BorderCount>)
    requires DistinctLocs(a) && DistinctLocs(b)
    ensures var rows := FullOuterJoin(a, b);
      forall i, j :: 0 <= i < j < |rows| ==> rows[i].dropoffLoc != rows[j].dropoffLoc
  {
    var left := JoinLeft(a, b);
    var rows := FullOuterJoin(a, b);
    UnmatchedDistinct(a, b);
    forall i, j | 0 <= i < j < |rows|
      ensures rows[i].dropoffLoc != rows[j].dropoffLoc
    {
      if j < |left| {
        JoinLeftRow(a, b, i);
        JoinLeftRow(a, b, j);
      } else if i < |left| {
        JoinLeftRow(a, b, i);
        JoinRightRow(a, b, j - |left|);
        TripsAtNone(a, Unmatched(a, b)[j - |left|].dropoffLoc);
      } else {
        JoinRightRow(a, b, i - |left|);
        JoinRightRow(a, b, j - |left|);
      }
    }
  }

  lemma JoinRowsValues(a: seq<BorderCount>, b: seq<BorderCount>)
    requires DistinctLocs(a) && DistinctLocs(b)
    ensures var rows := FullOuterJoin(a, b);
      forall r :: r in rows ==>
        r.trips2024 == Coalesce(TripsAt(a, r.dropoffLoc))
        && r.trips2025 == Coalesce(TripsAt(b, r.dropoffLoc))
        && r.percentChange == PercentChange(r.trips2024, r.trips2025)
  {
    var left, right := JoinLeft(a, b), JoinRight(a, b);
    var rows := FullOuterJoin(a, b);
    forall r | r in rows
      ensures r.trips2024 == Coalesce(TripsAt(a, r.dropoffLoc))
      ensures r.trips2025 == Coalesce(TripsAt(b, r.dropoffLoc))
      ensures r.percentChange == PercentChange(r.trips2024, r.trips2025)
    {
      var i :| 0 <= i < |rows| && rows[i] == r;
      if i < |left| {
        assert r == left[i];
        JoinLeftRow(a, b, i);
      } else {
        assert r == right[i - |left|];
        JoinRightRow(a, b, i - |left|);
      }
    }
  }

  /** The join's zones are the zones of either side. */
  lemma JoinLocs(a: seq<BorderCount>, b: seq<BorderCount>)
    requires DistinctLocs(a) && DistinctLocs(b)
    ensures DistinctValues(FullOuterJoin(a, b), ChangeLoc) == DistinctValues(a, CountLoc) + DistinctValues(b, CountLoc)
  {
    var out, inA, inB := DistinctValues(FullOuterJoin(a, b), ChangeLoc), DistinctValues(a, CountLoc), DistinctValues(b, CountLoc);
    forall z | z in out
      ensures z in inA + inB
    {
      JoinLocFromSide(a, b, z);
    }
    forall z | z in inA + inB
      ensures z in out
    {
      JoinLocToRow(a, b, z);
    }
  }

  lemma JoinLocFromSide(a: seq<BorderCount>, b: seq<BorderCount>, z: int)
    requires DistinctLocs(a) && DistinctLocs(b)
    requires z in DistinctValues(FullOuterJoin(a, b), ChangeLoc)
    ensures z in DistinctValues(a, CountLoc) + DistinctValues(b, CountLoc)
  {
    var left, right := JoinLeft(a, b), JoinRight(a, b);
    var rows := FullOuterJoin(a, b);
    var r :| r in rows && ChangeLoc(r) == z;
    var i :| 0 <= i < |rows| && rows[i] == r;
    if i < |left| {
      assert r == left[i];
      JoinLeftRow(a, b, i);
      assert a[i] in a && CountLoc(a[i]) == z;
    } else {
      assert r == right[i - |left|];
      JoinRightRow(a, b, i - |left|);
      var y := Unmatched(a, b)[i - |left|];
      assert y in b && CountLoc(y) == z;
    }
  }

  lemma JoinLocToRow(a: seq<BorderCount>, b: seq<BorderCount>, z: int)
    requires DistinctLocs(a) && DistinctLocs(b)
    requires z in DistinctValues(a, CountLoc) + DistinctValues(b, CountLoc)
    ensures z in DistinctValues(FullOuterJoin(a, b), ChangeLoc)
  {
    var left, right := JoinLeft(a, b), JoinRight(a, b);
    var rows := FullOuterJoin(a, b);
    if z in DistinctValues(a, CountLoc) {
      var x :| x in a && CountLoc(x) == z;
      var i :| 0 <= i < |a| && a[i] == x;
      JoinLeftRow(a, b, i);
      assert rows[i] == left[i];
      assert rows[i] in rows && ChangeLoc(rows[i]) == z;
    } else {
      UnmatchedHas(a, b, z);
      var i :| 0 <= i < |Unmatched(a, b)| && Unmatched(a, b)[i].dropoffLoc == z;
      JoinRightRow(a, b, i);
      assert rows[|left| + i] == right[i];
      assert rows[|left| + i] in rows && ChangeLoc(rows[|left| + i]) == z;
    }
  }

  /** A zone of b that a lacks has its row among the unmatched rows. */
  lemma UnmatchedHas(a: seq<BorderCount>, b: seq<BorderCount>, z: int)
    requires z in DistinctValues(b, CountLoc) && z !in DistinctValues(a, CountLoc)
    ensures exists i :: 0 <= i < |Unmatched(a, b)| && Unmatched(a, b)[i].dropoffLoc == z
  {
    var y :| y in b && CountLoc(y) == z;
    TripsAtNone(a, z);
    forall i | 0 <= i < |a|
      ensures a[i].dropoffLoc != z
    {
      assert a[i] in a && CountLoc(a[i]) == a[i].dropoffLoc;
    }
    assert y in Unmatched(a, b);
    var i :| 0 <= i < |Unmatched(a, b)| && Unmatched(a, b)[i] == y;
  }

  /** Each row of border_counts counts the group of its zone and year, and that group is not empty. */
  lemma CountRow(dropoffs: seq<MeasuredTrip>, c: BorderCount)
    requires c in BorderCounts(dropoffs)
    ensures c.trips == |GroupOf(dropoffs, ZoneYearOf, CountKey(c))|
    ensures exists m :: m in dropoffs && ZoneYearOf(m) == CountKey(c)
  {
    var ks := GroupKeys(dropoffs, ZoneYearOf);
    var counts := BorderCounts(dropoffs);
    var j :| 0 <= j < |counts| && counts[j] == c;
    assert ks[j] == CountKey(c) && ks[j] in ks;
    var n :| 0 <= n < |dropoffs| && ZoneYearOf(dropoffs[n]) == ks[j];
    assert dropoffs[n] in dropoffs;
  }

  /** Every border dropoff has the row of its zone and year in border_counts. */
  lemma DropoffRow(dropoffs: seq<MeasuredTrip>, m: MeasuredTrip)
    requires m in dropoffs
    ensures exists c :: c in BorderCounts(dropoffs) && CountKey(c) == ZoneYearOf(m)
  {
    var ks := GroupKeys(dropoffs, ZoneYearOf);
    var counts := BorderCounts(dropoffs);
    var n :| 0 <= n < |dropoffs| && dropoffs[n] == m;
    assert ZoneYearOf(m) in ks;
    var j :| 0 <= j < |ks| && ks[j] == ZoneYearOf(m);
    assert counts[j] in counts;
  }

  /** border_counts has one row per zone and year, so one row per zone within a year. */
  lemma YearSliceDistinct(dropoffs: seq<MeasuredTrip>, y: int)
    ensures DistinctLocs(CountsOfYear(BorderCounts(dropoffs), y))
  {
    var counts := BorderCounts(dropoffs);
    var slice := CountsOfYear(counts, y);
    var ks := GroupKeys(dropoffs, ZoneYearOf);
    assert forall i, j :: 0 <= i < j < |counts| ==> CountKey(counts[i]) != CountKey(counts[j]) by {
      assert forall i :: 0 <= i < |counts| ==> CountKey(counts[i]) == ks[i];
    }
    WhereMultiset(counts, (c: BorderCount) => c.year == y);
    forall i, j | 0 <= i < j < |slice|
      ensures slice[i].dropoffLoc != slice[j].dropoffLoc
    {
      SubTableKeysDistinct(counts, slice, CountKey, i, j);
      assert slice[i] in slice && slice[j] in slice;
    }
  }

  /** A zone and year with border dropoffs has its row in that year's slice. */
  lemma DroppedOffHasRow(clean: seq<MeasuredTrip>, border: set<int>, loc: int, y: int)
    ensures var dropoffs := BorderDropoffs(clean, border);
      |GroupOf(dropoffs, ZoneYearOf, ZoneYear(loc, y))| > 0 ==>
        TripsAt(CountsOfYear(BorderCounts(dropoffs), y), loc).Some?
  {
    var dropoffs := BorderDropoffs(clean, border);
    var g := GroupOf(dropoffs, ZoneYearOf, ZoneYear(loc, y));
    var slice := CountsOfYear(BorderCounts(dropoffs), y);
    if |g| > 0 {
      assert g[0] in g;
      DropoffRow(dropoffs, g[0]);
      var c :| c in BorderCounts(dropoffs) && CountKey(c) == ZoneYear(loc, y);
      assert c in slice;
      var i :| 0 <= i < |slice| && slice[i] == c;
      TripsAtNone(slice, loc);
    }
  }

  /**
   * For a border zone and a compared year, the join's count (0 when the
   * zone has no row that year) is the number of clean trips dropped off in
   * the zone and picked up in that year.
   */
  lemma YearCount(clean: seq<MeasuredTrip>, border: set<int>, loc: int, y: int)
    requires loc in border && (y == BEFORE_YEAR || y == AFTER_YEAR)
    ensures Coalesce(TripsAt(CountsOfYear(BorderCounts(BorderDropoffs(clean, border)), y), loc)) == DropoffsIn(clean, loc, y)
  {
    var dropoffs := BorderDropoffs(clean, border);
    var counts := BorderCounts(dropoffs);
    var slice := CountsOfYear(counts, y);
    var k := ZoneYear(loc, y);
    GroupOfWhere(clean, (m: MeasuredTrip) => BorderDropoff(m, border), ZoneYearOf, k,
      (m: MeasuredTrip) => m.trip.dropoffLoc == loc && PickupYear(m.trip) == y);
    DroppedOffHasRow(clean, border, loc, y);
    TripsAtNone(slice, loc);
    if TripsAt(slice, loc).Some? {
      var i :| 0 <= i < |slice| && slice[i].dropoffLoc == loc;
      var c := slice[i];
      assert c in slice;
      YearSliceDistinct(dropoffs, y);
      TripsAtRow(slice, c);
      CountRow(dropoffs, c);
    }
  }

  /** The zones of the two year slices are the zones with border dropoffs. */
  lemma SliceLocs(clean: seq<MeasuredTrip>, border: set<int>)
    ensures var dropoffs := BorderDropoffs(clean, border);
      var counts := BorderCounts(dropoffs);
      DistinctValues(CountsOfYear(counts, BEFORE_YEAR), CountLoc) + DistinctValues(CountsOfYear(counts, AFTER_YEAR), CountLoc)
        == DistinctValues(dropoffs, DropoffLocOf)
  {
    var dropoffs := BorderDropoffs(clean, border);
    var counts := BorderCounts(dropoffs);
    var a, b := CountsOfYear(counts, BEFORE_YEAR), CountsOfYear(counts, AFTER_YEAR);
    var sides, locs := DistinctValues(a, CountLoc) + DistinctValues(b, CountLoc), DistinctValues(dropoffs, DropoffLocOf);
    forall z | z in sides
      ensures z in locs
    {
      var c :| (c in a || c in b) && CountLoc(c) == z;
      CountRow(dropoffs, c);
      var m :| m in dropoffs && ZoneYearOf(m) == CountKey(c);
      assert DropoffLocOf(m) == z;
    }
    forall z | z in locs
      ensures z in sides
    {
      var m :| m in dropoffs && DropoffLocOf(m) == z;
      DropoffRow(dropoffs, m);
      var c :| c in counts && CountKey(c) == ZoneYearOf(m);
      assert c in a || c in b;
    }
  }

  /**
   * border_change: one row per border zone with a dropoff picked up in
   * 2024 or 2025, carrying that zone's dropoff counts for both years and
   * the percent change between them.
   */
  lemma BorderEffectRows(clean: seq<MeasuredTrip>, border: set<int>)
    ensures var rows := BorderEffect(clean, border);
      (forall i, j :: 0 <= i < j < |rows| ==> rows[i].dropoffLoc != rows[j].dropoffLoc)
      && DistinctValues(rows, ChangeLoc) == DistinctValues(BorderDropoffs(clean, border), DropoffLocOf)
      && (forall r :: r in rows ==>
            r.dropoffLoc in border
            && r.trips2024 == DropoffsIn(clean, r.dropoffLoc, BEFORE_YEAR)
            && r.trips2025 == DropoffsIn(clean, r.dropoffLoc, AFTER_YEAR)
            && r.percentChange == PercentChange(r.trips2024, r.trips2025))
  {
    var dropoffs := BorderDropoffs(clean, border);
    var counts := BorderCounts(dropoffs);
    var a, b := CountsOfYear(counts, BEFORE_YEAR), CountsOfYear(counts, AFTER_YEAR);
    var rows := BorderEffect(clean, border);
    YearSliceDistinct(dropoffs, BEFORE_YEAR);
    YearSliceDistinct(dropoffs, AFTER_YEAR);
    JoinRows(a, b);
    SliceLocs(clean, border);
    forall r | r in rows
      ensures r.dropoffLoc in border
      ensures r.trips2024 == DropoffsIn(clean, r.dropoffLoc, BEFORE_YEAR)
      ensures r.trips2025 == DropoffsIn(clean, r.dropoffLoc, AFTER_YEAR)
    {
      assert ChangeLoc(r) in DistinctValues(rows, ChangeLoc);
      var m :| m in dropoffs && DropoffLocOf(m) == r.dropoffLoc;
      assert r.dropoffLoc in border;
      YearCount(clean, border, r.dropoffLoc, BEFORE_YEAR);
      YearCount(clean, border, r.dropoffLoc, AFTER_YEAR);
    }
  }

  /** With the border zones built from the lookup, every row is a Manhattan zone outside the congestion zone. */
  lemma BorderRowsOutsideZone(clean: seq<MeasuredTrip>, lookup: seq<ZoneRow>)
    ensures var cz := CongestionZone(lookup);
      forall r :: r in BorderEffect(clean, BorderZones(lookup, cz)) ==>
        r.dropoffLoc in ManhattanIds(lookup) && r.dropoffLoc !in cz
  {
    var cz := CongestionZone(lookup);
    BorderEffectRows(clean, BorderZones(lookup, cz));
    ZonesSplitManhattan(lookup);
  }
}
