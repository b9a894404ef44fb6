/**
 * The December 2025 imputation: when no file of the data folder is a
 * December 2025 file, the December 2023 and December 2024 statistics of
 * both fleets are blended, 30% of 2023 and 70% of 2024.
 */
module December {
  import opened Wrappers
  import opened Sql
  import opened Schema
  import opened Tables
  import opened Text
  import opened Grouping
  import opened Unify
  import opened Links

  /** The tag a December 2025 file name carries. */
  const DECEMBER_2025: string := "2025-12"

  const WEIGHT_2023: real := 0.3
  const WEIGHT_2024: real := 0.7

  /** The four files the imputation reads, in the order it checks them. */
  const REQUIRED_FILES: seq<string> := MonthFiles("2023", "12") + MonthFiles("2024", "12")

  const MISSING_FILE_MESSAGE: string := "Required file missing: "

  /** Some file of the listing is a December 2025 file. */
  predicate HasDecember2025(listing: seq<string>) {
    exists i :: 0 <= i < |listing| && Contains(listing[i], DECEMBER_2025)
  }

  /** december_missing, over the names the data folder lists. */
  method DecemberMissing(listing: seq<string>) returns (missing: bool)
    ensures missing <==> forall i :: 0 <= i < |listing| ==> !Contains(listing[i], DECEMBER_2025)
  {
    var i := 0;
    while i < |listing|
      invariant 0 <= i <= |listing|
      invariant forall k :: 0 <= k < i ==> !Contains(listing[k], DECEMBER_2025)
    {
      if Contains(listing[i], DECEMBER_2025) {
        return false;
      }
      i := i + 1;
    }
    return true;
  }

  /** The row stats23 and stats24 hold. */
  datatype MonthStats = MonthStats(
    trips: nat,
    avgDistance: Option<real>,
    avgFare: Option<real>,
    avgTotal: Option<real>,
    avgSurcharge: Option<real>)

  /** The blended row; the trip count is weighted too, so it is no longer whole. */
  datatype BlendedStats = BlendedStats(
    trips: real,
    avgDistance: Option<real>,
    avgFare: Option<real>,
    avgTotal: Option<real>,
    avgSurcharge: Option<real>)

  datatype Imputation = AlreadyAvailable | Imputed(stats: BlendedStats)

  function DistanceOf(t: Trip): Option<real> {
    t.tripDistance
  }

  function FareOf(t: Trip): Option<real> {
    t.fare
  }

  function TotalOf(t: Trip): Option<real> {
    t.totalAmount
  }

  function SurchargeOf(t: Trip): Option<real> {
    t.congestionSurcharge
  }

  /**
   * COUNT(*) and the four averages over the rows of one month's yellow and
   * green files read together.
   */
  function StatsOf(rows: seq<Trip>): MonthStats {
    MonthStats(
      |rows|,
      SqlAvg(Map(rows, DistanceOf)),
      SqlAvg(Map(rows, FareOf)),
      SqlAvg(Map(rows, TotalOf)),
      SqlAvg(Map(rows, SurchargeOf)))
  }

  /** The rows of one December: the yellow file's, then the green file's. */
  function DecemberRows(yellow: seq<YellowRow>, green: seq<GreenRow>): seq<Trip> {
    UnifiedTrips(yellow, green)
  }

  /**
   * `0.3 * a + 0.7 * b` on one column: a NULL (NaN) on either side makes
   * the result NULL, and otherwise it lies between the two years' values.
   */
  function Weighted(a: Option<real>, b: Option<real>): (v: Option<real>)
    ensures v.Some? <==> a.Some? && b.Some?
    ensures v.Some? ==>
      (a.value <= v.value <= b.value) || (b.value <= v.value <= a.value)
  {
    if a.Some? && b.Some? then Some(WEIGHT_2023 * a.value + WEIGHT_2024 * b.value) else None
  }

  /** `0.3 * stats23 + 0.7 * stats24`, column by column. */
  function Blend(s23: MonthStats, s24: MonthStats): BlendedStats {
    BlendedStats(
      WEIGHT_2023 * (s23.trips as real) + WEIGHT_2024 * (s24.trips as real),
      Weighted(s23.avgDistance, s24.avgDistance),
      Weighted(s23.avgFare, s24.avgFare),
      Weighted(s23.avgTotal, s24.avgTotal),
      Weighted(s23.avgSurcharge, s24.avgSurcharge))
  }

  /**
   * impute_december_if_missing, from the data folder's listing before the
   * downloads, the names present after download_if_missing has run for
   * December 2023 and 2024, and the rows of those four files.
   */
  method ImputeDecemberIfMissing(
    listing: seq<string>, present: set<string>,
    yellow23: seq<YellowRow>, green23: seq<GreenRow>,
    yellow24: seq<YellowRow>, green24: seq<GreenRow>)
    returns (r: Result<Imputation, string>)
    ensures HasDecember2025(listing) ==> r == Success(AlreadyAvailable)
    ensures !HasDecember2025(listing) && (forall f :: f in REQUIRED_FILES ==> f in present) ==>
      r == Success(Imputed(Blend(StatsOf(DecemberRows(yellow23, green23)), StatsOf(DecemberRows(yellow24, green24)))))
    ensures !HasDecember2025(listing) && (exists f :: f in REQUIRED_FILES && f !in present) ==>
      exists k :: 0 <= k < |REQUIRED_FILES| && REQUIRED_FILES[k] !in present
        && (forall j :: 0 <= j < k ==> REQUIRED_FILES[j] in present)
        && r == Failure(MISSING_FILE_MESSAGE + REQUIRED_FILES[k])
  {
    var missing := DecemberMissing(listing);
    if !missing {
      return Success(AlreadyAvailable);
    }
    var k := 0;
    while k < |REQUIRED_FILES|
      invariant 0 <= k <= |REQUIRED_FILES|
      invariant forall j :: 0 <= j < k ==> REQUIRED_FILES[j] in present
    {
      if REQUIRED_FILES[k] !in present {
        return Failure(MISSING_FILE_MESSAGE + REQUIRED_FILES[k]);
      }
      k := k + 1;
    }
    var stats23 := StatsOf(DecemberRows(yellow23, green23));
    var stats24 := StatsOf(DecemberRows(yellow24, green24));
    r := Success(Imputed(Blend(stats23, stats24)));
  }

  /**
   * The files the imputation checks are exactly the files the two
   * download_if_missing calls save, so the check passes once both
   * downloads have written their files.
   */
  lemma DownloadsProvideRequiredFiles(before: set<string>)
    ensures var urls := MonthUrls("2023", "12") + MonthUrls("2024", "12");
      forall f :: f in REQUIRED_FILES ==> f in before + DistinctValues(urls, FileName)
  {
    DecemberDownloadsProvideFiles(before, "2023", "2024", "12");
  }

  lemma DecemberDownloadsProvideFiles(before: set<string>, y1: string, y2: string, month: string)
    requires '/' !in y1 && '/' !in y2 && '/' !in month
    ensures var urls := MonthUrls(y1, month) + MonthUrls(y2, month);
      forall f :: f in MonthFiles(y1, month) + MonthFiles(y2, month) ==> f in before + DistinctValues(urls, FileName)
  {
    var urls1, urls2 := MonthUrls(y1, month), MonthUrls(y2, month);
    MonthUrlsSaveMonthFiles(y1, month);
    MonthUrlsSaveMonthFiles(y2, month);
    assert DistinctValues(urls1, FileName) <= DistinctValues(urls1 + urls2, FileName);
    assert DistinctValues(urls2, FileName) <= DistinctValues(urls1 + urls2, FileName);
  }

  /**
   * COUNT(*) counts every row of both files, and an average is NULL
   * exactly when its column is NULL on every row (in particular, when the
   * month has no rows).
   */
  lemma StatsOfMonth(yellow: seq<YellowRow>, green: seq<GreenRow>)
    ensures var rows := DecemberRows(yellow, green);
      var s := StatsOf(rows);
      s.trips == |yellow| + |green|
      && (s.avgDistance == None <==> forall i :: 0 <= i < |rows| ==> rows[i].tripDistance == None)
      && (s.avgFare == None <==> forall i :: 0 <= i < |rows| ==> rows[i].fare == None)
      && (s.avgTotal == None <==> forall i :: 0 <= i < |rows| ==> rows[i].totalAmount == None)
      && (s.avgSurcharge == None <==> forall i :: 0 <= i < |rows| ==> rows[i].congestionSurcharge == None)
  {
    var rows := DecemberRows(yellow, green);
    TripColumnsNull(rows);
    AmountColumnsNull(rows);
  }

  lemma TripColumnsNull(rows: seq<Trip>)
    ensures SqlAvg(Map(rows, DistanceOf)) == None <==> forall i :: 0 <= i < |rows| ==> rows[i].tripDistance == None
    ensures SqlAvg(Map(rows, FareOf)) == None <==> forall i :: 0 <= i < |rows| ==> rows[i].fare == None
  {
    AvgOfColumnNullIff(rows, DistanceOf);
    AvgOfColumnNullIff(rows, FareOf);
  }

  lemma AmountColumnsNull(rows: seq<Trip>)
    ensures SqlAvg(Map(rows, TotalOf)) == None <==> forall i :: 0 <= i < |rows| ==> rows[i].totalAmount == None
    ensures SqlAvg(Map(rows, SurchargeOf)) == None <==> forall i :: 0 <= i < |rows| ==> rows[i].congestionSurcharge == None
  {
    AvgOfColumnNullIff(rows, TotalOf);
    AvgOfColumnNullIff(rows, SurchargeOf);
  }

  /**
   * Each blended column lies between the two years' values, and is NULL
   * exactly when either year's is.
   */
  lemma BlendBetween(s23: MonthStats, s24: MonthStats)
    ensures var w := Blend(s23, s24);
      ((s23.trips as real) <= w.trips <= (s24.trips as real) || (s24.trips as real) <= w.trips <= (s23.trips as real))
      && BlendedColumn(s23.avgDistance, s24.avgDistance, w.avgDistance)
      && BlendedColumn(s23.avgFare, s24.avgFare, w.avgFare)
      && BlendedColumn(s23.avgTotal, s24.avgTotal, w.avgTotal)
      && BlendedColumn(s23.avgSurcharge, s24.avgSurcharge, w.avgSurcharge)
  {
  }

  /** A blended column v of a and b: NULL exactly when either is, and otherwise between them. */
  predicate BlendedColumn(a: Option<real>, b: Option<real>, v: Option<real>) {
    (v.Some? <==> a.Some? && b.Some?)
    && (v.Some? ==> (a.value <= v.value <= b.value) || (b.value <= v.value <= a.value))
  }

  /** Blending a month with itself gives that month back. */
  lemma BlendSame(s: MonthStats)
    ensures Blend(s, s) == BlendedStats(s.trips as real, s.avgDistance, s.avgFare, s.avgTotal, s.avgSurcharge)
  {
    var w := Blend(s, s);
    if s.avgDistance.Some? {
      assert w.avgDistance.value == s.avgDistance.value;
    }
    if s.avgFare.Some? {
      assert w.avgFare.value == s.avgFare.value;
    }
    if s.avgTotal.Some? {
      assert w.avgTotal.value == s.avgTotal.value;
    }
    if s.avgSurcharge.Some? {
      assert w.avgSurcharge.value == s.avgSurcharge.value;
    }
  }

  /** Average fares of 10 and 20 blend to 17; 100 and 200 trips blend to 170. */
  lemma BlendExamples(d: Option<real>, t: Option<real>, c: Option<real>)
    ensures var w := Blend(MonthStats(100, d, Some(10.0), t, c), MonthStats(200, d, Some(20.0), t, c));
      w.trips == 170.0 && w.avgFare == Some(17.0)
    ensures Blend(MonthStats(0, None, None, None, None), MonthStats(200, d, Some(20.0), t, c)).avgFare == None
  {
  }
}
