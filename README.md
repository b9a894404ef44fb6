# NYC congestion-pricing pipeline, modelled in Dafny

This project models the batch pipeline in `pipeline.py`, which studies the
effect of the Manhattan congestion-relief zone on New York City taxi trips.

## What the pipeline does

- It picks the 2025 yellow and green trip-record links from the TLC page and
  downloads each file that is not already in the data folder.
- When no December 2025 file exists, it blends the December 2023 and
  December 2024 statistics (30% / 70%).
- It unifies the two fleets' records into one trip table.
- It separates "ghost" trips (implausible speed, duration or fare) from
  clean trips.
- It derives the congestion zone and its Manhattan border zones from the
  zone lookup.
- It computes these analyses over the clean trips, or over the unified
  trips where the code does so:
  - the surcharge-leakage audit;
  - the monthly KPIs;
  - the dashboard tables;
  - the Q1 yellow/green comparison;
  - the border-zone percent change;
  - the speed heatmap;
  - the tip-ratio summary;
  - the rain-day comparison.

## How it is modelled

- **Tables** are sequences of rows. `WHERE` is `Tables.Where` and a
  projection is `Tables.Map`.
- **GROUP BY** is `Grouping.GroupKeys`, which lists the keys in order of
  first appearance, together with `Grouping.GroupOf`.
- **ORDER BY … DESC** is `Grouping.SortBy`, an insertion sort, and
  `LIMIT k` is `Grouping.TopBy`, the first k rows of the sorted table.
- **SQL NULL** is `Option`.
- **Three-valued logic**: WHERE predicates use `Sql.Truth`, and a row is
  kept only when its condition is `True`.
- **SUM and AVG** skip NULLs and are NULL over no defined value
  (`Sql.SqlSum`, `Sql.SqlAvg`).
- **Zone-ID sets** are `set<int>`. Money, distances and speeds are `real`.
- **Imperative parts.** The link scrape, the download loop and the
  December-file scan are methods with loops. Each is proved equal to a
  specification function, or proved to satisfy its stated property
  directly.

Each analysis lives in its own module:

| module | pipeline stage |
|---|---|
| `Links` | scraping and downloads |
| `December` | December imputation |
| `Unify` | unified schema |
| `GhostFilter` | ghost-trip filter |
| `Zones` | zone reference |
| `Leakage` | leakage audit |
| `Kpis` | monthly KPIs |
| `Dashboard` | dashboard datasets |
| `Decline` | Q1 comparison |
| `Border` | border effect |
| `Heatmap` | velocity heatmap |
| `CrowdingOut` | crowding-out analysis |
| `RainTax` | rain-tax analysis |

## Behaviour of the code that the model follows

- **Q1 comparison.** It reads the unified table, not the clean one. Ghost
  trips are therefore counted too, and there is no 2023 floor
  (`Decline.Q1RowCounts`).
- **Border effect.** It groups dropoffs by the year of the *pickup*
  (`Border.DropoffsIn`).
- **compliance_stats.** `compliant_trips` is a `SUM` over `entering_zone`,
  so it is NULL, not 0, when no trip entered the zone
  (`Leakage.ComplianceBalance`).
- **Top three leakage pickups.** The ranking has no tie-break. Only
  tie-independent facts are proved (`Leakage.TopLeakageRanks`,
  `Leakage.TopLeakageOmittedLighter`).
- **Speed: ghost filter versus heatmap.**
  - The ghost filter gives speed 0 to a trip with no positive duration.
  - The heatmap gives such a trip no speed (NULL), and its average skips
    it (`Heatmap.SpeedMph`, `Heatmap.UntimedTripIgnored`).
- **Rows that reach neither ghost output.** When the ghost condition is
  NULL, the row reaches neither `audit_log` nor `clean_trips`
  (`GhostFilter.UnknownConditionInNeither`). For example, a NULL dropoff
  time with a fare over 20 makes the condition NULL unless the distance is
  0; a zero distance still sends the row to `audit_log`
  (`GhostFilter.NullDropoffInNeither`).
- **Tipping averages.** The `tip_ratio IS NOT NULL` filter also restricts
  the surcharge average (`CrowdingOut.UnratedTripIgnored`).

## Model

| member | source | states |
|---|---|---|
| Links.TripDataLinks | pipeline.py:34-42 | every kept link is a non-empty 2025 parquet href of the yellow or green fleet taken from the page; every such href on the page is kept; no more links than anchors |
| Links.ScrapeParquetLinks | pipeline.py:27-42 | the loop's list is exactly the page-order selection `TripDataLinks` |
| Links.MonthUrlFileName | pipeline.py:84-90 | a month's download URL is saved under `<fleet>_tripdata_<year>-<month>.parquet`, its last `/` segment |
| Links.MonthUrlSelected | pipeline.py:38-40 | the 2025 download URL of either fleet passes the scrape's link test |
| Links.DownloadFiles | pipeline.py:22-62 | with the data folder present (so a link ending in `/` is never fetched), the URLs the loop requests are `Fetches(links, present)`, and afterwards the folder holds the old files plus every link's file name |
| Links.FetchesMissingOnce | pipeline.py:50-62 | the names requested are exactly the links' names that were missing; no requested URL is outside the list; no file name is requested twice |
| Text.FileNameIsLastSegment | pipeline.py:51 | `url.split("/")[-1]` is a slash-free suffix of the URL, either the whole URL or preceded by a slash |
| Text.FileNameAfterSlash | pipeline.py:89 | the last segment of `dir + "/" + name` is `name` when `name` has no slash |
| Text.ContainsIffOccurs | pipeline.py:309-311 | `LIKE '%s%'` (and Python's `in`) holds exactly when `s` occurs at some index |
| December.DecemberMissing | pipeline.py:71-75 | the scan reports missing exactly when no listed file name contains "2025-12" |
| December.ImputeDecemberIfMissing | pipeline.py:101-153 | skipped when a December 2025 file is listed; otherwise fails naming the first of the four required files that is absent; otherwise returns the 0.3/0.7 blend of the two Decembers' statistics |
| December.DownloadsProvideRequiredFiles | pipeline.py:84-131 | the four files the imputation checks are exactly the files the two download_if_missing calls save |
| December.StatsOfMonth | pipeline.py:133-149 | COUNT(*) counts every yellow and green row of the month; each average is NULL exactly when its column is NULL on every row |
| December.Weighted | pipeline.py:151 | a blended column is NULL when either year's is, and otherwise lies between the two years' values |
| December.BlendBetween | pipeline.py:151 | the blended trip count and each of the four blended averages lie between the 2023 and 2024 values, and each average is NULL exactly when either year's is |
| December.BlendSame | pipeline.py:151 | blending a month's statistics with themselves returns them unchanged |
| December.BlendExamples | pipeline.py:151 | average fares 10 and 20 blend to 17.0, trip counts 100 and 200 to 170.0, and a NULL average stays NULL |
| Unify.ToYellow | pipeline.py:169-181 | the yellow renaming loses nothing: the original row is recovered from the unified one |
| Unify.ToGreen | pipeline.py:185-197 | the green renaming loses nothing: the original row is recovered from the unified one |
| Unify.UnifiedRoundTrip | pipeline.py:200-205 | the UNION ALL has one row per source row, and each fleet's rows come back out in order |
| Unify.UnifiedTagCounts | pipeline.py:200-205 | the number of rows tagged Yellow (Green) is the number of yellow (green) source rows |
| GhostFilter.AvgSpeedMph | pipeline.py:232-237 | speed is 0 when elapsed seconds are NULL or not positive; it is NULL only for a positive duration with a NULL distance |
| GhostFilter.SpeedAboveLimit | pipeline.py:250 | for positive elapsed seconds e, `d / (e / 3600) > 65` exactly when `d * 3600 > 65 * e` |
| GhostFilter.GhostConditionDecided | pipeline.py:249-252 | on a trip with no NULL in the columns read, the ghost condition is never NULL and equals the three rules |
| GhostFilter.MeasuredIn | pipeline.py:226-239 | every unified trip picked up in 2023 or later reaches trips_with_metrics |
| GhostFilter.CompleteTripClassified | pipeline.py:245-268 | a complete in-scope trip is in audit_log exactly when a ghost rule holds, and in clean_trips exactly when none does |
| GhostFilter.CleanTripFacts | pipeline.py:260-268 | a clean trip comes from the unified table, is in scope, fails every ghost rule and has a speed of at most 65 mph |
| GhostFilter.GhostPartition | pipeline.py:245-268 | when the in-scope trips are complete, audit_log and clean_trips together are exactly trips_with_metrics |
| GhostFilter.AuditCleanDisjoint | pipeline.py:245-268 | no trip is in both audit_log and clean_trips |
| GhostFilter.UnknownConditionInNeither | pipeline.py:245-268 | a measured trip whose ghost condition is NULL is in neither audit_log nor clean_trips |
| GhostFilter.NullDropoffInNeither | pipeline.py:245-268 | an in-scope trip with a NULL dropoff and a fare over 20 is measured; it is in audit_log (and not clean) when its distance is 0, and in neither output otherwise |
| Zones.CongestionZone | pipeline.py:304-311 | the congestion zone holds only Manhattan IDs |
| Zones.CongestionZoneMembers | pipeline.py:304-311 | an ID is in the zone exactly when some Manhattan row with that ID has a name containing none of the three excluded districts |
| Zones.BorderZones | pipeline.py:618-625 | border zones and the congestion zone share no ID |
| Zones.ZonesSplitManhattan | pipeline.py:618-625 | the congestion zone and the border zones are disjoint and together make up the Manhattan IDs |
| Grouping.GroupSizesSum | pipeline.py:850-856 | the groups of a `GROUP BY` together hold every row of the table once: their sizes add up to its length |
| Grouping.SortByPermutes | pipeline.py:484-485 | `ORDER BY … DESC` returns the same rows, as a multiset, heaviest first |
| Grouping.TopByMultiset | pipeline.py:394-395 | `LIMIT k` after the sort returns rows of the table, none more often than it occurs, and every row when k covers the table |
| Grouping.TopByOrdered | pipeline.py:394-395 | the rows `LIMIT k` returns come heaviest first |
| Grouping.TopByOmittedLighter | pipeline.py:394-395 | a row left out by `LIMIT k` weighs no more than any row returned |
| Leakage.LeakageWithinEntering | pipeline.py:348-384 | leakage ⊆ entering ⊆ clean; every entering trip crosses into the zone in 2024 or later; every leaked trip has a NULL or non-positive surcharge |
| Leakage.ComplianceBalance | pipeline.py:364-384 | compliant_trips is NULL exactly when nothing entered; otherwise compliant trips plus leaked trips equal total_entering |
| Leakage.LeakageGroupsCount | pipeline.py:387-393 | each pickup row counts exactly the leaked trips from that zone, at least one |
| Leakage.LeakageGroupsKeys | pipeline.py:387-393 | no pickup zone appears twice in the grouped table |
| Leakage.TopLeakageRanks | pipeline.py:387-396 | at most three rows, by non-increasing count, with distinct zones, each count being that zone's leaked trips |
| Leakage.TopLeakageOmittedLighter | pipeline.py:387-396 | a zone left out of the top three leaks no more than any zone in it |
| Kpis.KpiTripsAddUp | pipeline.py:436-449 | the monthly total_trips add up to the number of clean trips |
| Kpis.KpiMonths | pipeline.py:436-449 | rows are in calendar order, one per month, for exactly the months of the trips |
| Kpis.KpiRowIsGroup | pipeline.py:436-448 | each row aggregates the trips of its own month, of which there is at least one |
| Kpis.KpiRowOfMonth | pipeline.py:436-448 | besides that, avg_distance is NULL exactly when every distance of the month is, and avg_duration exactly when every dropoff time is |
| Dashboard.ZoneCountsAddUp | pipeline.py:477-486 | the zone trip counts add up to the number of clean trips |
| Dashboard.ZoneCountsRanked | pipeline.py:477-486 | rows by non-increasing trip count, one per pickup zone, for exactly the zones of the trips |
| Dashboard.ZoneCountOfZone | pipeline.py:477-484 | each row counts its zone's trips (at least one) and sums their total_amount |
| Dashboard.MonthlyLeakageAddsUp | pipeline.py:495-503 | the monthly leakage_trips add up to the number of leaked trips |
| Dashboard.MonthlyLeakageRows | pipeline.py:495-503 | rows in calendar order, one per month of the leaked trips, each counting that month's leaked trips and summing their total_amount |
| Decline.Q1CountsAddUp | pipeline.py:558-577 | the Q1 counts add up to the number of zone-entering unified trips of Q1 2024 and Q1 2025 |
| Decline.Q1RowCounts | pipeline.py:544-577 | each row's year is 2024 or 2025, and its count is the number of unified trips of its fleet entering the zone in Q1 of its year, at least one |
| Decline.Q1RowsDistinct | pipeline.py:569-577 | one row per fleet and year, so at most four rows |
| Border.PercentChangeFacts | pipeline.py:662-666 | percent_change is defined exactly when 2024 had dropoffs; then it is at least -100, positive exactly on growth and zero exactly on no change |
| Border.PercentChangeExamples | pipeline.py:662-666 | 0 to 5 gives NULL, 10 to 15 gives 50.0, 10 to 5 gives -50.0 |
| Border.TripsAtNone | pipeline.py:667-671 | a side has no match for a zone exactly when none of its rows is that zone |
| Border.TripsAtRow | pipeline.py:667-671 | on a side with one row per zone, a row's zone matches that row's count |
| Border.JoinLeftRow | pipeline.py:656-671 | a 2024-side row of the join carries its zone's counts from both sides (missing counts as 0) and their percent change |
| Border.JoinRightRow | pipeline.py:656-671 | a 2025-only row of the join comes from a 2025 row with no 2024 match and carries 0 for 2024 |
| Border.UnmatchedDistinct | pipeline.py:667-671 | the unmatched 2025 rows name distinct zones |
| Border.JoinRows | pipeline.py:656-671 | the full outer join has one row per zone of either side, each with both sides' counts (missing as 0) and their percent change |
| Border.JoinLocs | pipeline.py:667-671 | the join's zones are the union of both sides' zones |
| Border.JoinLocFromSide | pipeline.py:667-671 | every zone of the join comes from one of the two sides |
| Border.JoinLocToRow | pipeline.py:667-671 | every zone of either side has a row in the join |
| Border.UnmatchedHas | pipeline.py:667-671 | a 2025 zone absent from 2024 is among the unmatched rows |
| Border.CountRow | pipeline.py:645-652 | each border_counts row counts its zone and year's dropoffs, and some dropoff has that zone and year |
| Border.DropoffRow | pipeline.py:645-652 | every border dropoff's zone and year has a border_counts row |
| Border.YearSliceDistinct | pipeline.py:668-670 | each year's slice of border_counts has one row per zone |
| Border.DroppedOffHasRow | pipeline.py:645-670 | a zone with dropoffs in a year has a row in that year's slice |
| Border.YearCount | pipeline.py:631-670 | a border zone's coalesced count for 2024 or 2025 is the number of clean trips dropped off there and picked up in that year |
| Border.SliceLocs | pipeline.py:631-670 | the zones of the two slices together are the zones of the border dropoffs |
| Border.BorderEffectRows | pipeline.py:631-671 | border_change has one row per border zone with a 2024 or 2025 dropoff; each row's counts are that zone's dropoffs by pickup year, with their percent change |
| Border.BorderRowsOutsideZone | pipeline.py:618-640 | every border_change zone is a Manhattan zone outside the congestion zone |
| Heatmap.SpeedMph | pipeline.py:722-727 | speed is defined exactly for a positive duration with a distance, and then equals the ghost filter's speed |
| Heatmap.TimedSpeedSource | pipeline.py:708-739 | each speed averaged comes from a clean trip picked up in the zone with a defined speed |
| Heatmap.CellGroup | pipeline.py:732-740 | each cell averages the non-empty group of speeds of its weekday and hour |
| Heatmap.HeatmapWithinLimit | pipeline.py:732-740 | over clean trips, every cell has an average speed and it is at most 65 mph |
| Heatmap.UntimedTripIgnored | pipeline.py:722-739 | adding a trip with no positive duration leaves the heatmap unchanged |
| Heatmap.HeatmapSlots | pipeline.py:732-740 | one cell per slot, for exactly the slots in which some zone trip has a speed |
| CrowdingOut.TipRatio | pipeline.py:773-777 | the ratio is defined exactly for a positive fare with a tip, and then ratio × fare = tip |
| CrowdingOut.UnratedTripIgnored | pipeline.py:782-790 | adding a trip without a ratio changes neither average, including the surcharge average |
| CrowdingOut.TippingMonths | pipeline.py:782-791 | rows in calendar order, one per month with a rated trip, each holding the average surcharge and average ratio of that month's rated trips, the ratio average defined |
| CrowdingOut.TipMonthIsGroup | pipeline.py:782-790 | each summary row aggregates its own month's rated trips, of which there is at least one |
| CrowdingOut.RatedMonths | pipeline.py:768-790 | the summary's months are exactly the pickup months of clean trips that have a ratio |
| RainTax.DailyTripsAddUp | pipeline.py:850-856 | the daily counts add up to the number of clean trips |
| RainTax.DailyTripsRows | pipeline.py:850-856 | one row per pickup date, for exactly the dates of the trips, each counting that date's trips (at least one) |
| RainTax.Rainy | pipeline.py:872-875 | the flag is 0 or 1, and 1 exactly when the date has a positive precipitation |
| RainTax.RainAnalysis | pipeline.py:867-878 | the LEFT JOIN keeps every day, with its date and count, and adds its 0/1 flag from that date's precipitation (missing or NULL counting as dry) |
| RainTax.DryDayExamples | pipeline.py:872-878 | a date missing from the weather, or with NULL or zero precipitation, is dry; 2.5 is rainy |
| RainTax.RainSummaryRows | pipeline.py:882-888 | at most two rows with distinct flags 0 and 1, one for each flag some day carries, each averaging its flag's daily trip counts, an average of at least one trip per day |
| RainTax.RainSummaryGroups | pipeline.py:882-888 | rain_summary has a row for exactly the flags of the days, each being AVG(trip_count) over its flag's days |
| RainTax.RainGroupAverage | pipeline.py:882-888 | a flag's group of days has an average, and it is at least one trip per day |

## Left out

- **HTTP and I/O.** The HTTP requests, HTML parsing, file writes and the
  printed messages (pipeline.py:27-62, 78-98, 284-292) are not modelled.
  - The page's anchors are given to `Links.ScrapeParquetLinks` as a
    sequence of optional hrefs.
  - The data folder is given as its listing, or as a set of file names.
  - The download of the zone lookup and of the weather is not modelled.
- **Storage.** The DuckDB engine, `read_parquet`, `read_csv_auto`, `COPY … TO`
  and `to_parquet` are not modelled. Tables are in-memory sequences, and
  each stage is a function of the tables it reads.
- **Overwriting tables by name.** `CREATE OR REPLACE TABLE` is not modelled
  as a mutable catalogue, because no stage reads a table another stage
  writes except through its output file.
- **Weather.** The Open-Meteo fetch and its JSON and pandas conversion
  (pipeline.py:809-838) are not modelled. The weather is given as
  `map<Date, Option<real>>`, one entry per date.
- **Floating point.** IEEE double rounding is not modelled. Arithmetic is
  on `real`, and the blended trip count is an exact `0.3·a + 0.7·b`.
- **Calendar fields.** Calendar derivation (`DATE_TRUNC`, `EXTRACT`, `DATE`,
  time zones) is not modelled. A timestamp carries its date, hour and
  weekday as given fields, next to its epoch seconds.
- **Non-NULL columns.**
  - Pickup time and location IDs are modelled as never NULL.
  - The zone lookup's Borough and Zone columns are modelled as never NULL.
    A Manhattan row with a NULL Zone, which the pipeline leaves out of the
    congestion zone and so counts as a border zone, is not expressible.
  - A zone lookup with two rows for one ID is treated as a set of IDs.
- **Row order.** Only what the properties state is modelled.
  - `GROUP BY` tables list keys in first-appearance order, and no
    property depends on it.
  - SQL leaves the order of tied rows under `ORDER BY` open. The model
    keeps them in input order, and no property depends on it.
  - The row order of the full outer join is not specified.
- **Projections.** Columns of intermediate tables that later stages do not
  read (`q1_data`, `border_dropoffs`) are left to the grouping key.
- **File names.** The data folder's names are compared exactly. On a
  file system that ignores case, two links whose names differ only in case
  are fetched once by the pipeline and twice by `Links.DownloadFiles`.
- **Pipeline driver.** `run_ingestion`'s fixed call order
  (pipeline.py:902-929) and the dashboard application are not modelled.
- **December.ImputeDecemberIfMissing.** This member is limited in three ways:
  - its error message names the missing file, not its full path under the
    data folder;
  - the names present after the two download_if_missing calls are an
    input, because the downloads are I/O; `December.DownloadsProvideRequiredFiles`
    shows they are the names those calls save;
  - the mixed read of a yellow and a green file by `read_parquet` is
    modelled on the four columns both fleets share.
- **Border.TripsAt.** It has no contract of its own. Its facts are the
  lemmas `Border.TripsAtNone` and `Border.TripsAtRow`.
