/**
 * Which files the pipeline fetches: the 2025 parquet links picked from the
 * trip-record page, the download URL of one fleet's month, the local name a
 * URL is saved under, and which URLs a download loop actually requests.
 * The HTTP requests and the file writes themselves are not modelled.
 */
module Links {
  import opened Wrappers
  import opened Text
  import opened Grouping

  /** The directory of the monthly parquet files on the download server. */
  const TRIP_DATA_BASE: string := "https://d37ci6vzurychx.cloudfront.net/trip-data"

  /**
   * The test applied to each anchor's href (None when the anchor has no
   * href): a non-empty 2025 parquet link of the yellow or green fleet.
   */
  predicate IsTripDataLink(href: Option<string>) {
    href.Some? && href.value != []
    && Contains(href.value, "2025") && Contains(href.value, "parquet")
    && (Contains(href.value, "yellow") || Contains(href.value, "green"))
  }

  /** The hrefs the scrape keeps, in page order, duplicates included. */
  function TripDataLinks(hrefs: seq<Option<string>>): (links: seq<string>)
    ensures |links| <= |hrefs|
    ensures forall l :: l in links ==> IsTripDataLink(Some(l)) && Some(l) in hrefs
    ensures forall i :: 0 <= i < |hrefs| && IsTripDataLink(hrefs[i]) ==> hrefs[i].value in links
  {
    if hrefs == [] then []
    else
      var last := hrefs[|hrefs| - 1];
      TripDataLinks(hrefs[..|hrefs| - 1]) + (if IsTripDataLink(last) then [last.value] else [])
  }

  /** scrape_parquet_links, once the page has been fetched and its anchors' hrefs read. */
  method ScrapeParquetLinks(hrefs: seq<Option<string>>) returns (links: seq<string>)
    ensures links == TripDataLinks(hrefs)
  {
    links := [];
    var i := 0;
    while i < |hrefs|
      invariant 0 <= i <= |hrefs|
      invariant links == TripDataLinks(hrefs[..i])
    {
      var href := hrefs[i];
      if href.Some? && href.value != [] && Contains(href.value, "2025") && Contains(href.value, "parquet") {
        if Contains(href.value, "yellow") || Contains(href.value, "green") {
          links := links + [href.value];
        }
      }
      assert hrefs[..i + 1][..i] == hrefs[..i];
      i := i + 1;
    }
    assert hrefs[..|hrefs|] == hrefs;
  }

  /** The file name of one fleet's month, e.g. yellow_tripdata_2023-12.parquet. */
  function MonthFile(fleet: string, year: string, month: string): string {
    fleet + "_tripdata_" + year + "-" + month + ".parquet"
  }

  /** The URL download_if_missing builds for one fleet's month. */
  function MonthUrl(fleet: string, year: string, month: string): string {
    TRIP_DATA_BASE + "/" + MonthFile(fleet, year, month)
  }

  /** download_if_missing's two URLs: yellow, then green. */
  function MonthUrls(year: string, month: string): seq<string> {
    [MonthUrl("yellow", year, month), MonthUrl("green", year, month)]
  }

  /** A month's URL is saved under the month's file name. */
  lemma MonthUrlFileName(fleet: string, year: string, month: string)
    requires '/' !in fleet && '/' !in year && '/' !in month
    ensures FileName(MonthUrl(fleet, year, month)) == MonthFile(fleet, year, month)
  {
    var name := MonthFile(fleet, year, month);
    assert '/' !in "_tripdata_" && '/' !in "-" && '/' !in ".parquet";
    assert '/' !in name;
    FileNameAfterSlash(TRIP_DATA_BASE, name);
  }

  lemma ContainsInfix(a: string, sub: string, b: string)
    ensures Contains(a + sub + b, sub)
  {
    ContainsIffOccurs(a + sub + b, sub);
    assert OccursAt(a + sub + b, sub, |a|);
  }

  /** The 2025 URL of either fleet's month passes the scrape's test. */
  lemma MonthUrlSelected(fleet: string, month: string)
    requires fleet == "yellow" || fleet == "green"
    ensures IsTripDataLink(Some(MonthUrl(fleet, "2025", month)))
  {
    UrlUnderSelected(TRIP_DATA_BASE + "/", fleet, month);
  }

  lemma UrlUnderSelected(dir: string, fleet: string, month: string)
    requires fleet == "yellow" || fleet == "green"
    ensures IsTripDataLink(Some(dir + MonthFile(fleet, "2025", month)))
  {
    FleetInUrl(dir, fleet, "2025", month);
    YearInUrl(dir, fleet, "2025", month);
    ParquetInUrl(dir, fleet, "2025", month);
  }

  lemma FleetInUrl(dir: string, fleet: string, year: string, month: string)
    ensures Contains(dir + MonthFile(fleet, year, month), fleet)
  {
    assert dir + MonthFile(fleet, year, month) == dir + fleet + ("_tripdata_" + year + "-" + month + ".parquet");
    ContainsInfix(dir, fleet, "_tripdata_" + year + "-" + month + ".parquet");
  }

  lemma YearInUrl(dir: string, fleet: string, year: string, month: string)
    ensures Contains(dir + MonthFile(fleet, year, month), year)
  {
    assert dir + MonthFile(fleet, year, month) == (dir + fleet + "_tripdata_") + year + ("-" + month + ".parquet");
    ContainsInfix(dir + fleet + "_tripdata_", year, "-" + month + ".parquet");
  }

  lemma ParquetInUrl(dir: string, fleet: string, year: string, month: string)
    ensures Contains(dir + MonthFile(fleet, year, month), "parquet")
  {
    var head := dir + fleet + "_tripdata_" + year + "-" + month + ".";
    assert ".parquet" == "." + "parquet";
    assert dir + MonthFile(fleet, year, month) == head + "parquet" + [];
    ContainsInfix(head, "parquet", []);
  }

  /** The yellow and green file names of one month. */
  function MonthFiles(year: string, month: string): seq<string> {
    [MonthFile("yellow", year, month), MonthFile("green", year, month)]
  }

  /** download_if_missing saves both of the month's files, whatever the folder held. */
  lemma MonthUrlsSaveMonthFiles(year: string, month: string)
    requires '/' !in year && '/' !in month
    ensures forall f :: f in MonthFiles(year, month) ==> f in DistinctValues(MonthUrls(year, month), FileName)
  {
    assert '/' !in "yellow" && '/' !in "green";
    MonthUrlFileName("yellow", year, month);
    MonthUrlFileName("green", year, month);
    var urls := MonthUrls(year, month);
    assert urls[0] in urls && urls[1] in urls;
  }

  /**
   * The URLs a download loop requests, in order, when the data folder
   * already holds the files named in `present`: a URL is requested when no
   * file of its name exists, and the file it writes then exists for the
   * URLs after it.
   */
  function Fetches(links: seq<string>, present: set<string>): seq<string>
    decreases |links|
  {
    if links == [] then []
    else
      var name := FileName(links[0]);
      if name in present then Fetches(links[1..], present)
      else [links[0]] + Fetches(links[1..], present + {name})
  }

  /**
   * download_files (and the loop of download_if_missing): returns the URLs
   * requested and the file names present afterwards. The data folder is
   * created at start-up, so the empty name, whose path is the folder
   * itself, always exists: a link ending in `/` is never requested.
   */
  method DownloadFiles(links: seq<string>, present: set<string>) returns (fetched: seq<string>, saved: set<string>)
    requires "" in present
    ensures fetched == Fetches(links, present)
    ensures saved == present + DistinctValues(links, FileName)
  {
    fetched, saved := [], present;
    var i := 0;
    while i < |links|
      invariant 0 <= i <= |links|
      invariant fetched + Fetches(links[i..], saved) == Fetches(links, present)
      invariant saved == present + DistinctValues(links[..i], FileName)
    {
      var url := links[i];
      var filename := FileName(url);
      DownloadStep(links, present, i, fetched, saved);
      if filename !in saved {
        fetched := fetched + [url];
        saved := saved + {filename};
      }
      i := i + 1;
    }
    assert links[..|links|] == links;
  }

  /** One turn of the download loop keeps both loop invariants. */
  lemma DownloadStep(links: seq<string>, present: set<string>, i: nat, fetched: seq<string>, saved: set<string>)
    requires i < |links|
    requires fetched + Fetches(links[i..], saved) == Fetches(links, present)
    requires saved == present + DistinctValues(links[..i], FileName)
    ensures var name := FileName(links[i]);
      var fetched' := if name in saved then fetched else fetched + [links[i]];
      var saved' := if name in saved then saved else saved + {name};
      fetched' + Fetches(links[i + 1..], saved') == Fetches(links, present)
      && saved' == present + DistinctValues(links[..i + 1], FileName)
  {
    var name := FileName(links[i]);
    FetchesStep(links, i, saved);
    DownloadedStep(links, i, present);
    if name in saved {
      assert saved + {name} == saved;
    } else {
      assert (fetched + [links[i]]) + Fetches(links[i + 1..], saved + {name})
          == fetched + ([links[i]] + Fetches(links[i + 1..], saved + {name}));
    }
  }

  lemma FetchesStep(links: seq<string>, i: nat, saved: set<string>)
    requires i < |links|
    ensures Fetches(links[i..], saved) ==
      if FileName(links[i]) in saved then Fetches(links[i + 1..], saved)
      else [links[i]] + Fetches(links[i + 1..], saved + {FileName(links[i])})
  {
    assert links[i..][0] == links[i] && links[i..][1..] == links[i + 1..];
  }

  lemma DownloadedStep(links: seq<string>, i: nat, present: set<string>)
    requires i < |links|
    ensures present + DistinctValues(links[..i + 1], FileName)
         == present + DistinctValues(links[..i], FileName) + {FileName(links[i])}
  {
    assert links[..i + 1] == links[..i] + [links[i]];
    DistinctValuesSnoc(links[..i], links[i], FileName);
  }

  /**
   * Exactly the names missing from the folder are requested, each once:
   * no file that exists is fetched again, and two requested URLs never
   * share a file name.
   */
  lemma {:induction false} FetchesMissingOnce(links: seq<string>, present: set<string>)
    ensures var fetched := Fetches(links, present);
      DistinctValues(fetched, FileName) == DistinctValues(links, FileName) - present
      && (forall u :: u in fetched ==> u in links)
      && (forall i, j :: 0 <= i < j < |fetched| ==> FileName(fetched[i]) != FileName(fetched[j]))
    decreases |links|
  {
    if links != [] {
      var name := FileName(links[0]);
      DistinctValuesCons(links, FileName);
      if name in present {
        FetchesMissingOnce(links[1..], present);
        forall u | u in Fetches(links[1..], present) ensures u in links {
          assert u in links[1..];
        }
      } else {
        var rest := Fetches(links[1..], present + {name});
        FetchesMissingOnce(links[1..], present + {name});
        var fetched := [links[0]] + rest;
        DistinctValuesCons(fetched, FileName);
        assert fetched[1..] == rest;
        forall u | u in fetched ensures u in links {
          if u != links[0] {
            assert u in links[1..];
          }
        }
        forall i, j | 0 <= i < j < |fetched|
          ensures FileName(fetched[i]) != FileName(fetched[j])
        {
          if i == 0 {
            assert fetched[j] == rest[j - 1];
            assert FileName(rest[j - 1]) in DistinctValues(rest, FileName);
          } else {
            assert fetched[i] == rest[i - 1] && fetched[j] == rest[j - 1];
          }
        }
      }
    }
  }
}
