/**
  The sample inputs of the repository's tests, with what the model gives
  for them.
 */
module Examples {
  import opened Wrappers
  import opened Json
  import opened Parse
  import opened Bulk
  import opened Client
  import opened Strings

  /** The `Data` list of the sample's revenue series. */
  const RevenueData: seq<DataPoint> := [DataPoint(Some(2024), Int(100000)), DataPoint(Some(2025), Int(110000))]

  /** The later year wins. */
  lemma LatestRevenue()
    ensures LatestValue(RevenueData, None) == (Some(2025), Int(110000))
  {
    LatestValueMaximal(RevenueData, None, 1);
  }

  /** A preferred year that occurs wins over the later one. */
  lemma PreferredRevenue()
    ensures LatestValue(RevenueData, Some(2024)) == (Some(2024), Int(100000))
  {
    LatestValuePreferred(RevenueData, 2024, 0);
  }

  const SampleStats: seq<Stat> := [
    Stat(Some("Revenue"), RevenueData),
    Stat(Some("Employment"), [DataPoint(Some(2025), Int(3))]),
    Stat(Some("Wages"), [DataPoint(Some(2025), Int(50000))])]

  const SampleOverview: OverviewEntry :=
    OverviewEntry(Some("1-4"), Num(100000.0), Int(400000), Num(0.1), Num(0.11), Str("stable"))

  /** An overview section and a key-statistics section for segment `1-4`. */
  const SampleResponse: Response := Response([
    Section(Some("currentyearoverview"), Some(Dict([SampleOverview], [], []))),
    Section(Some("keystatistics"), Some(Dict([], [SegmentStats(Some("1-4"), SampleStats)], [])))])

  const OverviewBody: Body := Dict([SampleOverview], [], [])
  const StatsBody: Body := Dict([], [SegmentStats(Some("1-4"), SampleStats)], [])

  lemma SampleSections()
    ensures SectionMap(SampleResponse.sections)
      == map["currentyearoverview" := OverviewBody, "keystatistics" := StatsBody]
  {
    var ss := SampleResponse.sections;
    LowerKeeps("currentyearoverview");
    LowerKeeps("keystatistics");
    assert SectionKey(ss[0]) == "currentyearoverview";
    assert SectionKey(ss[1]) == "keystatistics";
    assert ss[..1][..0] == [];
    assert SectionMap(ss[..1]) == map["currentyearoverview" := OverviewBody];
  }

  lemma SampleLookups()
    ensures OverviewOf(SampleResponse) == OverviewIndex(["1-4"], map["1-4" := SampleOverview])
    ensures KeyStatisticsOf(SampleResponse) == [SegmentStats(Some("1-4"), SampleStats)]
    ensures KeyRatiosOf(SampleResponse) == []
  {
    SampleSections();
    assert |"keyratios"| == 9;
    assert OverviewEntries(Lookup(SectionMap(SampleResponse.sections), "currentyearoverview")) == [SampleOverview];
    assert [SampleOverview][..0] == [];
    assert IndexOverview([SampleOverview][..0]) == OverviewIndex([], map[]);
    assert [] + ["1-4"] == ["1-4"];
  }

  lemma RevenueField()
    ensures FieldFor(StatName(SampleStats[0])) == "Revenue"
  {
    assert StatName(SampleStats[0]) == "revenue";
    assert StartsWith("revenue", "revenue");
  }

  lemma EmploymentField()
    ensures FieldFor(StatName(SampleStats[1])) == "Employment"
  {
    assert StatName(SampleStats[1]) == "employment";
    EmploymentNotRevenue();
    assert StartsWith("employment", "employment");
  }

  lemma EmploymentNotRevenue()
    ensures !Contains("employment", "revenue")
  {
    NotContains("employment", "revenue");
  }

  lemma WagesField()
    ensures FieldFor(StatName(SampleStats[2])) == "Wages"
  {
    assert StatName(SampleStats[2]) == "wages";
    NotContains("wages", "revenue");
    NotContains("wages", "employment");
    assert StartsWith("wages", "wages");
  }

  lemma SampleYear()
    ensures LatestYear(SampleStats) == Some(2025)
  {
    LatestRevenue();
    assert SeriesYear(SampleStats[0]) == Some(2025);
    assert SeriesYear(SampleStats[1]) == Some(2025);
    assert SeriesYear(SampleStats[2]) == Some(2025);
    assert SampleStats[..1][..0] == [];
    assert LatestYear(SampleStats[..1]) == Some(2025);
    assert SampleStats[..2][..1] == SampleStats[..1];
    assert LatestYear(SampleStats[..2]) == Some(2025);
  }

  const SampleRow: Row := map["Code" := Str("32191"), "SegmentSize" := Str("1-4"), "Revenue" := Int(110000),
                              "Employment" := Int(3), "Wages" := Int(50000)]

  lemma SampleSeries()
    ensures SeriesRow(BaseRow("32191", "1-4"), SampleStats) == SampleRow
  {
    LatestRevenue();
    RevenueField();
    EmploymentField();
    WagesField();
    var base := BaseRow("32191", "1-4");
    assert SampleStats[..1][..0] == [];
    assert SeriesRow(base, SampleStats[..1]) == base["Revenue" := Int(110000)];
    assert SampleStats[..2][..1] == SampleStats[..1];
    assert SeriesRow(base, SampleStats[..2]) == base["Revenue" := Int(110000)]["Employment" := Int(3)];
  }

  /** The sample's single row, before the computed ratio. */
  lemma SampleOverviewRow()
    ensures OverviewRow("32191", "1-4", SampleStats, OverviewOf(SampleResponse))
      == WithOverview(SampleRow["Year" := Int(2025)], SampleOverview)
  {
    SampleLookups();
    SampleSeries();
    SampleYear();
  }

  lemma SampleNormalized(parseStr: string -> Option<real>)
    ensures Normalize("32191", SampleResponse, parseStr)
      == [WithComputedRatio(WithOverview(SampleRow["Year" := Int(2025)], SampleOverview), parseStr)]
  {
    SampleLookups();
    NormalizeShape("32191", SampleResponse, parseStr);
    var es := KeyStatisticsOf(SampleResponse);
    assert es[..0] == [];
    assert Labelled(es) == [SegmentStats(Some("1-4"), SampleStats)];
    SampleOverviewRow();
    var row := WithOverview(SampleRow["Year" := Int(2025)], SampleOverview);
    assert RatiosRow(row, [], "1-4") == row;
  }

  /**
    One row with the code, the label, the latest values, the latest year, the
    overview figures and the computed revenue per employee.
   */
  lemma SampleParsed(parseStr: string -> Option<real>)
    ensures Normalize("32191", SampleResponse, parseStr) == [map[
      "Code" := Str("32191"), "SegmentSize" := Str("1-4"),
      "Revenue" := Int(110000), "Employment" := Int(3), "Wages" := Int(50000), "Year" := Int(2025),
      "AverageRevenue" := Num(100000.0), "TotalRevenue" := Int(400000), "MarketShare" := Num(0.1),
      "MarketShareForecast" := Num(0.11), "MarketSharePrediction" := Str("stable"),
      "RevenuePerEmployee" := Num(110000.0 / 3.0)]]
  {
    SampleNormalized(parseStr);
    SampleRatio(parseStr);
  }

  /** `Revenue` and `Employment` are set and no ratio series exists, so the ratio is computed. */
  lemma SampleRatio(parseStr: string -> Option<real>)
    ensures var row := WithOverview(SampleRow["Year" := Int(2025)], SampleOverview);
      WithComputedRatio(row, parseStr) == row["RevenuePerEmployee" := Num(110000.0 / 3.0)]
  {
    var row := WithOverview(SampleRow["Year" := Int(2025)], SampleOverview);
    assert "RevenuePerEmployee" !in row by {
      assert row.Keys == {"Code", "SegmentSize", "Revenue", "Employment", "Wages", "Year", "AverageRevenue",
                          "TotalRevenue", "MarketShare", "MarketShareForecast", "MarketSharePrediction"};
      assert |"RevenuePerEmployee"| == 18;
    }
    assert Get(row, "Revenue") == Int(110000) && Get(row, "Employment") == Int(3);
  }

  const BulkEntry: OverviewEntry := OverviewEntry(Some("All"), Int(200000), Null, Null, Null, Null)

  /** The bulk test's response: a single overview entry and no key statistics. */
  const BulkResponse: Response := Response([
    Section(Some("currentyearoverview"), Some(Dict([BulkEntry], [], []))),
    Section(Some("keystatistics"), Some(Dict([], [], [])))])

  /** The bulk test's client: the same response for every call. */
  function BulkFetch(request: FetchRequest): Fetched {
    Fetched(BulkResponse)
  }

  const BulkCodes: seq<string> := ["32191", "42344"]
  const BulkSections: seq<string> := ["keystatistics", "currentyearoverview"]

  lemma BulkLookups()
    ensures OverviewOf(BulkResponse) == OverviewIndex(["All"], map["All" := BulkEntry])
    ensures KeyStatisticsOf(BulkResponse) == []
  {
    var ss := BulkResponse.sections;
    assert SectionKey(ss[0]) == "currentyearoverview";
    assert SectionKey(ss[1]) == "keystatistics";
    assert ss[..1][..0] == [];
    assert SectionMap(ss[..1]) == map["currentyearoverview" := Dict([BulkEntry], [], [])];
    assert [BulkEntry][..0] == [];
    assert IndexOverview([BulkEntry][..0]) == OverviewIndex([], map[]);
    assert [] + ["All"] == ["All"];
  }

  /** No key statistics: one fallback row from the overview entry. */
  lemma BulkNormalized(code: string, parseStr: string -> Option<real>)
    ensures Normalize(code, BulkResponse, parseStr) == [FallbackRow(code, "All", BulkEntry)]
  {
    BulkLookups();
    assert ["All"][..0] == [];
    var entries := map["All" := BulkEntry];
    assert FallbackRows(code, [], entries) == [];
    assert FallbackRows(code, ["All"], entries) == [] + [FallbackRow(code, "All", BulkEntry)];
    assert SegmentRows(code, [], OverviewOf(BulkResponse), KeyRatiosOf(BulkResponse), parseStr) == [];
  }

  lemma BulkRows(parseStr: string -> Option<real>)
    ensures CollectRows(BulkFetch, BulkCodes, BulkSections, false, ParseWith(parseStr))
      == Ok([FallbackRow("32191", "All", BulkEntry), FallbackRow("42344", "All", BulkEntry)])
  {
    var norm := ParseWith(parseStr);
    BulkNormalized("32191", parseStr);
    BulkNormalized("42344", parseStr);
    assert norm("32191", BulkResponse) == [FallbackRow("32191", "All", BulkEntry)];
    assert norm("42344", BulkResponse) == [FallbackRow("42344", "All", BulkEntry)];
    assert BulkCodes[..1][..0] == [];
    assert CollectRows(BulkFetch, BulkCodes[..0], BulkSections, false, norm) == Ok([]);
    assert CollectRows(BulkFetch, BulkCodes[..1], BulkSections, false, norm)
      == Ok([] + [FallbackRow("32191", "All", BulkEntry)]);
    assert BulkCodes[..|BulkCodes| - 1] == BulkCodes[..1];
    var a, b := FallbackRow("32191", "All", BulkEntry), FallbackRow("42344", "All", BulkEntry);
    assert CollectRows(BulkFetch, BulkCodes, BulkSections, false, norm) == Ok(([] + [a]) + [b]);
    assert ([] + [a]) + [b] == [a, b];
  }

  /** Two codes, two rows and two records, the first for code 32191 under the `Code` column. */
  lemma BulkSample(parseStr: string -> Option<real>)
    ensures var e := ExportOf(BulkFetch, BulkCodes, BulkSections, false, parseStr);
      && e.Ok? && |e.value.rows| == 2 && e.value.file.Table?
      && |e.value.file.records| == 2 && e.value.file.header[0] == "Code"
      && e.value.file.records[0][0] == Str("32191")
  {
    BulkRows(parseStr);
    var rows := [FallbackRow("32191", "All", BulkEntry), FallbackRow("42344", "All", BulkEntry)];
    var e := ExportOf(BulkFetch, BulkCodes, BulkSections, false, parseStr);
    assert e == Ok(Export(rows, FileFor(rows)));
    FileForSpec(rows);
    HeaderShape(rows);
    var header := Header(rows);
    assert header[0] == Common[0];
    assert FileFor(rows).records[0] == Record(rows[0], header);
    RecordSpec(rows[0], header);
    assert "Code" in rows[0];
  }

  /** The client test's cache key. */
  lemma ClientSampleKey()
    ensures SegmentKey("US", "32191", ["keystatistics"]) == "segment_US_32191_keystatistics"
  {
    assert Join("_", ["keystatistics"]) == "keystatistics";
  }

  /**
    The client test: with a held token and an empty cache, the one POST goes to
    the sections URL with that token, and its reply is the result.
   */
  lemma ClientSample(server: ApiCall -> Result<Json, string>, endpoint: Exchange -> Result<Json, string>)
    ensures var body := SectionsBody("32191", ["keystatistics"], "US", "English");
      var call := ApiCall(BaseUrl + SectionsPath, Str("fake-token"), body);
      && CacheHit(map[], SegmentKey("US", "32191", ["keystatistics"]), true) == None
      && PostOf(Str("fake-token"), None, None, None, endpoint, server, SectionsPath, body)
           == PostStep(Str("fake-token"), server(call), [ApiPost(call)])
  {
    var body := SectionsBody("32191", ["keystatistics"], "US", "English");
    PostNeedsToken(Str("fake-token"), None, None, None, endpoint, server, SectionsPath, body);
    LoadAbsent(map[], SegmentKey("US", "32191", ["keystatistics"]));
  }
}
