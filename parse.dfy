/**
  The datapoint normaliser of `ibisworld_client/parse.py`: it turns a
  Segment Benchmarking response (a list of named sections) into one flat row
  per segment-size label.

  The response is modelled with one datatype per nested shape the code reads.
  A dictionary key the code reads with `.get` is a field. For a scalar field
  a missing key and a JSON `null` are the same (`None`/`Null`), except for
  the `Year` of a data point inside `max` (see `DataPoint`). A list field is a
  sequence, and a missing list is the empty one; of the lists, only `Data`
  is read so that a `null` counts as empty too (a `null` in place of any
  other list makes the source raise, which the typed response cannot
  express). The rows the normaliser builds are maps from field name to value.

  The specification functions below follow the loops of the source one
  element at a time (each recursion peels off the LAST element, the way a
  loop extends its prefix), and the method `ParseSegmentDatapoints` at the end
  is the loop program itself, proved equal to `Normalize`.
 */
module Parse {
  import opened Wrappers
  import opened Json
  import opened Strings

  /** A flat output row: field name to value (a Python dict). */
  type Row = map<string, Json>

  /**
    One `{"Year": ..., "Value": ...}` item of a statistic's `Data` list.
    `year` is `None` for a missing `Year`; a `Year` of JSON `null` is read the
    same way, although `max` in the source then compares `None` with an `int`
    and raises `TypeError` (when `Data` has two or more items).
   */
  datatype DataPoint = DataPoint(year: Option<int>, value: Json)

  /** A statistic series: `Name` and its `Data` list. */
  datatype Stat = Stat(name: Option<string>, data: seq<DataPoint>)

  /** An item of `KeyStatistics`: a segment label and its statistic series. */
  datatype SegmentStats = SegmentStats(segmentSize: Option<string>, statistics: seq<Stat>)

  /** An item of `CurrentYearOverview`, with the fields the normaliser copies. */
  datatype OverviewEntry = OverviewEntry(
    segmentSize: Option<string>,
    averageRevenue: Json,
    totalRevenue: Json,
    marketShare: Json,
    marketShareForecast: Json,
    marketSharePrediction: Json)

  /** An item of `KeyRatios`: a segment label and its ratio series. */
  datatype RatioEntry = RatioEntry(segmentSize: Option<string>, statistics: seq<Stat>)

  /**
    A section body. `NotDict` is a body that is not a dictionary (the code
    skips it); a dictionary has the three lists the code may read from it.
   */
  datatype Body =
    | NotDict
    | Dict(currentYearOverview: seq<OverviewEntry>,
           keyStatistics: seq<SegmentStats>,
           keyRatios: seq<RatioEntry>)

  /** One item of `Sections`; `body` is `None` when `Body` is missing or falsy. */
  datatype Section = Section(requestedSection: Option<string>, body: Option<Body>)

  datatype Response = Response(sections: seq<Section>)

  const EmptyBody: Body := Dict([], [], [])

  /** `if seg:` on a segment label: present and not the empty string. */
  predicate HasLabel(size: Option<string>) {
    size.Some? && size.value != ""
  }

  function Max(a: int, b: int): int {
    if a < b then b else a
  }

  // ---------------------------------------------------------------------
  // _latest_value

  /** The key `max` ranks a data point by: `x.get("Year", 0)`. */
  function YearKey(d: DataPoint): int {
    d.year.GetOr(0)
  }

  /** Index of the first data point whose year is `year`, or `|data|` if none. */
  function FirstWithYear(data: seq<DataPoint>, year: int): (k: nat)
    ensures k <= |data|
    ensures forall j :: 0 <= j < k ==> data[j].year != Some(year)
    ensures k < |data| ==> data[k].year == Some(year)
  {
    if data == [] then 0
    else if data[0].year == Some(year) then 0
    else 1 + FirstWithYear(data[1..], year)
  }

  /**
    The index `max(data, key=YearKey)` picks: it scans left to right and
    replaces its candidate only by a strictly larger key, so the FIRST
    maximal data point wins.
   */
  function MaxIndex(data: seq<DataPoint>): (k: nat)
    requires data != []
    ensures k < |data|
    ensures forall j :: 0 <= j < |data| ==> YearKey(data[j]) <= YearKey(data[k])
    ensures forall j :: 0 <= j < k ==> YearKey(data[j]) < YearKey(data[k])
  {
    if |data| == 1 then 0
    else
      var k := MaxIndex(data[..|data| - 1]);
      if YearKey(data[k]) < YearKey(data[|data| - 1]) then |data| - 1 else k
  }

  /** `_latest_value(stat, preferred_year)` on the statistic's `Data` list. */
  function LatestValue(data: seq<DataPoint>, preferred: Option<int>): (Option<int>, Json) {
    if data == [] then (None, Null)
    else if preferred.Some? && FirstWithYear(data, preferred.value) < |data| then
      var d := data[FirstWithYear(data, preferred.value)];
      (d.year, d.value)
    else
      var d := data[MaxIndex(data)];
      (d.year, d.value)
  }

  /** No data: no year and no value. */
  lemma LatestValueEmpty(preferred: Option<int>)
    ensures LatestValue([], preferred) == (None, Null)
  {
  }

  /** A preferred year that occurs selects its first occurrence, whatever later years exist. */
  lemma LatestValuePreferred(data: seq<DataPoint>, year: int, k: nat)
    requires k < |data| && data[k].year == Some(year)
    requires forall j :: 0 <= j < k ==> data[j].year != Some(year)
    ensures LatestValue(data, Some(year)) == (Some(year), data[k].value)
  {
  }

  /**
    Without a preferred year that occurs, the first data point with the
    largest year (a missing year counting as 0) is selected.
   */
  lemma LatestValueMaximal(data: seq<DataPoint>, preferred: Option<int>, k: nat)
    requires k < |data|
    requires forall j :: 0 <= j < |data| ==> YearKey(data[j]) <= YearKey(data[k])
    requires forall j :: 0 <= j < k ==> YearKey(data[j]) < YearKey(data[k])
    requires preferred.Some? ==> forall j :: 0 <= j < |data| ==> data[j].year != preferred
    ensures LatestValue(data, preferred) == (data[k].year, data[k].value)
  {
    var m := MaxIndex(data);
    assert !(m < k) && !(k < m);
  }

  // ---------------------------------------------------------------------
  // The section lookup: sections[lower(RequestedSection or "")] = Body or {}

  function SectionKey(s: Section): string {
    Lower(s.requestedSection.GetOr(""))
  }

  function SectionBody(s: Section): Body {
    s.body.GetOr(EmptyBody)
  }

  function SectionMap(ss: seq<Section>): map<string, Body> {
    if ss == [] then map[]
    else SectionMap(ss[..|ss| - 1])[SectionKey(ss[|ss| - 1]) := SectionBody(ss[|ss| - 1])]
  }

  /** `sections.get(name, {})`. */
  function Lookup(sections: map<string, Body>, name: string): Body {
    if name in sections then sections[name] else EmptyBody
  }

  /** The key set of the lookup is the set of lower-cased section names. */
  lemma {:induction false} SectionMapKeys(ss: seq<Section>, key: string)
    ensures key in SectionMap(ss) <==> exists j :: 0 <= j < |ss| && SectionKey(ss[j]) == key
  {
    if ss != [] {
      var init := ss[..|ss| - 1];
      SectionMapKeys(init, key);
      if exists j :: 0 <= j < |init| && SectionKey(init[j]) == key {
        var j :| 0 <= j < |init| && SectionKey(init[j]) == key;
        assert SectionKey(ss[j]) == key;
      }
      if exists j :: 0 <= j < |ss| && SectionKey(ss[j]) == key {
        var j :| 0 <= j < |ss| && SectionKey(ss[j]) == key;
        if j < |init| { assert SectionKey(init[j]) == key; }
      }
    }
  }

  /** A repeated section name keeps the body of its LAST occurrence. */
  lemma {:induction false} SectionMapLast(ss: seq<Section>, i: nat)
    requires i < |ss|
    requires forall j :: i < j < |ss| ==> SectionKey(ss[j]) != SectionKey(ss[i])
    ensures SectionKey(ss[i]) in SectionMap(ss)
    ensures SectionMap(ss)[SectionKey(ss[i])] == SectionBody(ss[i])
  {
    if i < |ss| - 1 {
      var init := ss[..|ss| - 1];
      assert forall j :: i < j < |init| ==> init[j] == ss[j];
      SectionMapLast(init, i);
      assert init[i] == ss[i];
    }
  }

  /** The lists a body offers; a body that is not a dictionary offers none. */
  function OverviewEntries(b: Body): seq<OverviewEntry> {
    if b.Dict? then b.currentYearOverview else []
  }

  function KeyStatistics(b: Body): seq<SegmentStats> {
    if b.Dict? then b.keyStatistics else []
  }

  function KeyRatios(b: Body): seq<RatioEntry> {
    if b.Dict? then b.keyRatios else []
  }

  // ---------------------------------------------------------------------
  // cyo_map: segment label -> overview entry, in Python dict order

  /**
    The overview map. `order` is the dict's iteration order: a label takes
    its place when first inserted and keeps it when overwritten.
   */
  datatype OverviewIndex = OverviewIndex(order: seq<string>, entries: map<string, OverviewEntry>)

  predicate NoDuplicates(s: seq<string>) {
    forall i, j :: 0 <= i < j < |s| ==> s[i] != s[j]
  }

  function IndexOverview(es: seq<OverviewEntry>): (idx: OverviewIndex)
    ensures NoDuplicates(idx.order)
    ensures forall seg :: seg in idx.order <==> seg in idx.entries
  {
    if es == [] then OverviewIndex([], map[])
    else
      var idx := IndexOverview(es[..|es| - 1]);
      var e := es[|es| - 1];
      if !HasLabel(e.segmentSize) then idx
      else
        var seg := e.segmentSize.value;
        OverviewIndex(if seg in idx.entries then idx.order else idx.order + [seg],
                      idx.entries[seg := e])
  }

  /** The labels of the overview entries that carry one, in list order. */
  function Labels(es: seq<OverviewEntry>): (labels: seq<string>)
    ensures |labels| <= |es|
  {
    if es == [] then []
    else if HasLabel(es[|es| - 1].segmentSize) then Labels(es[..|es| - 1]) + [es[|es| - 1].segmentSize.value]
    else Labels(es[..|es| - 1])
  }

  /** Position of the first occurrence of `x` in `s` (`|s|` when absent). */
  function FirstPos(s: seq<string>, x: string): (p: nat)
    ensures p <= |s|
    ensures p < |s| <==> x in s
    ensures p < |s| ==> s[p] == x
  {
    if s == [] then 0 else if s[0] == x then 0 else 1 + FirstPos(s[1..], x)
  }

  lemma {:induction false} FirstPosAppend(s: seq<string>, y: string, x: string)
    requires x in s
    ensures FirstPos(s + [y], x) == FirstPos(s, x)
  {
    if s[0] != x {
      assert (s + [y])[1..] == s[1..] + [y];
      FirstPosAppend(s[1..], y, x);
    }
  }

  /**
    The overview map holds exactly the labelled entries' labels, each mapped
    to the LAST entry with that label, iterated in order of FIRST occurrence.
   */
  lemma {:induction false} IndexOverviewSpec(es: seq<OverviewEntry>)
    ensures forall seg :: seg in IndexOverview(es).entries <==> seg in Labels(es)
    ensures forall i, j :: 0 <= i < j < |IndexOverview(es).order| ==>
      FirstPos(Labels(es), IndexOverview(es).order[i]) < FirstPos(Labels(es), IndexOverview(es).order[j])
  {
    if es != [] {
      var init := es[..|es| - 1];
      var e := es[|es| - 1];
      IndexOverviewSpec(init);
      var idx := IndexOverview(init);
      var labels := Labels(init);
      if HasLabel(e.segmentSize) {
        var seg := e.segmentSize.value;
        var order := IndexOverview(es).order;
        assert Labels(es) == labels + [seg];
        forall x | x in labels
          ensures FirstPos(Labels(es), x) == FirstPos(labels, x)
        {
          FirstPosAppend(labels, seg, x);
        }
        forall i, j | 0 <= i < j < |order|
          ensures FirstPos(Labels(es), order[i]) < FirstPos(Labels(es), order[j])
        {
          assert order[i] in idx.order;
          if j < |idx.order| {
            assert order[j] == idx.order[j];
          } else {
            assert seg !in labels && order[j] == seg;
            assert FirstPos(Labels(es), seg) == |labels| by {
              FirstPosAfterAbsent(labels, seg);
            }
          }
        }
      }
    }
  }

  lemma {:induction false} FirstPosAfterAbsent(s: seq<string>, x: string)
    requires x !in s
    ensures FirstPos(s + [x], x) == |s|
  {
    if s != [] {
      assert (s + [x])[1..] == s[1..] + [x];
      FirstPosAfterAbsent(s[1..], x);
    }
  }

  /** The entry kept for a label is the last overview entry with that label. */
  lemma {:induction false} IndexOverviewLast(es: seq<OverviewEntry>, i: nat)
    requires i < |es| && HasLabel(es[i].segmentSize)
    requires forall j :: i < j < |es| ==> es[j].segmentSize != es[i].segmentSize
    ensures es[i].segmentSize.value in IndexOverview(es).entries
    ensures IndexOverview(es).entries[es[i].segmentSize.value] == es[i]
  {
    if i < |es| - 1 {
      var init := es[..|es| - 1];
      assert forall j :: i < j < |init| ==> init[j] == es[j];
      IndexOverviewLast(init, i);
      assert init[i] == es[i];
    }
  }

  // ---------------------------------------------------------------------
  // Field mapping of the key-statistics series

  /** The lower-cased `Name` of a series (`""` when missing). */
  function StatName(st: Stat): string {
    Lower(st.name.GetOr(""))
  }

  /** The row field a series with lower-cased name `name` is written to. */
  function FieldFor(name: string): string {
    if Contains(name, "revenue") then "Revenue"
    else if Contains(name, "employment") then "Employment"
    else if Contains(name, "wages") then "Wages"
    else if Contains(name, "establish") then "Establishments"
    else Replace(name, ' ', '_')
  }

  predicate NoUpper(s: string) {
    forall i :: 0 <= i < |s| ==> !IsUpper(s[i])
  }

  /** A field name that starts with a capital, as all fixed field names do. */
  predicate Capitalised(k: string) {
    |k| > 0 && IsUpper(k[0])
  }

  const MappedFields: set<string> := {"Revenue", "Employment", "Wages", "Establishments"}

  /**
    The ordered substring rule: "revenue" beats "employment", which beats
    "wages", which beats "establish"; any other name is kept, with spaces
    turned into underscores, and then never starts with a capital.
   */
  lemma FieldForRule(name: string)
    requires NoUpper(name)
    ensures FieldFor(name) == "Revenue" <==> Contains(name, "revenue")
    ensures FieldFor(name) == "Employment" <==> !Contains(name, "revenue") && Contains(name, "employment")
    ensures FieldFor(name) == "Wages" <==>
      !Contains(name, "revenue") && !Contains(name, "employment") && Contains(name, "wages")
    ensures FieldFor(name) == "Establishments" <==>
      !Contains(name, "revenue") && !Contains(name, "employment") && !Contains(name, "wages")
      && Contains(name, "establish")
    ensures FieldFor(name) !in MappedFields ==> FieldFor(name) == Replace(name, ' ', '_') && !Capitalised(FieldFor(name))
  {
    var other := Replace(name, ' ', '_');
    assert !Capitalised(other) by {
      if |other| > 0 { assert other[0] == if name[0] == ' ' then '_' else name[0]; }
    }
    assert forall k :: Capitalised(k) ==> other != k;
    assert Capitalised("Revenue") && Capitalised("Employment") && Capitalised("Wages") && Capitalised("Establishments");
  }

  lemma StatNameNoUpper(st: Stat)
    ensures NoUpper(StatName(st))
  {
  }

  /** The field a key-statistics series is written to. */
  function Target(st: Stat): string {
    FieldFor(StatName(st))
  }

  /** A capitalised field other than the four mapped ones is never a series target. */
  lemma TargetNotCapitalised(st: Stat, k: string)
    requires Capitalised(k) && k !in MappedFields
    ensures Target(st) != k
  {
    StatNameNoUpper(st);
    FieldForRule(StatName(st));
  }

  function SeriesYear(st: Stat): Option<int> {
    LatestValue(st.data, None).0
  }

  function SeriesValue(st: Stat): Json {
    LatestValue(st.data, None).1
  }

  /** The row after the series loop wrote each series' latest value under its target. */
  function SeriesRow(row: Row, stats: seq<Stat>): Row {
    if stats == [] then row
    else SeriesRow(row, stats[..|stats| - 1])[Target(stats[|stats| - 1]) := SeriesValue(stats[|stats| - 1])]
  }

  /** `if year:` on a latest year. */
  predicate TruthyYear(y: Option<int>) {
    y.Some? && y.value != 0
  }

  /** `latest_year` after the series loop: `max(latest_year or 0, year)` for each truthy year. */
  function LatestYear(stats: seq<Stat>): Option<int> {
    if stats == [] then None
    else
      var prev := LatestYear(stats[..|stats| - 1]);
      var y := SeriesYear(stats[|stats| - 1]);
      if TruthyYear(y) then Some(Max(prev.GetOr(0), y.value)) else prev
  }

  function YearValue(y: Option<int>): Json {
    if y.Some? then Int(y.value) else Null
  }

  /** Each target holds the value of the LAST series mapped to it. */
  lemma {:induction false} SeriesRowLastWins(row: Row, stats: seq<Stat>, i: nat)
    requires i < |stats|
    requires forall j :: i < j < |stats| ==> Target(stats[j]) != Target(stats[i])
    ensures Target(stats[i]) in SeriesRow(row, stats)
    ensures SeriesRow(row, stats)[Target(stats[i])] == SeriesValue(stats[i])
  {
    if i < |stats| - 1 {
      var init := stats[..|stats| - 1];
      assert forall j :: i < j < |init| ==> init[j] == stats[j];
      SeriesRowLastWins(row, init, i);
      assert init[i] == stats[i];
    }
  }

  /** A field no series is mapped to keeps whatever the row held before. */
  lemma {:induction false} SeriesRowUntouched(row: Row, stats: seq<Stat>, k: string)
    requires forall j :: 0 <= j < |stats| ==> Target(stats[j]) != k
    ensures k in SeriesRow(row, stats) <==> k in row
    ensures k in row ==> SeriesRow(row, stats)[k] == row[k]
  {
    if stats != [] {
      var init := stats[..|stats| - 1];
      assert forall j :: 0 <= j < |init| ==> init[j] == stats[j];
      SeriesRowUntouched(row, init, k);
    }
  }

  /**
    The row's `Year`: none when no series has a truthy latest year; otherwise
    the maximum of those years and 0 (the code starts from `latest_year or 0`),
    which is one of the years whenever it is not 0.
   */
  lemma {:induction false} LatestYearIsMax(stats: seq<Stat>)
    ensures LatestYear(stats).None? <==> forall j :: 0 <= j < |stats| ==> !TruthyYear(SeriesYear(stats[j]))
    ensures LatestYear(stats).Some? ==> LatestYear(stats).value >= 0
    ensures LatestYear(stats).Some? ==>
      forall j :: 0 <= j < |stats| && TruthyYear(SeriesYear(stats[j])) ==> SeriesYear(stats[j]).value <= LatestYear(stats).value
    ensures LatestYear(stats).Some? && LatestYear(stats).value != 0 ==>
      exists j :: 0 <= j < |stats| && SeriesYear(stats[j]) == LatestYear(stats)
  {
    if stats != [] {
      var init := stats[..|stats| - 1];
      assert forall j :: 0 <= j < |init| ==> init[j] == stats[j];
      LatestYearIsMax(init);
      var prev := LatestYear(init);
      var y := SeriesYear(stats[|stats| - 1]);
      if TruthyYear(y) && LatestYear(stats).value != 0 {
        if prev.Some? && prev.value >= y.value && prev.value != 0 {
          var j :| 0 <= j < |init| && SeriesYear(init[j]) == prev;
          assert SeriesYear(stats[j]) == LatestYear(stats);
        } else {
          assert SeriesYear(stats[|stats| - 1]) == LatestYear(stats);
        }
      } else if !TruthyYear(y) && prev.Some? && prev.value != 0 {
        var j :| 0 <= j < |init| && SeriesYear(init[j]) == prev;
        assert SeriesYear(stats[j]) == LatestYear(stats);
      }
    }
  }

  // ---------------------------------------------------------------------
  // Overview and key-ratio merge, computed ratio

  /** The five overview fields, each the entry's value or `None`. */
  function WithOverview(row: Row, c: OverviewEntry): Row {
    row["AverageRevenue" := c.averageRevenue]["TotalRevenue" := c.totalRevenue]
       ["MarketShare" := c.marketShare]["MarketShareForecast" := c.marketShareForecast]
       ["MarketSharePrediction" := c.marketSharePrediction]
  }

  /** A ratio series name, lower-cased with spaces turned into underscores. */
  function RatioName(st: Stat): string {
    Replace(Lower(st.name.GetOr("")), ' ', '_')
  }

  /** The row after the loop over one key-ratio entry's series. */
  function RatioStatsRow(row: Row, stats: seq<Stat>): Row {
    if stats == [] then row
    else
      var r := RatioStatsRow(row, stats[..|stats| - 1]);
      var st := stats[|stats| - 1];
      if RatioName(st) == "revenue_per_employee" then r["RevenuePerEmployee" := SeriesValue(st)]
      else if RatioName(st) == "wages_as_a_share_of_revenue" then r["WagesShareOfRevenue" := SeriesValue(st)]
      else r
  }

  /** The row after the loop over the key-ratio entries, of which only `seg`'s count. */
  function RatiosRow(row: Row, ratios: seq<RatioEntry>, seg: string): Row {
    if ratios == [] then row
    else
      var r := RatiosRow(row, ratios[..|ratios| - 1], seg);
      var e := ratios[|ratios| - 1];
      if e.segmentSize != Some(seg) then r else RatioStatsRow(r, e.statistics)
  }

  /** The ratio series of all of `seg`'s key-ratio entries, in order. */
  function SegmentRatioStats(ratios: seq<RatioEntry>, seg: string): seq<Stat> {
    if ratios == [] then []
    else
      var e := ratios[|ratios| - 1];
      SegmentRatioStats(ratios[..|ratios| - 1], seg) + (if e.segmentSize == Some(seg) then e.statistics else [])
  }

  lemma {:induction false} RatioStatsRowAppend(row: Row, a: seq<Stat>, b: seq<Stat>)
    ensures RatioStatsRow(row, a + b) == RatioStatsRow(RatioStatsRow(row, a), b)
    decreases |b|
  {
    if b == [] {
      assert a + b == a;
    } else {
      assert (a + b)[..|a + b| - 1] == a + b[..|b| - 1];
      assert (a + b)[|a + b| - 1] == b[|b| - 1];
      RatioStatsRowAppend(row, a, b[..|b| - 1]);
    }
  }

  /** The nested ratio loops act like one loop over `seg`'s ratio series. */
  lemma {:induction false} RatiosRowFlat(row: Row, ratios: seq<RatioEntry>, seg: string)
    ensures RatiosRow(row, ratios, seg) == RatioStatsRow(row, SegmentRatioStats(ratios, seg))
  {
    if ratios != [] {
      var init := ratios[..|ratios| - 1];
      RatiosRowFlat(row, init, seg);
      var e := ratios[|ratios| - 1];
      if e.segmentSize == Some(seg) {
        RatioStatsRowAppend(row, SegmentRatioStats(init, seg), e.statistics);
      } else {
        assert SegmentRatioStats(ratios, seg) == SegmentRatioStats(init, seg) + [];
        assert SegmentRatioStats(init, seg) + [] == SegmentRatioStats(init, seg);
      }
    }
  }

  /** The two fields a ratio series can set, with the series name that sets each. */
  predicate RatioField(field: string, name: string) {
    || (field == "RevenuePerEmployee" && name == "revenue_per_employee")
    || (field == "WagesShareOfRevenue" && name == "wages_as_a_share_of_revenue")
  }

  /** The ratio series loop changes no field but the two ratio fields. */
  lemma {:induction false} RatioStatsRowOther(row: Row, stats: seq<Stat>, k: string)
    requires k != "RevenuePerEmployee" && k != "WagesShareOfRevenue"
    ensures k in RatioStatsRow(row, stats) <==> k in row
    ensures k in row ==> RatioStatsRow(row, stats)[k] == row[k]
  {
    if stats != [] {
      RatioStatsRowOther(row, stats[..|stats| - 1], k);
    }
  }

  /** A ratio field no series is named for keeps what the row held. */
  lemma {:induction false} RatioStatsRowAbsent(row: Row, stats: seq<Stat>, field: string, name: string)
    requires RatioField(field, name)
    requires forall j :: 0 <= j < |stats| ==> RatioName(stats[j]) != name
    ensures field in RatioStatsRow(row, stats) <==> field in row
    ensures field in row ==> RatioStatsRow(row, stats)[field] == row[field]
  {
    if stats != [] {
      var init := stats[..|stats| - 1];
      assert forall j :: 0 <= j < |init| ==> init[j] == stats[j];
      RatioStatsRowAbsent(row, init, field, name);
    }
  }

  /** A ratio field holds the latest value of the LAST series named for it. */
  lemma {:induction false} RatioStatsRowLastWins(row: Row, stats: seq<Stat>, field: string, name: string, i: nat)
    requires RatioField(field, name)
    requires i < |stats| && RatioName(stats[i]) == name
    requires forall j :: i < j < |stats| ==> RatioName(stats[j]) != name
    ensures field in RatioStatsRow(row, stats)
    ensures RatioStatsRow(row, stats)[field] == SeriesValue(stats[i])
  {
    var init := stats[..|stats| - 1];
    if i < |stats| - 1 {
      assert forall j :: i < j < |init| ==> init[j] == stats[j];
      RatioStatsRowLastWins(row, init, field, name, i);
      assert init[i] == stats[i];
    }
  }

  /**
    The computed `RevenuePerEmployee`: `None` when either value does not
    convert or the employment converts to zero, else the quotient.
   */
  function RevenuePerEmployee(revenue: Json, employment: Json, parseStr: string -> Option<real>): Json {
    match ToFloat(employment, parseStr)
    case None => Null
    case Some(e) =>
      if e == 0.0 then Null
      else
        match ToFloat(revenue, parseStr)
        case None => Null
        case Some(r) => Num(r / e)
  }

  /** `row.get(k)`. */
  function Get(row: Row, k: string): Json {
    if k in row then row[k] else Null
  }

  /** The computed ratio step: only when it is missing and both inputs are truthy. */
  function WithComputedRatio(row: Row, parseStr: string -> Option<real>): Row {
    if "RevenuePerEmployee" !in row && Truthy(Get(row, "Revenue")) && Truthy(Get(row, "Employment")) then
      row["RevenuePerEmployee" := RevenuePerEmployee(row["Revenue"], row["Employment"], parseStr)]
    else row
  }

  /**
    The computed ratio is `None` exactly when a conversion fails or the
    employment is zero; otherwise it is the quotient of the two conversions.
   */
  lemma RevenuePerEmployeeCases(revenue: Json, employment: Json, parseStr: string -> Option<real>)
    ensures RevenuePerEmployee(revenue, employment, parseStr) == Null <==>
      ToFloat(employment, parseStr) == None || ToFloat(employment, parseStr) == Some(0.0)
      || ToFloat(revenue, parseStr) == None
    ensures RevenuePerEmployee(revenue, employment, parseStr) != Null ==>
      RevenuePerEmployee(revenue, employment, parseStr)
        == Num(ToFloat(revenue, parseStr).value / ToFloat(employment, parseStr).value)
  {
  }

  /**
    The computed-ratio step adds `RevenuePerEmployee` exactly when it is
    missing and both `Revenue` and `Employment` are truthy, and changes
    nothing else. In particular an `Employment` of 0 adds no key at all.
   */
  lemma WithComputedRatioSpec(row: Row, parseStr: string -> Option<real>)
    ensures "RevenuePerEmployee" in row ==> WithComputedRatio(row, parseStr) == row
    ensures "RevenuePerEmployee" !in row ==>
      ("RevenuePerEmployee" in WithComputedRatio(row, parseStr) <==>
        Truthy(Get(row, "Revenue")) && Truthy(Get(row, "Employment")))
    ensures forall k :: k != "RevenuePerEmployee" ==>
      (k in WithComputedRatio(row, parseStr) <==> k in row)
      && (k in row ==> WithComputedRatio(row, parseStr)[k] == row[k])
  {
  }

  // ---------------------------------------------------------------------
  // One row per labelled key-statistics entry, built in stages

  function BaseRow(code: string, seg: string): Row {
    map["Code" := Str(code), "SegmentSize" := Str(seg)]
  }

  /** After the series loop and `row["Year"] = latest_year`. */
  function YearRow(code: string, seg: string, stats: seq<Stat>): Row {
    SeriesRow(BaseRow(code, seg), stats)["Year" := YearValue(LatestYear(stats))]
  }

  /** After the overview fields (`if c:` holds exactly when the label is in the map). */
  function OverviewRow(code: string, seg: string, stats: seq<Stat>, overview: OverviewIndex): Row {
    var row := YearRow(code, seg, stats);
    if seg in overview.entries then WithOverview(row, overview.entries[seg]) else row
  }

  /** The row built for segment `seg` with the given series. */
  function SegmentRow(code: string, seg: string, stats: seq<Stat>, overview: OverviewIndex,
                      ratios: seq<RatioEntry>, parseStr: string -> Option<real>): Row
  {
    WithComputedRatio(RatiosRow(OverviewRow(code, seg, stats, overview), ratios, seg), parseStr)
  }

  /** The key-statistics entries that produce a row: those with a label. */
  function Labelled(es: seq<SegmentStats>): (ls: seq<SegmentStats>)
    ensures |ls| <= |es|
    ensures forall i :: 0 <= i < |ls| ==> HasLabel(ls[i].segmentSize)
    ensures forall e :: e in ls <==> e in es && HasLabel(e.segmentSize)
  {
    assert es != [] ==> es == es[..|es| - 1] + [es[|es| - 1]];
    if es == [] then []
    else if HasLabel(es[|es| - 1].segmentSize) then Labelled(es[..|es| - 1]) + [es[|es| - 1]]
    else Labelled(es[..|es| - 1])
  }

  /** `Labelled` keeps the input order: it is a filter applied element by element. */
  lemma {:induction false} LabelledAppend(a: seq<SegmentStats>, b: seq<SegmentStats>)
    ensures Labelled(a + b) == Labelled(a) + Labelled(b)
    decreases |b|
  {
    if b != [] {
      var init := b[..|b| - 1];
      assert (a + b)[..|a + b| - 1] == a + init;
      assert (a + b)[|a + b| - 1] == b[|b| - 1];
      LabelledAppend(a, init);
    } else {
      assert a + b == a;
    }
  }

  /** A single entry is kept exactly when it carries a label. */
  lemma LabelledSingle(e: SegmentStats)
    ensures Labelled([e]) == if HasLabel(e.segmentSize) then [e] else []
  {
    assert [e][..0] == [];
  }

  function SegmentRows(code: string, es: seq<SegmentStats>, overview: OverviewIndex,
                       ratios: seq<RatioEntry>, parseStr: string -> Option<real>): seq<Row>
  {
    if es == [] then []
    else
      var rows := SegmentRows(code, es[..|es| - 1], overview, ratios, parseStr);
      var e := es[|es| - 1];
      if HasLabel(e.segmentSize) then rows + [SegmentRow(code, e.segmentSize.value, e.statistics, overview, ratios, parseStr)]
      else rows
  }

  /** Exactly one row per labelled entry, in input order. */
  lemma {:induction false} SegmentRowsPerEntry(code: string, es: seq<SegmentStats>, overview: OverviewIndex,
                                               ratios: seq<RatioEntry>, parseStr: string -> Option<real>)
    ensures |SegmentRows(code, es, overview, ratios, parseStr)| == |Labelled(es)|
    ensures forall i :: 0 <= i < |Labelled(es)| ==>
      SegmentRows(code, es, overview, ratios, parseStr)[i]
        == SegmentRow(code, Labelled(es)[i].segmentSize.value, Labelled(es)[i].statistics, overview, ratios, parseStr)
  {
    if es != [] {
      SegmentRowsPerEntry(code, es[..|es| - 1], overview, ratios, parseStr);
    }
  }

  /** A capitalised field other than the four mapped ones passes through the series loop. */
  lemma SeriesRowKeepsFixed(row: Row, stats: seq<Stat>, k: string)
    requires Capitalised(k) && k !in MappedFields
    ensures k in SeriesRow(row, stats) <==> k in row
    ensures k in row ==> SeriesRow(row, stats)[k] == row[k]
  {
    forall j | 0 <= j < |stats|
      ensures Target(stats[j]) != k
    {
      TargetNotCapitalised(stats[j], k);
    }
    SeriesRowUntouched(row, stats, k);
  }

  /** A field other than the two ratio fields is the same in the final row as after the overview step. */
  lemma SegmentRowKeeps(code: string, seg: string, stats: seq<Stat>, overview: OverviewIndex,
                        ratios: seq<RatioEntry>, parseStr: string -> Option<real>, k: string)
    requires k != "RevenuePerEmployee" && k != "WagesShareOfRevenue"
    ensures var row := OverviewRow(code, seg, stats, overview);
      && (k in SegmentRow(code, seg, stats, overview, ratios, parseStr) <==> k in row)
      && (k in row ==> SegmentRow(code, seg, stats, overview, ratios, parseStr)[k] == row[k])
  {
    var row := OverviewRow(code, seg, stats, overview);
    RatiosRowFlat(row, ratios, seg);
    RatioStatsRowOther(row, SegmentRatioStats(ratios, seg), k);
    WithComputedRatioSpec(RatiosRow(row, ratios, seg), parseStr);
  }

  /** `Code` is the code, `SegmentSize` the label and `Year` the latest year (or `None`). */
  lemma SegmentRowIdentity(code: string, seg: string, stats: seq<Stat>, overview: OverviewIndex,
                           ratios: seq<RatioEntry>, parseStr: string -> Option<real>)
    ensures var row := SegmentRow(code, seg, stats, overview, ratios, parseStr);
      && "Code" in row && row["Code"] == Str(code)
      && "SegmentSize" in row && row["SegmentSize"] == Str(seg)
      && "Year" in row && row["Year"] == YearValue(LatestYear(stats))
  {
    assert Capitalised("Code") && Capitalised("SegmentSize");
    SeriesRowKeepsFixed(BaseRow(code, seg), stats, "Code");
    SeriesRowKeepsFixed(BaseRow(code, seg), stats, "SegmentSize");
    SegmentRowKeeps(code, seg, stats, overview, ratios, parseStr, "Code");
    SegmentRowKeeps(code, seg, stats, overview, ratios, parseStr, "SegmentSize");
    SegmentRowKeeps(code, seg, stats, overview, ratios, parseStr, "Year");
  }

  /**
    The five overview fields come from the overview entry for the label when
    there is one (absent values as `None`) and are absent otherwise.
   */
  lemma SegmentRowOverview(code: string, seg: string, stats: seq<Stat>, overview: OverviewIndex,
                           ratios: seq<RatioEntry>, parseStr: string -> Option<real>)
    ensures var row := SegmentRow(code, seg, stats, overview, ratios, parseStr);
      seg in overview.entries ==>
        var c := overview.entries[seg];
        && "AverageRevenue" in row && row["AverageRevenue"] == c.averageRevenue
        && "TotalRevenue" in row && row["TotalRevenue"] == c.totalRevenue
        && "MarketShare" in row && row["MarketShare"] == c.marketShare
        && "MarketShareForecast" in row && row["MarketShareForecast"] == c.marketShareForecast
        && "MarketSharePrediction" in row && row["MarketSharePrediction"] == c.marketSharePrediction
    ensures var row := SegmentRow(code, seg, stats, overview, ratios, parseStr);
      seg !in overview.entries ==>
        && "AverageRevenue" !in row && "TotalRevenue" !in row && "MarketShare" !in row
        && "MarketShareForecast" !in row && "MarketSharePrediction" !in row
  {
    assert Capitalised("AverageRevenue") && Capitalised("TotalRevenue") && Capitalised("MarketShare");
    assert Capitalised("MarketShareForecast") && Capitalised("MarketSharePrediction");
    if seg !in overview.entries {
      var base := BaseRow(code, seg);
      SeriesRowKeepsFixed(base, stats, "AverageRevenue");
      SeriesRowKeepsFixed(base, stats, "TotalRevenue");
      SeriesRowKeepsFixed(base, stats, "MarketShare");
      SeriesRowKeepsFixed(base, stats, "MarketShareForecast");
      SeriesRowKeepsFixed(base, stats, "MarketSharePrediction");
    }
    SegmentRowKeeps(code, seg, stats, overview, ratios, parseStr, "AverageRevenue");
    SegmentRowKeeps(code, seg, stats, overview, ratios, parseStr, "TotalRevenue");
    SegmentRowKeeps(code, seg, stats, overview, ratios, parseStr, "MarketShare");
    SegmentRowKeeps(code, seg, stats, overview, ratios, parseStr, "MarketShareForecast");
    SegmentRowKeeps(code, seg, stats, overview, ratios, parseStr, "MarketSharePrediction");
  }

  /** `RevenuePerEmployee` is the latest value of the segment's last `revenue_per_employee` ratio series. */
  lemma SegmentRowRatioFromKeyRatios(code: string, seg: string, stats: seq<Stat>, overview: OverviewIndex,
                                     ratios: seq<RatioEntry>, parseStr: string -> Option<real>, i: nat)
    requires var rs := SegmentRatioStats(ratios, seg);
      && i < |rs| && RatioName(rs[i]) == "revenue_per_employee"
      && forall j :: i < j < |rs| ==> RatioName(rs[j]) != "revenue_per_employee"
    ensures var row := SegmentRow(code, seg, stats, overview, ratios, parseStr);
      "RevenuePerEmployee" in row && row["RevenuePerEmployee"] == SeriesValue(SegmentRatioStats(ratios, seg)[i])
  {
    var row := OverviewRow(code, seg, stats, overview);
    RatiosRowFlat(row, ratios, seg);
    RatioStatsRowLastWins(row, SegmentRatioStats(ratios, seg), "RevenuePerEmployee", "revenue_per_employee", i);
  }

  /**
    Without a `revenue_per_employee` ratio series, `RevenuePerEmployee` is
    present exactly when the series gave a truthy `Revenue` and a truthy
    `Employment`, and is then the computed ratio of the two.
   */
  lemma SegmentRowRatioComputed(code: string, seg: string, stats: seq<Stat>, overview: OverviewIndex,
                                ratios: seq<RatioEntry>, parseStr: string -> Option<real>)
    requires forall j :: 0 <= j < |SegmentRatioStats(ratios, seg)| ==>
      RatioName(SegmentRatioStats(ratios, seg)[j]) != "revenue_per_employee"
    ensures var row := SegmentRow(code, seg, stats, overview, ratios, parseStr);
      var series := SeriesRow(BaseRow(code, seg), stats);
      && ("RevenuePerEmployee" in row <==> Truthy(Get(series, "Revenue")) && Truthy(Get(series, "Employment")))
      && ("RevenuePerEmployee" in row ==>
            row["RevenuePerEmployee"] == RevenuePerEmployee(series["Revenue"], series["Employment"], parseStr))
  {
    var series := SeriesRow(BaseRow(code, seg), stats);
    var row := OverviewRow(code, seg, stats, overview);
    var merged := RatiosRow(row, ratios, seg);
    assert Capitalised("RevenuePerEmployee");
    SeriesRowKeepsFixed(BaseRow(code, seg), stats, "RevenuePerEmployee");
    assert "RevenuePerEmployee" !in row;
    RatiosRowFlat(row, ratios, seg);
    RatioStatsRowAbsent(row, SegmentRatioStats(ratios, seg), "RevenuePerEmployee", "revenue_per_employee");
    RatioStatsRowOther(row, SegmentRatioStats(ratios, seg), "Revenue");
    RatioStatsRowOther(row, SegmentRatioStats(ratios, seg), "Employment");
    assert Get(merged, "Revenue") == Get(series, "Revenue");
    assert Get(merged, "Employment") == Get(series, "Employment");
    WithComputedRatioSpec(merged, parseStr);
  }

  /** `WagesShareOfRevenue` is the latest value of the segment's last `wages_as_a_share_of_revenue` ratio series. */
  lemma SegmentRowWagesShareFromKeyRatios(code: string, seg: string, stats: seq<Stat>, overview: OverviewIndex,
                                          ratios: seq<RatioEntry>, parseStr: string -> Option<real>, i: nat)
    requires var rs := SegmentRatioStats(ratios, seg);
      && i < |rs| && RatioName(rs[i]) == "wages_as_a_share_of_revenue"
      && forall j :: i < j < |rs| ==> RatioName(rs[j]) != "wages_as_a_share_of_revenue"
    ensures var row := SegmentRow(code, seg, stats, overview, ratios, parseStr);
      "WagesShareOfRevenue" in row && row["WagesShareOfRevenue"] == SeriesValue(SegmentRatioStats(ratios, seg)[i])
  {
    var row := OverviewRow(code, seg, stats, overview);
    var merged := RatiosRow(row, ratios, seg);
    RatiosRowFlat(row, ratios, seg);
    RatioStatsRowLastWins(row, SegmentRatioStats(ratios, seg), "WagesShareOfRevenue", "wages_as_a_share_of_revenue", i);
    WithComputedRatioSpec(merged, parseStr);
  }

  /** Without a `wages_as_a_share_of_revenue` ratio series for the segment, the row has no `WagesShareOfRevenue`. */
  lemma SegmentRowWagesShareAbsent(code: string, seg: string, stats: seq<Stat>, overview: OverviewIndex,
                                   ratios: seq<RatioEntry>, parseStr: string -> Option<real>)
    requires forall j :: 0 <= j < |SegmentRatioStats(ratios, seg)| ==>
      RatioName(SegmentRatioStats(ratios, seg)[j]) != "wages_as_a_share_of_revenue"
    ensures "WagesShareOfRevenue" !in SegmentRow(code, seg, stats, overview, ratios, parseStr)
  {
    var row := OverviewRow(code, seg, stats, overview);
    var merged := RatiosRow(row, ratios, seg);
    assert Capitalised("WagesShareOfRevenue");
    SeriesRowKeepsFixed(BaseRow(code, seg), stats, "WagesShareOfRevenue");
    assert "WagesShareOfRevenue" !in row;
    RatiosRowFlat(row, ratios, seg);
    RatioStatsRowAbsent(row, SegmentRatioStats(ratios, seg), "WagesShareOfRevenue", "wages_as_a_share_of_revenue");
    WithComputedRatioSpec(merged, parseStr);
  }

  // ---------------------------------------------------------------------
  // Fallback rows and the whole normaliser

  /** A row built from an overview entry alone, when key statistics gave none. */
  function FallbackRow(code: string, seg: string, c: OverviewEntry): Row {
    map["Code" := Str(code), "SegmentSize" := Str(seg), "AverageRevenue" := c.averageRevenue,
        "TotalRevenue" := c.totalRevenue, "MarketShare" := c.marketShare, "Year" := Null]
  }

  function FallbackRows(code: string, order: seq<string>, entries: map<string, OverviewEntry>): seq<Row>
    requires forall seg :: seg in order ==> seg in entries
  {
    if order == [] then []
    else
      var seg := order[|order| - 1];
      FallbackRows(code, order[..|order| - 1], entries) + [FallbackRow(code, seg, entries[seg])]
  }

  /** One fallback row per overview label, in dict order, holding exactly six fields. */
  lemma {:induction false} FallbackRowsSpec(code: string, order: seq<string>, entries: map<string, OverviewEntry>)
    requires forall seg :: seg in order ==> seg in entries
    ensures |FallbackRows(code, order, entries)| == |order|
    ensures forall i :: 0 <= i < |order| ==>
      var row := FallbackRows(code, order, entries)[i];
      var c := entries[order[i]];
      && row.Keys == {"Code", "SegmentSize", "AverageRevenue", "TotalRevenue", "MarketShare", "Year"}
      && row["Code"] == Str(code) && row["SegmentSize"] == Str(order[i])
      && row["AverageRevenue"] == c.averageRevenue && row["TotalRevenue"] == c.totalRevenue
      && row["MarketShare"] == c.marketShare && row["Year"] == Null
  {
    if order != [] {
      FallbackRowsSpec(code, order[..|order| - 1], entries);
    }
  }

  /** The overview index of a response. */
  function OverviewOf(response: Response): OverviewIndex {
    IndexOverview(OverviewEntries(Lookup(SectionMap(response.sections), "currentyearoverview")))
  }

  function KeyStatisticsOf(response: Response): seq<SegmentStats> {
    KeyStatistics(Lookup(SectionMap(response.sections), "keystatistics"))
  }

  function KeyRatiosOf(response: Response): seq<RatioEntry> {
    KeyRatios(Lookup(SectionMap(response.sections), "keyratios"))
  }

  /** `parse_segment_datapoints(code, response)`. */
  function Normalize(code: string, response: Response, parseStr: string -> Option<real>): seq<Row> {
    var overview := OverviewOf(response);
    var rows := SegmentRows(code, KeyStatisticsOf(response), overview, KeyRatiosOf(response), parseStr);
    if rows == [] then FallbackRows(code, overview.order, overview.entries) else rows
  }

  /**
    The result: one row per labelled key-statistics entry when there is any,
    and otherwise one fallback row per labelled overview entry (last entry per
    label, first-occurrence order).
   */
  lemma NormalizeShape(code: string, response: Response, parseStr: string -> Option<real>)
    ensures var ls := Labelled(KeyStatisticsOf(response));
      var overview := OverviewOf(response);
      && (|ls| > 0 ==>
        && |Normalize(code, response, parseStr)| == |ls|
        && forall i :: 0 <= i < |ls| ==>
          Normalize(code, response, parseStr)[i]
            == SegmentRow(code, ls[i].segmentSize.value, ls[i].statistics, overview, KeyRatiosOf(response), parseStr))
      && (|ls| == 0 ==> Normalize(code, response, parseStr) == FallbackRows(code, overview.order, overview.entries))
  {
    SegmentRowsPerEntry(code, KeyStatisticsOf(response), OverviewOf(response), KeyRatiosOf(response), parseStr);
  }

  /** A response without key-statistics and overview sections gives no rows. */
  lemma NormalizeWithoutSections(code: string, response: Response, parseStr: string -> Option<real>)
    requires forall j :: 0 <= j < |response.sections| ==>
      SectionKey(response.sections[j]) != "keystatistics" && SectionKey(response.sections[j]) != "currentyearoverview"
    ensures Normalize(code, response, parseStr) == []
  {
    SectionMapKeys(response.sections, "keystatistics");
    SectionMapKeys(response.sections, "currentyearoverview");
  }

  // ---------------------------------------------------------------------
  // The loop program

  /** The series loop of one key-statistics entry. */
  method CollectSeries(base: Row, stats: seq<Stat>) returns (row: Row, latestYear: Option<int>)
    ensures row == SeriesRow(base, stats)
    ensures latestYear == LatestYear(stats)
  {
    row, latestYear := base, None;
    var j := 0;
    while j < |stats|
      invariant 0 <= j <= |stats|
      invariant row == SeriesRow(base, stats[..j])
      invariant latestYear == LatestYear(stats[..j])
    {
      var st := stats[j];
      var name := Lower(st.name.GetOr(""));
      var (year, value) := LatestValue(st.data, None);
      if year.Some? && year.value != 0 {
        latestYear := Some(Max(latestYear.GetOr(0), year.value));
      }
      row := row[FieldFor(name) := value];
      assert stats[..j + 1][..j] == stats[..j];
      j := j + 1;
    }
    assert stats[..j] == stats;
  }

  /** The key-ratio loops for segment `seg`. */
  method MergeRatios(row0: Row, ratios: seq<RatioEntry>, seg: string) returns (row: Row)
    ensures row == RatiosRow(row0, ratios, seg)
  {
    row := row0;
    var k := 0;
    while k < |ratios|
      invariant 0 <= k <= |ratios|
      invariant row == RatiosRow(row0, ratios[..k], seg)
    {
      var e := ratios[k];
      assert ratios[..k + 1][..k] == ratios[..k];
      if e.segmentSize == Some(seg) {
        ghost var before := row;
        var m := 0;
        while m < |e.statistics|
          invariant 0 <= m <= |e.statistics|
          invariant row == RatioStatsRow(before, e.statistics[..m])
        {
          var st := e.statistics[m];
          var name := Replace(Lower(st.name.GetOr("")), ' ', '_');
          if name == "revenue_per_employee" {
            var (_, v) := LatestValue(st.data, None);
            row := row["RevenuePerEmployee" := v];
          } else if name == "wages_as_a_share_of_revenue" {
            var (_, v) := LatestValue(st.data, None);
            row := row["WagesShareOfRevenue" := v];
          }
          assert e.statistics[..m + 1][..m] == e.statistics[..m];
          m := m + 1;
        }
        assert e.statistics[..m] == e.statistics;
      }
      k := k + 1;
    }
    assert ratios[..k] == ratios;
  }

  /** `parse_segment_datapoints(code, response)` as the source runs it. */
  method ParseSegmentDatapoints(code: string, response: Response, parseStr: string -> Option<real>)
    returns (rows: seq<Row>)
    ensures rows == Normalize(code, response, parseStr)
  {
    // sections: lower-cased name -> body, the last repeat winning
    var sections: map<string, Body> := map[];
    var i := 0;
    while i < |response.sections|
      invariant 0 <= i <= |response.sections|
      invariant sections == SectionMap(response.sections[..i])
    {
      var s := response.sections[i];
      sections := sections[Lower(s.requestedSection.GetOr("")) := s.body.GetOr(EmptyBody)];
      assert response.sections[..i + 1][..i] == response.sections[..i];
      i := i + 1;
    }
    assert response.sections[..i] == response.sections;
    var cyo := Lookup(sections, "currentyearoverview");
    var keystats := Lookup(sections, "keystatistics");
    var keyratios := Lookup(sections, "keyratios");

    // cyo_map, with its iteration order
    var overview := OverviewEntries(cyo);
    var order: seq<string> := [];
    var cyoMap: map<string, OverviewEntry> := map[];
    i := 0;
    while i < |overview|
      invariant 0 <= i <= |overview|
      invariant OverviewIndex(order, cyoMap) == IndexOverview(overview[..i])
    {
      var entry := overview[i];
      if entry.segmentSize.Some? && entry.segmentSize.value != "" {
        var seg := entry.segmentSize.value;
        if seg !in cyoMap {
          order := order + [seg];
        }
        cyoMap := cyoMap[seg := entry];
      }
      assert overview[..i + 1][..i] == overview[..i];
      i := i + 1;
    }
    assert overview[..i] == overview;
    ghost var index := OverviewIndex(order, cyoMap);

    // one row per labelled key-statistics entry
    var entries := KeyStatistics(keystats);
    var ratios := KeyRatios(keyratios);
    rows := [];
    i := 0;
    while i < |entries|
      invariant 0 <= i <= |entries|
      invariant rows == SegmentRows(code, entries[..i], index, ratios, parseStr)
    {
      var segEntry := entries[i];
      assert entries[..i + 1][..i] == entries[..i];
      if segEntry.segmentSize.Some? && segEntry.segmentSize.value != "" {
        var seg := segEntry.segmentSize.value;
        var row, latestYear := CollectSeries(map["Code" := Str(code), "SegmentSize" := Str(seg)], segEntry.statistics);
        row := row["Year" := YearValue(latestYear)];
        if seg in cyoMap {
          row := WithOverview(row, cyoMap[seg]);
        }
        row := MergeRatios(row, ratios, seg);
        if "RevenuePerEmployee" !in row && Truthy(Get(row, "Revenue")) && Truthy(Get(row, "Employment")) {
          row := row["RevenuePerEmployee" := RevenuePerEmployee(row["Revenue"], row["Employment"], parseStr)];
        }
        rows := rows + [row];
      }
      i := i + 1;
    }
    assert entries[..i] == entries;

    // fallback: one row per overview entry
    if rows == [] {
      i := 0;
      while i < |order|
        invariant 0 <= i <= |order|
        invariant rows == FallbackRows(code, order[..i], cyoMap)
      {
        var seg := order[i];
        assert order[..i + 1][..i] == order[..i];
        rows := rows + [FallbackRow(code, seg, cyoMap[seg])];
        i := i + 1;
      }
      assert order[..i] == order;
    }
  }
}
