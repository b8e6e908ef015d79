/**
  The bulk exporter of `ibisworld_client/bulk.py`: fetch the sections of each
  report code, normalise each response, concatenate the rows, and lay them
  out as a table with a fixed header prefix followed by the sorted extra keys.

  The client is a function from the arguments of a `get_segment_sections` call
  to what that call gives back (a response or a raised error). The CSV file is
  modelled by its content: nothing, or a header and one record per row.
 */
module Bulk {
  import opened Wrappers
  import opened Json
  import opened Strings
  import opened Parse

  /** The arguments of one `client.get_segment_sections(...)` call. */
  datatype FetchRequest = FetchRequest(code: string, sections: seq<string>, country: string, useCache: bool)

  /** What one client call gives: a response, or an error that aborts the export. */
  datatype Fetched = Fetched(response: Response) | FetchFailed(error: string)

  /** The content of the output file. */
  datatype CsvFile = EmptyFile | Table(header: seq<string>, records: seq<seq<Json>>)

  datatype Export = Export(rows: seq<Row>, file: CsvFile)

  /** The header's fixed prefix. */
  const Common: seq<string> := ["Code", "SegmentSize", "Year", "Revenue", "Employment", "Wages",
                                "Establishments", "AverageRevenue", "TotalRevenue", "MarketShare",
                                "RevenuePerEmployee"]

  /** The call the exporter makes for `code`. */
  function RequestFor(code: string, sections: seq<string>, useCache: bool): FetchRequest {
    FetchRequest(code, sections, "US", useCache)
  }

  /** How one response becomes rows; the exporter uses `parse_segment_datapoints`. */
  type Normalizer = (string, Response) -> seq<Row>

  /** `parse_segment_datapoints` with a given float conversion, as a `Normalizer`. */
  function ParseWith(parseStr: string -> Option<real>): Normalizer {
    (code: string, response: Response) => Normalize(code, response, parseStr)
  }

  /** The rows accumulated over `codes`, or the first error. */
  function CollectRows(fetch: FetchRequest -> Fetched, codes: seq<string>, sections: seq<string>,
                       useCache: bool, normalize: Normalizer): Result<seq<Row>, string>
  {
    if codes == [] then Ok([])
    else
      match CollectRows(fetch, codes[..|codes| - 1], sections, useCache, normalize)
      case Err(e) => Err(e)
      case Ok(rows) =>
        var code := codes[|codes| - 1];
        match fetch(RequestFor(code, sections, useCache))
        case FetchFailed(e) => Err(e)
        case Fetched(response) => Ok(rows + normalize(code, response))
  }

  /** The calls made: one per code in order, stopping after the first that fails. */
  function CallsMade(fetch: FetchRequest -> Fetched, codes: seq<string>, sections: seq<string>,
                     useCache: bool, normalize: Normalizer): seq<FetchRequest>
  {
    if codes == [] then []
    else
      var init := codes[..|codes| - 1];
      if CollectRows(fetch, init, sections, useCache, normalize).Err? then CallsMade(fetch, init, sections, useCache, normalize)
      else CallsMade(fetch, init, sections, useCache, normalize) + [RequestFor(codes[|codes| - 1], sections, useCache)]
  }

  /** The concatenation of a sequence of row lists. */
  function Flatten(parts: seq<seq<Row>>): seq<Row> {
    if parts == [] then [] else parts[0] + Flatten(parts[1..])
  }

  lemma {:induction false} FlattenAppend(parts: seq<seq<Row>>, last: seq<Row>)
    ensures Flatten(parts + [last]) == Flatten(parts) + last
  {
    if parts != [] {
      assert (parts + [last])[1..] == parts[1..] + [last];
      FlattenAppend(parts[1..], last);
    }
  }

  predicate AllFetched(fetch: FetchRequest -> Fetched, codes: seq<string>, sections: seq<string>, useCache: bool) {
    forall i :: 0 <= i < |codes| ==> fetch(RequestFor(codes[i], sections, useCache)).Fetched?
  }

  /** The normalised rows of each code, in input order, when every call succeeds. */
  function PerCode(fetch: FetchRequest -> Fetched, codes: seq<string>, sections: seq<string>,
                   useCache: bool, normalize: Normalizer): seq<seq<Row>>
    requires AllFetched(fetch, codes, sections, useCache)
  {
    seq(|codes|, i requires 0 <= i < |codes| =>
      normalize(codes[i], fetch(RequestFor(codes[i], sections, useCache)).response))
  }

  /** The export succeeds exactly when every call succeeds. */
  lemma {:induction false} CollectRowsOk(fetch: FetchRequest -> Fetched, codes: seq<string>, sections: seq<string>,
                                         useCache: bool, normalize: Normalizer)
    ensures CollectRows(fetch, codes, sections, useCache, normalize).Ok? <==> AllFetched(fetch, codes, sections, useCache)
  {
    if codes != [] {
      var init := codes[..|codes| - 1];
      CollectRowsOk(fetch, init, sections, useCache, normalize);
      assert forall i :: 0 <= i < |init| ==> init[i] == codes[i];
      if AllFetched(fetch, init, sections, useCache) && !AllFetched(fetch, codes, sections, useCache) {
        assert !fetch(RequestFor(codes[|codes| - 1], sections, useCache)).Fetched?;
      }
    }
  }

  /** One step of the fetch loop. */
  lemma CollectRowsStep(fetch: FetchRequest -> Fetched, codes: seq<string>, sections: seq<string>,
                        useCache: bool, normalize: Normalizer)
    requires codes != []
    requires CollectRows(fetch, codes[..|codes| - 1], sections, useCache, normalize).Ok?
    requires fetch(RequestFor(codes[|codes| - 1], sections, useCache)).Fetched?
    ensures CollectRows(fetch, codes, sections, useCache, normalize)
      == Ok(CollectRows(fetch, codes[..|codes| - 1], sections, useCache, normalize).value
            + normalize(codes[|codes| - 1], fetch(RequestFor(codes[|codes| - 1], sections, useCache)).response))
  {
  }

  lemma PerCodeStep(fetch: FetchRequest -> Fetched, codes: seq<string>, sections: seq<string>,
                    useCache: bool, normalize: Normalizer)
    requires codes != [] && AllFetched(fetch, codes, sections, useCache)
    ensures AllFetched(fetch, codes[..|codes| - 1], sections, useCache)
    ensures PerCode(fetch, codes, sections, useCache, normalize)
      == PerCode(fetch, codes[..|codes| - 1], sections, useCache, normalize)
         + [normalize(codes[|codes| - 1], fetch(RequestFor(codes[|codes| - 1], sections, useCache)).response)]
  {
    var init := codes[..|codes| - 1];
    assert forall i :: 0 <= i < |init| ==> init[i] == codes[i];
    var whole := PerCode(fetch, codes, sections, useCache, normalize);
    var parts := PerCode(fetch, init, sections, useCache, normalize);
    var tail := normalize(codes[|codes| - 1], fetch(RequestFor(codes[|codes| - 1], sections, useCache)).response);
    forall i | 0 <= i < |whole|
      ensures whole[i] == (parts + [tail])[i]
    {
      if i < |init| { assert init[i] == codes[i]; }
    }
  }

  /**
    When every call succeeds, the rows are the normalised rows of each code
    concatenated in input order.
   */
  lemma {:induction false} CollectRowsConcat(fetch: FetchRequest -> Fetched, codes: seq<string>, sections: seq<string>,
                                             useCache: bool, normalize: Normalizer)
    requires AllFetched(fetch, codes, sections, useCache)
    ensures CollectRows(fetch, codes, sections, useCache, normalize)
      == Ok(Flatten(PerCode(fetch, codes, sections, useCache, normalize)))
  {
    if codes != [] {
      PerCodeStep(fetch, codes, sections, useCache, normalize);
      var init := codes[..|codes| - 1];
      CollectRowsConcat(fetch, init, sections, useCache, normalize);
      CollectRowsStep(fetch, codes, sections, useCache, normalize);
      FlattenAppend(PerCode(fetch, init, sections, useCache, normalize),
                    normalize(codes[|codes| - 1], fetch(RequestFor(codes[|codes| - 1], sections, useCache)).response));
    }
  }

  /** When every call succeeds, every code was fetched once, in order, with country "US". */
  lemma {:induction false} CallsEveryCode(fetch: FetchRequest -> Fetched, codes: seq<string>, sections: seq<string>,
                                          useCache: bool, normalize: Normalizer)
    requires AllFetched(fetch, codes, sections, useCache)
    ensures CallsMade(fetch, codes, sections, useCache, normalize)
      == seq(|codes|, i requires 0 <= i < |codes| => RequestFor(codes[i], sections, useCache))
  {
    if codes != [] {
      var init := codes[..|codes| - 1];
      assert forall i :: 0 <= i < |init| ==> init[i] == codes[i];
      assert AllFetched(fetch, init, sections, useCache);
      CallsEveryCode(fetch, init, sections, useCache, normalize);
      CollectRowsOk(fetch, init, sections, useCache, normalize);
    }
  }

  /** When a call fails, no call is made after it: the calls are a prefix ending in the first failure. */
  lemma {:induction false} CallsStopAtFailure(fetch: FetchRequest -> Fetched, codes: seq<string>, sections: seq<string>,
                                              useCache: bool, normalize: Normalizer, f: nat)
    requires f < |codes| && fetch(RequestFor(codes[f], sections, useCache)).FetchFailed?
    requires AllFetched(fetch, codes[..f], sections, useCache)
    ensures CallsMade(fetch, codes, sections, useCache, normalize)
      == seq(f + 1, i requires 0 <= i <= f => RequestFor(codes[i], sections, useCache))
    ensures CollectRows(fetch, codes, sections, useCache, normalize)
      == Err(fetch(RequestFor(codes[f], sections, useCache)).error)
  {
    var prefix := codes[..f + 1];
    assert prefix[..f] == codes[..f];
    CallsEveryCode(fetch, codes[..f], sections, useCache, normalize);
    CollectRowsOk(fetch, codes[..f], sections, useCache, normalize);
    assert CollectRows(fetch, prefix, sections, useCache, normalize).Err?;
    CollectPrefixFails(fetch, codes, sections, useCache, normalize, f + 1);
  }

  /** `{k for r in rows for k in r.keys() if k not in common}`. */
  function Extras(rows: seq<Row>): set<string> {
    set r, k | r in rows && k in r && k !in Common :: k
  }

  /** `common + sorted(extras)`. */
  function Header(rows: seq<Row>): seq<string> {
    Common + SortedList(Extras(rows))
  }

  /** The header starts with the common fields; the extra names after them are strictly increasing. */
  lemma HeaderShape(rows: seq<Row>)
    ensures Header(rows)[..|Common|] == Common
    ensures Header(rows)[|Common|..] == SortedList(Extras(rows))
    ensures StrictlySorted(Header(rows)[|Common|..])
  {
    assert Header(rows)[|Common|..] == SortedList(Extras(rows));
  }

  /** The header names every key of every row, and nothing that is neither common nor a row's key. */
  lemma HeaderKeys(rows: seq<Row>)
    ensures forall i, k :: 0 <= i < |rows| && k in rows[i] ==> k in Header(rows)
    ensures forall k :: k in Header(rows) ==> k in Common || exists i :: 0 <= i < |rows| && k in rows[i]
  {
    var extras := SortedList(Extras(rows));
    forall i, k | 0 <= i < |rows| && k in rows[i]
      ensures k in Header(rows)
    {
      if k !in Common {
        assert rows[i] in rows;
        assert k in Extras(rows);
        assert k in extras;
      }
    }
    forall k | k in Header(rows) && k !in Common
      ensures exists i :: 0 <= i < |rows| && k in rows[i]
    {
      assert k in extras;
      var r :| r in rows && k in r;
      var i :| 0 <= i < |rows| && rows[i] == r;
    }
  }

  /** The common field names are pairwise distinct: each has its own length or first letter. */
  lemma CommonDistinct()
    ensures NoDuplicates(Common)
  {
    forall i, j | 0 <= i < j < |Common|
      ensures Common[i] != Common[j]
    {
      assert |Common[i]| != |Common[j]| || Common[i][0] != Common[j][0];
    }
  }

  /** Appending strictly increasing names that are all new keeps a list free of duplicates. */
  lemma AppendNoDuplicates(a: seq<string>, b: seq<string>)
    requires NoDuplicates(a) && StrictlySorted(b)
    requires forall k :: k in b ==> k !in a
    ensures NoDuplicates(a + b)
  {
    var h := a + b;
    forall i, j | 0 <= i < j < |h|
      ensures h[i] != h[j]
    {
      if j < |a| {
        assert h[i] == a[i] && h[j] == a[j];
      } else if i < |a| {
        assert h[i] == a[i] && h[j] == b[j - |a|];
        assert a[i] in a && b[j - |a|] in b;
      } else {
        assert h[i] == b[i - |a|] && h[j] == b[j - |a|];
        assert Less(b[i - |a|], b[j - |a|]);
        LessIrreflexive(h[i]);
      }
    }
  }

  /** No name appears twice in the header. */
  lemma HeaderNoDuplicates(rows: seq<Row>)
    ensures NoDuplicates(Header(rows))
  {
    CommonDistinct();
    var extras := SortedList(Extras(rows));
    forall k | k in extras
      ensures k !in Common
    {
      assert k in Extras(rows);
    }
    AppendNoDuplicates(Common, extras);
  }

  /** `{k: r.get(k, "") for k in headers}`, as the cells of one CSV record in header order. */
  function Record(row: Row, header: seq<string>): seq<Json> {
    if header == [] then []
    else Record(row, header[..|header| - 1])
         + [if header[|header| - 1] in row then row[header[|header| - 1]] else Str("")]
  }

  /** A record has one cell per header name: the row's value, or "" when the row lacks the key. */
  lemma {:induction false} RecordSpec(row: Row, header: seq<string>)
    ensures |Record(row, header)| == |header|
    ensures forall j :: 0 <= j < |header| ==>
      Record(row, header)[j] == if header[j] in row then row[header[j]] else Str("")
  {
    if header != [] {
      RecordSpec(row, header[..|header| - 1]);
    }
  }

  /** The file content for the accumulated rows. */
  function FileFor(rows: seq<Row>): CsvFile {
    if rows == [] then EmptyFile
    else Table(Header(rows), seq(|rows|, i requires 0 <= i < |rows| => Record(rows[i], Header(rows))))
  }

  /** No rows: an empty file with no header. Otherwise one record per row. */
  lemma FileForSpec(rows: seq<Row>)
    ensures rows == [] <==> FileFor(rows) == EmptyFile
    ensures rows != [] ==> |FileFor(rows).records| == |rows| && FileFor(rows).header == Header(rows)
  {
  }

  /** `export_segments(client, codes, sections, out, use_cache)`, returning also the calls made. */
  function ExportOf(fetch: FetchRequest -> Fetched, codes: seq<string>, sections: seq<string>,
                    useCache: bool, parseStr: string -> Option<real>): Result<Export, string>
  {
    match CollectRows(fetch, codes, sections, useCache, ParseWith(parseStr))
    case Err(e) => Err(e)
    case Ok(rows) => Ok(Export(rows, FileFor(rows)))
  }

  /**
    `export_segments` as the source runs it: the fetch loop, then the header,
    then the record loop. `calls` lists the client calls in the order made.
   */
  method ExportSegments(fetch: FetchRequest -> Fetched, codes: seq<string>, sections: seq<string>,
                        useCache: bool, parseStr: string -> Option<real>)
    returns (result: Result<Export, string>, calls: seq<FetchRequest>)
    ensures result == ExportOf(fetch, codes, sections, useCache, parseStr)
    ensures calls == CallsMade(fetch, codes, sections, useCache, ParseWith(parseStr))
  {
    var rows: seq<Row> := [];
    calls := [];
    var i := 0;
    while i < |codes|
      invariant 0 <= i <= |codes|
      invariant CollectRows(fetch, codes[..i], sections, useCache, ParseWith(parseStr)) == Ok(rows)
      invariant calls == CallsMade(fetch, codes[..i], sections, useCache, ParseWith(parseStr))
    {
      var code := codes[i];
      assert codes[..i + 1][..i] == codes[..i];
      var request := RequestFor(code, sections, useCache);
      calls := calls + [request];
      var data := fetch(request);
      if data.FetchFailed? {
        result := Err(data.error);
        assert CollectRows(fetch, codes[..i + 1], sections, useCache, ParseWith(parseStr)) == Err(data.error);
        CollectPrefixFails(fetch, codes, sections, useCache, ParseWith(parseStr), i + 1);
        return;
      }
      var parsed := ParseSegmentDatapoints(code, data.response, parseStr);
      rows := rows + parsed;
      i := i + 1;
    }
    assert codes[..i] == codes;
    if rows == [] {
      result := Ok(Export(rows, EmptyFile));
      return;
    }
    var file := WriteTable(rows);
    result := Ok(Export(rows, file));
  }

  /** The header, then one record per row in order, as a non-empty export writes them. */
  method WriteTable(rows: seq<Row>) returns (file: CsvFile)
    requires rows != []
    ensures file == FileFor(rows)
  {
    var header := Common + SortedList(Extras(rows));
    var records: seq<seq<Json>> := [];
    var i := 0;
    while i < |rows|
      invariant 0 <= i <= |rows|
      invariant records == seq(i, j requires 0 <= j < i => Record(rows[j], header))
    {
      records := records + [Record(rows[i], header)];
      i := i + 1;
    }
    file := Table(header, records);
  }

  /** Once a prefix of the codes fails, the whole export fails the same way and makes no further call. */
  lemma {:induction false} CollectPrefixFails(fetch: FetchRequest -> Fetched, codes: seq<string>, sections: seq<string>,
                                              useCache: bool, normalize: Normalizer, n: nat)
    requires n <= |codes| && CollectRows(fetch, codes[..n], sections, useCache, normalize).Err?
    ensures CollectRows(fetch, codes, sections, useCache, normalize) == CollectRows(fetch, codes[..n], sections, useCache, normalize)
    ensures CallsMade(fetch, codes, sections, useCache, normalize) == CallsMade(fetch, codes[..n], sections, useCache, normalize)
    decreases |codes| - n
  {
    if n < |codes| {
      assert codes[..n + 1][..n] == codes[..n];
      CollectPrefixFails(fetch, codes, sections, useCache, normalize, n + 1);
    } else {
      assert codes[..n] == codes;
    }
  }
}
