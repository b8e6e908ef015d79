# IBISWorld segment-benchmarking client, modelled in Dafny

This project models the core of `ibisworld_client`, a small Python client for the IBISWorld Segment Benchmarking API. The model has three parts:

- **The datapoint normaliser** (`parse.py`). It turns a sections response into flat rows, one per segment size. It looks up the sections by lower-cased name. It picks the latest `(Year, Value)` of every statistic series and maps the series names onto row fields by an ordered substring rule. It sets `Year` to the latest truthy year. It merges in the current-year overview and the key ratios by segment label, and computes `RevenuePerEmployee` when that field is missing. When no segment row results, it falls back to one row per overview entry.
- **The bulk exporter** (`bulk.py`). It fetches every report code in order and concatenates the normalised rows. It builds a header from the eleven common fields followed by the sorted extra keys. It projects every row onto that header.
- **The client's cache and credential logic** (`client.py`). This covers:
  - the cache keys and the file names derived from them;
  - saving and loading cache files;
  - the cache-then-fetch flow of `list_reports` and `get_segment_sections`;
  - the token decision of `_ensure_token`;
  - the `_post` sequence.

Files:

- `wrappers.dfy`: `Option` and `Result`.
- `json.dfy`: the loose JSON value, Python truthiness, and `float()`.
- `strings.dfy`: `lower`, `replace`, substring test, `join`, string order, and `sorted` on a set of strings.
- `parse.dfy`: the normaliser. The specification functions come first, then the loop program `ParseSegmentDatapoints`, which is proved equal to `Normalize`.
- `bulk.dfy`: the exporter. `ExportSegments` is proved equal to `ExportOf` and makes the calls `CallsMade` lists.
- `client.dfy`: the keys, the cache as a map, the token and post steps as functions, and the class `IbisWorldClient` whose methods are proved against those functions.
- `examples.dfy`: the sample inputs of the repository's tests and what the model gives for them.

How the model represents the source:

- A response is typed: sections, bodies, overview entries, statistic series and data points. A body that is not a dictionary is `NotDict`. A missing or falsy body is the empty dictionary.
- A row is a `map<string, Json>`, so the key order of row dicts is not modelled. The iteration order of `cyo_map` is modelled (`OverviewIndex.order`), because it decides the order of the fallback rows.
- In the exporter, the client is a function from the call's arguments to a response or a raised error. The CSV file is modelled by its content: nothing at all, or a header plus one record per row.
- In the client:
  - The cache directory is a map from file name to content. A file that fails to decode is `Corrupt`.
  - The API and the token endpoint are functions fixed at construction. Each gives the final decoded reply or the error raised.
  - A ghost log records every request sent.

Where the code behaves differently from the documented intent, the model follows the code:

- The segment cache key joins the sections in the given order; they are not sorted. Different requests can share a key (`SegmentKeyCollision`, `SegmentKeyOrder`).
- `_cache_path` is not injective: `a/b` and `a_b` name the same file. Saving one therefore overwrites the other (`CachePathCollision`, `SaveCollision`).
- An `Employment` of `0` is falsy, so no `RevenuePerEmployee` key is written at all. `None` is written only when a truthy employment converts to zero (for example the string `"0"`) or a conversion fails (`WithComputedRatioSpec`, `RevenuePerEmployeeCases`).
- Overview fields missing from an entry are written as `None`, not left out (`SegmentRowOverview`).
- `latest_year = max(latest_year or 0, year)` makes `Year` equal to `0` when every truthy year is negative (`LatestYearIsMax`).

## Model

| member | source | states |
|---|---|---|
| Parse.FirstWithYear | ibisworld_client/parse.py:11-14 | the index of the first data point whose `Year` equals the preferred year, with no earlier one having it; `len(data)` when none has it |
| Parse.MaxIndex | ibisworld_client/parse.py:16 | the index `max(data, key=lambda x: x.get("Year", 0))` picks: its key is not below any other, and every earlier key is strictly below it, so the first maximal point wins (a null `Year` is keyed as a missing one, 0, where the source raises `TypeError`) |
| Parse.LatestValueEmpty | ibisworld_client/parse.py:7-9 | empty `Data` gives `(None, None)` |
| Parse.LatestValuePreferred | ibisworld_client/parse.py:11-14 | a preferred year that occurs selects its first occurrence, even when later years exist |
| Parse.LatestValueMaximal | ibisworld_client/parse.py:15-17 | without a matching preferred year, the first point with the largest year (missing counts as 0; a null year is read the same way, see Left out) is selected |
| Parse.SectionMapKeys | ibisworld_client/parse.py:28-30 | the lookup has a key exactly when some section's lower-cased `RequestedSection` (or `""`) equals it |
| Parse.SectionMapLast | ibisworld_client/parse.py:28-30 | a repeated section name keeps the body of its last occurrence (a missing body becomes `{}`) |
| Parse.IndexOverview | ibisworld_client/parse.py:38-42 | the overview map's iteration order repeats no label and lists exactly the labels the map holds |
| Parse.IndexOverviewSpec | ibisworld_client/parse.py:38-42 | the map holds exactly the labels of labelled entries, iterated in order of first occurrence |
| Parse.IndexOverviewLast | ibisworld_client/parse.py:39-42 | a label maps to the last overview entry carrying it |
| Parse.Labelled | ibisworld_client/parse.py:47-50 | the entries that produce rows are exactly the input entries that carry a non-empty label |
| Parse.LabelledAppend | ibisworld_client/parse.py:47-50 | the filter keeps input order: the entries of `a + b` are those of `a` followed by those of `b` |
| Parse.LabelledSingle | ibisworld_client/parse.py:48-50 | a single entry is kept iff it carries a label (`if not seg: continue`) |
| Parse.FieldForRule | ibisworld_client/parse.py:61-71 | the ordered rule: "revenue" gives `Revenue`, else "employment" gives `Employment`, else "wages" gives `Wages`, else "establish" gives `Establishments` (each an iff); any other name is stored with spaces as `_` and never starts with a capital |
| Parse.TargetNotCapitalised | ibisworld_client/parse.py:56-71 | no series ever writes a capitalised field other than the four mapped ones |
| Parse.SeriesRowLastWins | ibisworld_client/parse.py:55-71 | each target field holds the latest value of the last series mapped to it |
| Parse.SeriesRowUntouched | ibisworld_client/parse.py:55-71 | a field no series maps to keeps its earlier value or absence |
| Parse.SeriesRowKeepsFixed | ibisworld_client/parse.py:52-71 | `Code`, `SegmentSize` and every other capitalised non-mapped field pass through the series loop unchanged |
| Parse.LatestYearIsMax | ibisworld_client/parse.py:54-59 | `Year` is absent iff no series has a truthy latest year; otherwise it is at least every truthy year and at least 0, and it is one of those years whenever it is not 0 |
| Parse.RatiosRowFlat | ibisworld_client/parse.py:86-96 | the nested key-ratio loops act as one loop over the series of every entry labelled with the segment, in order |
| Parse.RatioStatsRowOther | ibisworld_client/parse.py:89-96 | the ratio loop changes no field except `RevenuePerEmployee` and `WagesShareOfRevenue` |
| Parse.RatioStatsRowAbsent | ibisworld_client/parse.py:89-96 | a ratio field with no series named for it keeps its earlier value or absence |
| Parse.RatioStatsRowLastWins | ibisworld_client/parse.py:89-96 | a ratio field holds the latest value of the last series named for it |
| Parse.RevenuePerEmployeeCases | ibisworld_client/parse.py:100-103 | the computed ratio is `None` exactly when a conversion fails or the employment converts to 0, and otherwise is revenue divided by employment |
| Parse.WithComputedRatioSpec | ibisworld_client/parse.py:99-103 | the ratio is added exactly when it is missing and both `Revenue` and `Employment` are truthy; nothing else changes |
| Parse.SegmentRowsPerEntry | ibisworld_client/parse.py:47-52 | one row per labelled key-statistics entry, in input order |
| Parse.SegmentRowKeeps | ibisworld_client/parse.py:84-103 | after the overview step only the two ratio fields can still change |
| Parse.SegmentRowIdentity | ibisworld_client/parse.py:52-73 | every row has `Code` = the code, `SegmentSize` = the label and `Year` = the latest year or `None` |
| Parse.SegmentRowOverview | ibisworld_client/parse.py:76-82 | with an overview entry for the label, the five overview fields are its values (missing ones `None`); without one, none of them is present |
| Parse.SegmentRowRatioFromKeyRatios | ibisworld_client/parse.py:86-93 | `RevenuePerEmployee` is the latest value of the segment's last `revenue_per_employee` ratio series |
| Parse.SegmentRowRatioComputed | ibisworld_client/parse.py:99-103 | without such a series, `RevenuePerEmployee` is present iff the series gave truthy `Revenue` and `Employment`, and is then the computed ratio |
| Parse.SegmentRowWagesShareFromKeyRatios | ibisworld_client/parse.py:86-96 | `WagesShareOfRevenue` is the latest value of the segment's last `wages_as_a_share_of_revenue` ratio series |
| Parse.SegmentRowWagesShareAbsent | ibisworld_client/parse.py:86-96 | without such a series the row has no `WagesShareOfRevenue` key |
| Parse.FallbackRowsSpec | ibisworld_client/parse.py:108-116 | one fallback row per overview label in dict order, with exactly the six keys `Code`, `SegmentSize`, `AverageRevenue`, `TotalRevenue`, `MarketShare`, `Year` (`Year` = `None`) |
| Parse.NormalizeShape | ibisworld_client/parse.py:44-118 | the segment rows when there is any labelled key-statistics entry, otherwise the fallback rows |
| Parse.NormalizeWithoutSections | ibisworld_client/parse.py:27-35 | a response with neither a key-statistics nor an overview section gives no rows and no error |
| Parse.CollectSeries | ibisworld_client/parse.py:54-71 | the series loop builds exactly `SeriesRow` and `LatestYear` |
| Parse.MergeRatios | ibisworld_client/parse.py:86-96 | the key-ratio loops build exactly `RatiosRow` |
| Parse.ParseSegmentDatapoints | ibisworld_client/parse.py:20-118 | the loop program returns exactly `Normalize(code, response)` |
| Bulk.CollectRowsOk | ibisworld_client/bulk.py:15-19 | the export succeeds iff every call succeeds |
| Bulk.CollectRowsConcat | ibisworld_client/bulk.py:15-19 | the rows are the concatenation of each code's normalised rows, in input order |
| Bulk.CallsEveryCode | ibisworld_client/bulk.py:16-17 | when every call succeeds, the client is called once per code, in order, with country "US" and the given sections and cache flag |
| Bulk.CallsStopAtFailure | ibisworld_client/bulk.py:16-18 | the first failing call ends the export with its error, and no later call is made |
| Bulk.CollectPrefixFails | ibisworld_client/bulk.py:16-18 | once a prefix of the codes fails, the whole result and the call list equal that prefix's |
| Bulk.CommonDistinct | ibisworld_client/bulk.py:28 | the common header names are pairwise distinct |
| Bulk.HeaderShape | ibisworld_client/bulk.py:28-30 | the header starts with the common fields, followed by the extra keys in strictly increasing order |
| Bulk.HeaderKeys | ibisworld_client/bulk.py:29-30 | every key of every row is in the header, and every header name is common or some row's key |
| Bulk.HeaderNoDuplicates | ibisworld_client/bulk.py:28-30 | no header name repeats |
| Bulk.RecordSpec | ibisworld_client/bulk.py:36 | a record has one cell per header name: the row's value, or `""` when the row lacks it |
| Bulk.FileForSpec | ibisworld_client/bulk.py:21-36 | the file is empty (no header) iff there are no rows; otherwise it has the header and one record per row |
| Bulk.WriteTable | ibisworld_client/bulk.py:27-36 | the header and the record loop produce exactly `FileFor(rows)` |
| Bulk.ExportSegments | ibisworld_client/bulk.py:10-38 | the loop program returns exactly `ExportOf` (rows unchanged by writing, or the first error) and makes exactly the calls `CallsMade` lists |
| Client.CachePathSpec | ibisworld_client/client.py:81-83 | the file name is the key with every `/` and space replaced by `_`, then `.json`; it contains neither `/` nor a space |
| Client.SanitizeIdempotent | ibisworld_client/client.py:82 | sanitising twice is sanitising once |
| Client.CachePathInjectiveOnSafeKeys | ibisworld_client/client.py:82-83 | on keys without `/` or spaces, the file name determines the key |
| Client.CachePathCollision | ibisworld_client/client.py:82 | `a/b` and `a_b` are different keys with the same file |
| Client.SegmentKeyCollision | ibisworld_client/client.py:111 | code `1_2` with sections `[a]` and code `1` with `[2, a]` share a key |
| Client.SegmentKeyOrder | ibisworld_client/client.py:111 | the key depends on the order of the sections |
| Client.ReportListAndSegmentApart | ibisworld_client/client.py:100 | a report-list key and a segment key never name the same file |
| Client.LoadSaved | ibisworld_client/client.py:85-96 | loading right after saving returns the saved value |
| Client.SaveKeepsOthers | ibisworld_client/client.py:85-87 | saving leaves every key with a different file name as it was |
| Client.SaveCollision | ibisworld_client/client.py:82-87 | saving under `a/b` changes what `a_b` loads |
| Client.LoadAbsent | ibisworld_client/client.py:89-96 | a missing or undecodable file loads as `None`, never an error |
| Client.CacheMisses | ibisworld_client/client.py:101-104 | caching switched off, or a falsy cached value, is a miss |
| Client.SavedThenHit | ibisworld_client/client.py:101-108 | after a fetch is saved, the next cached lookup returns it unless it is falsy |
| Client.HeldTokenKept | ibisworld_client/client.py:43-44 | a held truthy token is returned with no exchange |
| Client.CredentialsRequired | ibisworld_client/client.py:45-60 | without a token, an exchange happens iff all three credentials are given; otherwise the call fails with nothing sent |
| Client.ExchangeOutcome | ibisworld_client/client.py:45-57 | an exchange succeeds iff the endpoint replies with an object whose `access_token` is truthy; that value is stored even when it is falsy and the call fails; an endpoint error or a reply that is not an object fails and leaves the held token as it was |
| Client.EnsureTokenStable | ibisworld_client/client.py:43-57 | a success returns the token now held, which is truthy, so a second call makes no exchange |
| Client.PostNeedsToken | ibisworld_client/client.py:62-79 | a post sends at most an exchange and then one API request, which carries a truthy bearer token, is last and gives the reply; with a held token it is the only request |
| Client.IbisWorldClient.constructor | ibisworld_client/client.py:24-40 | the client holds the given token, credentials and cache directory, and nothing has been sent |
| Client.IbisWorldClient.EnsureToken | ibisworld_client/client.py:42-60 | the token step: the returned value, the token stored (before the truthiness check) and the exchange sent |
| Client.IbisWorldClient.Post | ibisworld_client/client.py:74-79 | token first, then the request; the result, the token and the requests sent follow `PostOf`; the cache is untouched |
| Client.IbisWorldClient.SaveCache | ibisworld_client/client.py:85-87 | the key's file now holds the value; nothing else changes |
| Client.IbisWorldClient.LoadCache | ibisworld_client/client.py:89-96 | the stored value of the key's file, or `None` when it is missing or corrupt |
| Client.IbisWorldClient.CachedPost | ibisworld_client/client.py:101-108 | a truthy cached value is returned with no request and no write; otherwise the reply is saved under the key and returned, and an error leaves the cache as it was |
| Client.IbisWorldClient.ListReports | ibisworld_client/client.py:99-108 | the cache flow under `reportlist_<country>_<language>` with the report-list body |
| Client.IbisWorldClient.GetSegmentSections | ibisworld_client/client.py:110-119 | the cache flow under `segment_<country>_<code>_<sections joined by _>` with the sections body |
| Client.IbisWorldClient.GetUpdatedReports | ibisworld_client/client.py:121-123 | a plain post; the cache is neither read nor written |
| Examples.LatestRevenue | tests/test_parse.py:34 | the sample revenue series gives `(2025, 110000)` |
| Examples.PreferredRevenue | ibisworld_client/parse.py:11-14 | with preferred year 2024 the same series gives `(2024, 100000)` |
| Examples.SampleParsed | tests/test_parse.py:47-59 | the sample response gives one row: code, label, latest values, year 2025, overview figures and the computed ratio 110000/3 |
| Examples.BulkSample | tests/test_bulk.py:15-38 | two codes with overview-only responses give two rows and two records, the first with `Code` 32191 |
| Examples.ClientSampleKey | ibisworld_client/client.py:111 | the test's request is cached under `segment_US_32191_keystatistics` |
| Examples.ClientSample | tests/test_client.py:10-24 | with a held token and an empty cache, one POST with that token is sent, and its reply is the result |

## Left out

- HTTP transport (`requests.post`, `raise_for_status`, `resp.json()`) is not modelled. The API and the token endpoint are functions that give the final decoded reply or error.
- The `tenacity` retry of `_post` is not modelled: a failed exchange or post counts as one final error. The retry also re-runs `_ensure_token` and `_throttle`.
- `_throttle` reads the clock and sleeps, so it is not modelled.
- The environment-variable fallback and the directory creation in `__init__` are not modelled. The constructor takes the values after the fallback.
- JSON serialisation and file I/O are abstracted. A file is the decoded value, or `Corrupt` when it fails to decode. A stored JSON `null` loads as `None`, in the model as in the source.
- The cache directory path is not modelled: files are keyed by file name only.
- `csv.DictWriter` quoting and formatting are not modelled; a record is its list of cells.
- `float()` on strings is a parameter (`parseStr`), and division is exact real division, not IEEE floating point.
- `Strings.Lower`: the model's `Lower` maps only ASCII capitals; Python's `str.lower()` maps every Unicode capital.
- Rows are maps without key order: nothing the exporter writes depends on a row's key order, since the extra keys are sorted.
- Bulk.ExportSegments: the client's JSON reply reaches the exporter already decoded into the typed response, so how an untyped reply is read into it is not modelled.
- Bulk.ExportSegments: the exporter is generic over the client. It does not use `Client.IbisWorldClient`, so the cache flags it passes reach the client only as arguments of the recorded calls.
- Parse.ParseSegmentDatapoints: ill-typed input the code would crash on, such as a statistic that is not a dict, is outside the typed response.
- Parse.ParseSegmentDatapoints: a JSON `null` in place of `Sections`, `CurrentYearOverview`, `KeyStatistics`, a segment's `Statistics`, `KeyRatios` or a ratio entry's `Statistics` makes the source raise `TypeError` (`.get(key, [])` returns `None`, which the loop cannot iterate); the typed response has only lists there and cannot express it. A `null` `Data` is handled, as empty.
- Parse.LatestValue: a null `Year` is read as a missing one (key 0), where the source raises `TypeError` in `max` whenever `Data` has two or more items.
- `cli.py` is not part of this model.
