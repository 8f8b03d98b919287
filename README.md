# Apartment-transaction ETL job, modelled in Dafny

The job fetches one month of apartment sale records for one region from a
paginated XML web API. It reads `totalCount` from the first page and turns
it into a page count with `ceil(totalCount / 10)`. It then requests pages
1..N in order with otherwise fixed query parameters. Every item element of
every page becomes one record with the 24 columns of the `dtypes` schema.
The records go into a table whose columns follow the schema order. The
transaction amount column (`거래금액`) is coerced to int64 and every other
column to string. Uploading the table is not modelled.

The modules follow the script's parts:

- `Wrappers`, `Errors`: `Option`, `Result` and the exceptions the job can
  raise (transport failure, `ConnectionError`, XML parse error,
  `TypeError`, `ValueError`, `AttributeError`, int64 overflow).
- `Schema`: `dtypes` as an ordered list of (name, type) entries, with
  `dict.get` as `Get`.
- `Numbers`: the ceiling division, `str.replace(",", "")`, and `int()` on
  text.
- `Xml`: the parsed document as seen through ElementTree's `find` and
  `findall("./body/items/")`.
- `Extract`: one row per item element.
- `Frame`: the pandas table, with `convert_df_types` as a class whose
  method rewrites the columns in place, one at a time.
- `Api`: `BaseModelPublicData` as the class `PublicData`. Its parameters
  and last response are fields the methods update. `get_requests` and
  `get_total_page_count` are its methods.
- `Paging`: the generic bookkeeping of the page loop. It covers the
  outcomes of pages 1..n, the rows they add up to, and how many pages are
  requested before the first failure.
- `Etl`: specification functions for a whole run (`RunSpec`,
  `RunRequests`) and the properties of a run.
- `EtlRun`: `run_etl` itself. It has the page loop and the item loop as
  `while` loops, and each is proved equal to the specification
  functions.

The HTTP transport is a parameter. A `Server` maps each query to the
response it gives, meaning the status and the parsed XML document (`None`
when the body is not well-formed). A query missing from the map is a
transport failure. Every GET is recorded in the ghost field
`PublicData.Requested`, so the requests a run issues can be stated and
proved.

Some inputs are handled in ways one might not expect. The model does
what the code does:

- **No `totalCount` under `<body>`.** This is not treated as an error.
  The code keeps `total_count = 0`, so there are no pages and the table
  is empty (`MissingTotalCountMeansNoPages`, `ZeroPages`).
- **No `<body>` during the count.** The code iterates `None`, which
  raises `TypeError`.
- **An element that is present but has no text.** ElementTree gives
  `None`, not `""`. For the amount, `None.replace` raises
  `AttributeError`. For any other column the `None` goes into the row and
  survives the string coercion as a missing value.
- **A page without an `<items>` container.** `findall` returns no
  elements, so the page adds no rows. It is not a parse error.
- **An empty amount text.** When the amount element is absent, its text
  is `""`, and the int64 coercion of `""` fails. The whole run then fails
  (`EmptyAmountFails`).
- **Page 1 is requested twice:** once for the count and once as the first
  page of the loop.

## Model

| member | source | states |
|---|---|---|
| Schema.GetEntry | etl/etl_script.py:113 | with distinct keys, `dtypes.get(key)` is the type at the key's position, and it is None exactly when no entry has that key |
| Schema.Get | etl/etl_script.py:113 | `dict.get(key)` is None exactly when no entry has the key |
| Schema.SchemaShape | etl/etl_script.py:45-70 | the schema has 24 entries with pairwise distinct names; the amount comes first and is int64; every other entry is a string |
| Schema.FieldsDistinct | etl/etl_script.py:45-70 | the column names `dtypes.keys()` are pairwise distinct and include the amount column |
| Schema.TypeOf | etl/etl_script.py:113 | a name has a type iff it is a schema column; the type is int64 iff the name is the amount column, and string iff it is any other schema column |
| Schema.SchemaTypes | etl/etl_script.py:45-70 | every schema column maps to int64 if it is the amount column and to string otherwise |
| Numbers.CeilDiv | etl/etl_script.py:105 | for a positive page size p, the result r is the least count with (r-1)·p < t ≤ r·p |
| Numbers.CeilDivUnique | etl/etl_script.py:105 | any r with (r-1)·p < t ≤ r·p equals the ceiling division, so the ceiling is unique |
| Numbers.StripCommas | etl/etl_script.py:197 | the result contains no comma |
| Numbers.StripCommasKeeps | etl/etl_script.py:197 | text without a comma is returned unchanged |
| Numbers.StripCommasCounts | etl/etl_script.py:197 | every character other than a comma occurs in the result exactly as often as in the input |
| Numbers.StripCommasAppend | etl/etl_script.py:197 | removing commas distributes over concatenation, so the order of the remaining characters is kept |
| Numbers.StripCommasExample | etl/etl_script.py:197 | "1,234,000" becomes "1234000" |
| Numbers.Trim | etl/etl_script.py:105 | the text `int()` parses has no leading or trailing white space and is no longer than the input |
| Numbers.TrimSplit | etl/etl_script.py:105 | the input is some white space, then the trimmed text, then some white space, in that order |
| Numbers.TrimSurrounding | etl/etl_script.py:105 | white space around a text with no white space at either end is exactly what is removed |
| Numbers.ParseDecimal | etl/etl_script.py:105 | `int()` of a plain run of digits is its decimal value, and a text with no digit at all, "" included, is not an integer |
| Numbers.ParseDecimalSurrounded | etl/etl_script.py:105 | white space around the text does not change what `int()` reads from it |
| Numbers.ParseDecimalShape | etl/etl_script.py:105 | every text `int()` accepts is white space, an optional `-` or `+`, a non-empty run of ASCII digits and white space, and its value is the digits' value, negated under `-`; so "1.5", "12a", "1 000" and "--5" are rejected |
| Numbers.ParseSigned | etl/etl_script.py:105 | a sign followed by a run of digits reads as the digits' value, negated under `-` |
| Numbers.RejectsExamples | etl/etl_script.py:105 | "1.5", "12a", "1 000" and "--5" are not integers |
| Numbers.ShowNat | etl/etl_script.py:113 | the decimal text of a natural number is a non-empty digit string without a leading zero (except for 0) |
| Numbers.DigitsValueShowNat | etl/etl_script.py:113 | reading back the decimal text of n gives n |
| Numbers.ParseShowInt | etl/etl_script.py:113 | `int(str(n)) == n` for every integer n |
| Numbers.LeadingZerosExample | etl/etl_script.py:113 | "01111" parses as 1111 and 1111 prints as "1111", so an int64 coercion of a code would lose its leading zero |
| Xml.Find | etl/etl_script.py:169-193 | `find(tag)` is None iff no child has the tag; otherwise it is the first child with that tag |
| Xml.Tagged | etl/etl_script.py:168 | exactly the children with the tag are selected: every selected element is such a child, every such child is selected, none when no child has it |
| Xml.TaggedAppend | etl/etl_script.py:168 | selecting from two lists of children in turn is the two selections in turn, so document order is kept |
| Xml.TaggedOne | etl/etl_script.py:168 | when exactly one child has the tag, the selection is that child alone |
| Xml.Items | etl/etl_script.py:168 | a document without `<body>` has no items |
| Xml.ItemsOfOnlyBody | etl/etl_script.py:168 | with exactly one `<body>` holding exactly one `<items>`, the items are that element's children in document order, whatever elements surround them |
| Extract.FieldText | etl/etl_script.py:169-193 | a missing child gives ""; otherwise the result is the text of the first child with that tag |
| Extract.ExtractRow | etl/etl_script.py:168-222 | a row is built iff the amount element does not have a None text; otherwise the error is AttributeError |
| Extract.RowShape | etl/etl_script.py:195-222 | a row's keys are exactly the 24 schema columns, and its amount is the item's amount text with the commas removed |
| Extract.FieldCount | etl/etl_script.py:45-70 | the schema names 24 distinct columns |
| Extract.MissingFieldIsEmpty | etl/etl_script.py:169-193 | a schema column with no matching child reads as "" and is never an error, the amount included |
| Extract.TextCopied | etl/etl_script.py:169-222 | every non-amount column holds the first matching child's text unchanged |
| Extract.ExtractRows | etl/etl_script.py:168-222 | a page's rows are built iff every item's row is built; otherwise the error is AttributeError |
| Extract.ExtractRowsValues | etl/etl_script.py:168-222 | a page gives one row per item, and the i-th row comes from the i-th item |
| Extract.ExtractRowsStops | etl/etl_script.py:168-222 | once an item fails, the page fails with that error and no later item changes the outcome |
| Api.Request | etl/etl_script.py:83-92 | the result is Ok iff the server answers the query with status 200, and then it is that response; a missing answer is a transport error; any other status is ConnectionError |
| Api.TotalCountOf | etl/etl_script.py:99-103 | the count is unset exactly when no child of `<body>` is tagged totalCount; otherwise it is the text of the first such child |
| Api.CountToInt | etl/etl_script.py:98-105 | an unset count is 0; a `None` text is TypeError; a text converts iff `int()` accepts it, to that value, and otherwise the error is ValueError |
| Api.PageCountOf | etl/etl_script.py:95-108 | a status other than 200 is ConnectionError; a body that does not parse is a parse error; no `<body>` or a `None` count text is TypeError; a count text that is not an integer is ValueError |
| Api.TotalPageCount | etl/etl_script.py:95-108 | an unanswered page-1 query is a transport error; then, for the page-1 answer: a status other than 200 is ConnectionError, an unparsable body a parse error, a missing `<body>` TypeError |
| Api.PageCountIsCeiling | etl/etl_script.py:99-105 | when the page-1 answer has a totalCount text that parses to t, `get_total_page_count` succeeds with the least r with (r-1)·10 < t ≤ r·10; t = 0 gives 0 pages and t ≥ 0 gives r ≥ 0 |
| Api.MissingTotalCountMeansNoPages | etl/etl_script.py:98-105 | when the page-1 answer's `<body>` has no totalCount child, `get_total_page_count` returns 0 |
| Api.PageCountOf25 | etl/etl_script.py:105 | when the page-1 answer advertises a total of 25, `get_total_page_count` returns 3 |
| Api.PublicData.constructor | etl/etl_script.py:73-80 | the record holds the given headers, URL and parameters, with no response yet |
| Api.PublicData.GetRequests | etl/etl_script.py:83-92 | the outcome is `Request` for the current parameters, and exactly one GET with those parameters is recorded |
| Api.PublicData.GetTotalPageCount | etl/etl_script.py:95-108 | the loop over `<body>`'s children finds the count; the result equals `TotalPageCount`; one GET is recorded; the response field is set exactly when the status is 200 |
| Paging.ConcatNext | etl/etl_script.py:154-166 | after successful pages 1..k, page k+1's rows follow theirs, or its error ends the run; page k+1 is requested |
| Paging.ConcatStops | etl/etl_script.py:154-166 | once a page fails, the run's outcome is that failure and no later page is requested |
| Paging.StopsAtFailure | etl/etl_script.py:154-166 | all pages are requested when the run succeeds; otherwise the pages up to and including the first failing one are requested, and the run's error is that page's error |
| Paging.InPageOrder | etl/etl_script.py:154-222 | the rows of pages 1..k are a prefix of the rows of all pages |
| Frame.ColumnOf | etl/etl_script.py:225 | a column of the table built from the rows has one cell per row |
| Frame.FrameData | etl/etl_script.py:225 | the table built from the rows has exactly the listed columns, each untyped with one cell per row |
| Frame.ColumnOfItems | etl/etl_script.py:168-225 | cell i of a column is that field of the row of the i-th item: the text read from the item, and for the amount that text without commas |
| Frame.CellToInt | etl/etl_script.py:113 | a cell converts to int64 iff it holds an integer text within the int64 range, and then to that integer |
| Frame.CellsToInt | etl/etl_script.py:113 | a column converts iff every cell converts; the values are then the cells' values in order; otherwise the error is that of some failing cell |
| Frame.Coerce | etl/etl_script.py:113 | coercion keeps the column's length; a string coercion never fails and keeps the text unchanged, leading zeros included; an int64 coercion yields an integer column or fails |
| Frame.ConvertColumns | etl/etl_script.py:111-113 | the conversion keeps the set of columns |
| Frame.ConvertColumnsStops | etl/etl_script.py:112-113 | once a column fails, later columns do not change the outcome |
| Frame.ConvertColumnsOk | etl/etl_script.py:111-113 | with distinct names, a successful conversion maps every listed column to its coercion and leaves every other column as it was |
| Frame.ConvertColumnsFails | etl/etl_script.py:111-113 | with distinct names, the conversion succeeds iff every listed column coerces |
| Frame.ConvertFailsOnAmount | etl/etl_script.py:111-113 | under the schema's types, the conversion succeeds iff the amount column coerces to int64 |
| Frame.CoerceAmountColumn | etl/etl_script.py:113 | the amount column of the table built from the rows coerces iff all its cells convert, and then to their values |
| Frame.ConvertRowsFails | etl/etl_script.py:111-113 | converting the table built from the rows succeeds iff every amount cell converts to int64 |
| Frame.CoerceTextColumns | etl/etl_script.py:113 | every string column of the table built from the rows coerces to the row texts, unchanged |
| Frame.ConvertRowsOk | etl/etl_script.py:111-113 | when every amount converts, the amount column holds the parsed amounts, every other column holds the rows' texts unchanged, and every column has one entry per row |
| Frame.ConvertNext | etl/etl_script.py:112-113 | converting one more column is the conversion so far followed by that column's coercion |
| Frame.DataFrame.constructor | etl/etl_script.py:225 | the table has the given column order and one column per name, built from the rows |
| Frame.DataFrame.ConvertTypes | etl/etl_script.py:111-113 | the in-place loop leaves the columns and the error exactly as `ConvertColumns` of the old columns; the column order is unchanged |
| Etl.ParamsFor | etl/etl_script.py:140-161 | every request uses page size 10, region 11110 and period 202301; only `pageNo` varies |
| Etl.PageRows | etl/etl_script.py:163-222 | a failed request gives its error; an unparsable body a parse error; a page that yields rows was answered with status 200, parsed, and gives one row per item; any other failure is AttributeError |
| Etl.Outcomes | etl/etl_script.py:154-166 | there is one outcome per page of the loop |
| Etl.LoopPages | etl/etl_script.py:154 | `range(1, total + 1)` runs over `total` pages, and over none when total is below 1 |
| Etl.BuildTable | etl/etl_script.py:225-229 | building and converting the table succeeds iff every amount cell converts to int64, and then the columns follow the schema order |
| Etl.RunCountFails | etl/etl_script.py:152 | proof step for `RunEtl`: `RunSpec` and `RunRequests` unfolded for a failed count, giving that error after the single page-1 request |
| Etl.RunAfterCount | etl/etl_script.py:152-229 | proof step for `RunEtl`: `RunSpec` and `RunRequests` unfolded after a count of `total`, giving the page loop's requests and outcome, then the table build |
| Etl.OutcomesPrefix | etl/etl_script.py:154 | proof step: the outcomes of pages 1..k are the first k outcomes of pages 1..n |
| Etl.RowsInPageOrder | etl/etl_script.py:154-222 | when pages 1..n all succeed, the rows of pages 1..k are a prefix of the rows of pages 1..n |
| Etl.RowCount | etl/etl_script.py:154-222 | when pages 1..n succeed, there are exactly as many rows as item elements on those pages |
| Etl.RequestList | etl/etl_script.py:152-164 | proof step for `RequestsAscend`: the count request and m page requests are page 1 followed by pages 1..m in ascending order |
| Etl.RequestsAscend | etl/etl_script.py:152-164 | a run requests page 1 for the count, then pages 1, 2, ... in ascending order with the other parameters fixed, and never more pages than the count; a failed count means no further request |
| Etl.EmptyAmountFails | etl/etl_script.py:225-229 | a row whose amount is "" makes the table conversion fail |
| Etl.EmptyTable | etl/etl_script.py:225-229 | the table built from no rows converts, has the schema's column order, and every column is empty |
| Etl.ZeroPages | etl/etl_script.py:152-229 | a page count below 1 means only the count request is made and the result is the empty table with the schema's columns |
| EtlRun.AppendItems | etl/etl_script.py:168-222 | the item loop appends one row per item, in order, to the rows so far, or ends with the first item's error |
| EtlRun.CollectPage | etl/etl_script.py:155-222 | one pass of the page loop sets the parameters to page `page`, records one GET, keeps the response when its status is 200, and appends the page's rows or returns its error |
| EtlRun.CollectStep | etl/etl_script.py:154-222 | after pages 1..i-1 succeeded, pass i appends page i's rows or returns the error of the whole loop; pages 1..i have then been requested and the record holds page i's parameters and the last status-200 response |
| EtlRun.CollectPages | etl/etl_script.py:154-222 | the page loop's result is the rows of pages 1..total in page order, or the first failing page's error; the pages requested are pages 1..k in order, up to the first failure; afterwards the parameters are those of page k and the response is the last one answered with status 200 |
| EtlRun.PageRequestsNext | etl/etl_script.py:154-161 | proof step for `CollectStep`: the requests for pages 1..n+1 are those for pages 1..n followed by page n+1 |
| EtlRun.MakeTable | etl/etl_script.py:225-229 | building the table and converting its columns in place gives `BuildTable` of the rows |
| EtlRun.RunEtl | etl/etl_script.py:135-229 | a run returns `RunSpec` and issues exactly `RunRequests`; with `Etl.RequestsAscend`, `Etl.ZeroPages`, `Paging.StopsAtFailure` and `Etl.RowCount` these are the job's page order, abort-on-failure and row-count guarantees |

## Left out

- Reading the JSON configuration files (lines 16-34), the HTTP client
  itself, the request headers and the URL. The server is a parameter, and
  the headers and URL are stored but do not influence the response.
- The XML parser. A response carries the element tree it parses to, or
  nothing when the body is malformed. Namespaces, attributes and tail
  text are not modelled.
- The upload to S3 and the CSV encoding (`load_to_s3_bucket`, lines
  116-132, and line 231), and the `print` of the row count (line 224).
- Numbers.CeilDiv: computes the exact integer ceiling. `math.ceil(int /
  10)` goes through a float and can round differently for totals of 2^53
  and above. For totals of about 1.8·10^309 and above the float division
  raises `OverflowError`, where the model still returns a page count.
- Numbers.ParseDecimal: `int()` also accepts underscores between digits
  and non-ASCII Unicode digits, and strips non-ASCII white space such as
  U+00A0, U+2003 and U+3000. The model accepts only ASCII digits, an
  optional sign and ASCII white space.
- Api.PageCountOf: states the error cases in its own contract. The
  counts are covered by `Api.PageCountIsCeiling` and
  `Api.MissingTotalCountMeansNoPages`.
- Line 178 repeats the lookup of line 177 for the same field. The second
  assignment stores the same value, so the model reads the field once.
- The server is deterministic. Page 1 is fetched twice, and both fetches
  see the same answer.
- `Frame.DataFrame.ConvertTypes` takes the schema as an argument. The run
  passes `dtypes` itself.
- pandas' handling of duplicate column names and of a `None` cell in an
  int64 column is reduced to the cases the schema can produce. The names
  are distinct, and a `None` amount is rejected earlier by
  `AttributeError`.
