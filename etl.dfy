/** `run_etl`: discover the page count, request pages 1..N in order, extract
    every item into one list of rows, build the table in schema column
    order and coerce its columns. */
module Etl {
  import opened Wrappers
  import opened Errors
  import opened Schema
  import opened Xml
  import opened Extract
  import opened Frame
  import opened Api
  import opened Numbers
  import opened Paging

  /** The region and the period `run_etl` asks for. */
  const LawdCd: string := "11110"
  const DealYmd: string := "202301"

  /** The parameters of the request for one page: only `pageNo` varies. */
  function ParamsFor(serviceKey: string, page: int): (p: Params)
    ensures p.pageNo == page && p.numOfRows == PageSize
    ensures p.serviceKey == serviceKey && p.lawdCd == LawdCd && p.dealYmd == DealYmd
  {
    Params(serviceKey, page, PageSize, LawdCd, DealYmd)
  }

  /** The rows of one page: the request, the parse of its body, and one
      row per item; or the error that aborts the run. */
  function PageRows(server: Server, params: Params): (r: Result<seq<Row>, Error>)
    ensures Request(server, params).Err? ==> r == Err(Request(server, params).error)
    ensures Request(server, params).Ok? && server[params].document.None? ==> r == Err(ParseError)
    ensures r.Ok? ==> Request(server, params).Ok? && server[params].document.Some?
                      && |r.value| == |Items(server[params].document.value)|
    ensures r.Err? && Request(server, params).Ok? && server[params].document.Some? ==> r.error == AttributeError
  {
    match Request(server, params)
    case Err(e) => Err(e)
    case Ok(resp) =>
      match resp.document
      case None => Err(ParseError)
      case Some(root) =>
        var rows := ExtractRows(Items(root));
        if rows.Ok? then ExtractRowsValues(Items(root)); rows else rows
  }

  /** The outcomes of pages 1..n, in page order. */
  function Outcomes(server: Server, serviceKey: string, n: nat): (r: seq<Result<seq<Row>, Error>>)
    ensures |r| == n
  {
    seq(n, k requires 0 <= k < n => PageRows(server, ParamsFor(serviceKey, k + 1)))
  }

  /** The requests for pages 1..n, in order. */
  function PageRequests(serviceKey: string, n: nat): seq<Params> {
    seq(n, k requires 0 <= k < n => ParamsFor(serviceKey, k + 1))
  }

  /** The number of item elements on pages 1..n. */
  function ItemCount(server: Server, serviceKey: string, n: nat): nat {
    if n == 0 then 0
    else
      var p := ParamsFor(serviceKey, n);
      ItemCount(server, serviceKey, n - 1)
        + if p in server && server[p].document.Some? then |Items(server[p].document.value)| else 0
  }

  /** The table handed to the upload: its column order and its columns. */
  datatype Table = Table(columns: seq<string>, data: map<string, Column>)

  /** The number of pages the loop runs over: `range(1, total + 1)` is
      empty for a total below 1. */
  function LoopPages(total: int): (n: nat)
    ensures total >= 1 ==> n == total
    ensures total < 1 ==> n == 0
  {
    if total < 1 then 0 else total
  }

  /** `pd.DataFrame(data=rows, columns=dtypes.keys())` then
      `convert_df_types`: the converted table, or the error of the first
      column that does not convert. */
  function BuildTable(rows: seq<Row>): (r: Result<Table, Error>)
    ensures r.Ok? <==> CellsToInt(ColumnOf(rows, AmountField)).Ok?
    ensures r.Ok? ==> r.value.columns == Fields
  {
    FieldsDistinct();
    SchemaTypes();
    ConvertRowsFails(rows, Fields, DTypes);
    var conv := ConvertColumns(Fields, FrameData(rows, Fields), DTypes);
    if conv.failure.Some? then Err(conv.failure.value) else Ok(Table(Fields, conv.data))
  }

  /** The outcome of `run_etl` up to the upload, as a function of what the
      server answers. */
  function RunSpec(server: Server, serviceKey: string): Result<Table, Error> {
    match TotalPageCount(server, ParamsFor(serviceKey, 1))
    case Err(e) => Err(e)
    case Ok(total) =>
      match Concat(Outcomes(server, serviceKey, LoopPages(total)))
      case Err(e) => Err(e)
      case Ok(rows) => BuildTable(rows)
  }

  /** The requests `run_etl` issues: page 1 for the count, then each page
      of the loop until one fails. */
  function RunRequests(server: Server, serviceKey: string): seq<Params> {
    [ParamsFor(serviceKey, 1)] +
      match TotalPageCount(server, ParamsFor(serviceKey, 1))
      case Err(_) => []
      case Ok(total) => PageRequests(serviceKey, Reached(Outcomes(server, serviceKey, LoopPages(total))))
  }

  /** The response `PublicData` holds once pages 1..n were requested in
      turn: the last one answered with status 200, or the one it held
      before when none was. */
  function LastAnswer(server: Server, serviceKey: string, n: nat, before: Option<Response>): Option<Response> {
    if n == 0 then before
    else
      var p := ParamsFor(serviceKey, n);
      if Request(server, p).Ok? then Some(server[p]) else LastAnswer(server, serviceKey, n - 1, before)
  }

  /** A run whose count fails makes no further request and fails with the
      count's error. */
  lemma RunCountFails(server: Server, serviceKey: string)
    requires TotalPageCount(server, ParamsFor(serviceKey, 1)).Err?
    ensures RunRequests(server, serviceKey) == [ParamsFor(serviceKey, 1)]
    ensures RunSpec(server, serviceKey) == Err(TotalPageCount(server, ParamsFor(serviceKey, 1)).error)
  {
  }

  /** A run whose count is `total`: the loop's pages decide the requests
      and the result. */
  lemma RunAfterCount(server: Server, serviceKey: string, total: int)
    requires TotalPageCount(server, ParamsFor(serviceKey, 1)) == Ok(total)
    ensures var pages := Outcomes(server, serviceKey, LoopPages(total));
            RunRequests(server, serviceKey) == [ParamsFor(serviceKey, 1)] + PageRequests(serviceKey, Reached(pages))
    ensures var rows := Concat(Outcomes(server, serviceKey, LoopPages(total)));
            RunSpec(server, serviceKey) == if rows.Err? then Err(rows.error) else BuildTable(rows.value)
  {
  }

  /** The outcomes of pages 1..k are the first k of those of pages 1..n. */
  lemma OutcomesPrefix(server: Server, serviceKey: string, k: nat, n: nat)
    requires k <= n
    ensures Outcomes(server, serviceKey, n)[..k] == Outcomes(server, serviceKey, k)
  {
    var o := Outcomes(server, serviceKey, n);
    assert forall j :: 0 <= j < k ==> o[..k][j] == Outcomes(server, serviceKey, k)[j];
  }

  /** Rows come page by page: the rows of pages 1..k are a prefix of the
      rows of pages 1..n. */
  lemma RowsInPageOrder(server: Server, serviceKey: string, k: nat, n: nat)
    requires k <= n
    requires Concat(Outcomes(server, serviceKey, n)).Ok?
    ensures Concat(Outcomes(server, serviceKey, k)).Ok?
    ensures Concat(Outcomes(server, serviceKey, k)).value <= Concat(Outcomes(server, serviceKey, n)).value
  {
    InPageOrder(Outcomes(server, serviceKey, n), k);
    OutcomesPrefix(server, serviceKey, k, n);
  }

  /** One row per item element: the number of rows collected from pages
      1..n is the number of items on those pages. */
  lemma {:induction false} RowCount(server: Server, serviceKey: string, n: nat)
    requires Concat(Outcomes(server, serviceKey, n)).Ok?
    ensures |Concat(Outcomes(server, serviceKey, n)).value| == ItemCount(server, serviceKey, n)
  {
    if n > 0 {
      var o := Outcomes(server, serviceKey, n);
      OutcomesPrefix(server, serviceKey, n - 1, n);
      assert o[..n - 1] == Outcomes(server, serviceKey, n - 1);
      RowCount(server, serviceKey, n - 1);
      var p := ParamsFor(serviceKey, n);
      assert o[n - 1] == PageRows(server, p);
      ExtractRowsValues(Items(server[p].document.value));
    }
  }

  /** The count request followed by the first m loop requests: page 1,
      then pages 1..m in ascending order. */
  lemma RequestList(serviceKey: string, m: nat)
    ensures var r := [ParamsFor(serviceKey, 1)] + PageRequests(serviceKey, m);
            |r| == 1 + m && r[0] == ParamsFor(serviceKey, 1)
            && (forall j :: 1 <= j < |r| ==> r[j] == ParamsFor(serviceKey, j))
  {
    var r := [ParamsFor(serviceKey, 1)] + PageRequests(serviceKey, m);
    forall j | 1 <= j < |r| ensures r[j] == ParamsFor(serviceKey, j) {
      assert r[j] == PageRequests(serviceKey, m)[j - 1];
    }
  }

  /** The requests of a run: page 1 for the count, then pages 1, 2, ... in
      ascending order, all with the same region, period and page size,
      never beyond the page count. */
  lemma RequestsAscend(server: Server, serviceKey: string)
    ensures var r := RunRequests(server, serviceKey);
            |r| >= 1 && r[0] == ParamsFor(serviceKey, 1)
            && (forall j :: 1 <= j < |r| ==> r[j] == ParamsFor(serviceKey, j))
    ensures TotalPageCount(server, ParamsFor(serviceKey, 1)).Err? ==> RunRequests(server, serviceKey) == [ParamsFor(serviceKey, 1)]
    ensures var count := TotalPageCount(server, ParamsFor(serviceKey, 1));
            count.Ok? ==> |RunRequests(server, serviceKey)| <= 1 + LoopPages(count.value)
  {
    var count := TotalPageCount(server, ParamsFor(serviceKey, 1));
    if count.Ok? {
      var pages := Outcomes(server, serviceKey, LoopPages(count.value));
      StopsAtFailure(pages);
      RequestList(serviceKey, Reached(pages));
    }
  }

  /** A row whose amount is an empty text (the element is missing, so its
      text is "") makes the int64 conversion, and so the run, fail. */
  lemma EmptyAmountFails(rows: seq<Row>, i: nat)
    requires i < |rows| && AmountField in rows[i] && rows[i][AmountField] == Some("")
    ensures BuildTable(rows).Err?
  {
    FieldsDistinct();
    SchemaTypes();
    ConvertRowsFails(rows, Fields, DTypes);
    assert ColumnOf(rows, AmountField)[i] == Some("");
  }

  /** The table built from no rows: the schema's columns, each empty. */
  lemma EmptyTable()
    ensures BuildTable([]).Ok?
    ensures BuildTable([]).value.columns == Fields
    ensures forall f :: f in Fields ==> BuildTable([]).value.data[f].Length() == 0
  {
    FieldsDistinct();
    SchemaTypes();
    ConvertRowsFails([], Fields, DTypes);
    ConvertRowsOk([], Fields, DTypes);
  }

  /** A page count below one means no page loop: only the count request is
      made and the table is the empty one with the schema's columns. */
  lemma ZeroPages(server: Server, serviceKey: string)
    requires TotalPageCount(server, ParamsFor(serviceKey, 1)).Ok?
    requires TotalPageCount(server, ParamsFor(serviceKey, 1)).value < 1
    ensures RunRequests(server, serviceKey) == [ParamsFor(serviceKey, 1)]
    ensures RunSpec(server, serviceKey).Ok?
    ensures RunSpec(server, serviceKey).value.columns == Fields
    ensures forall f :: f in Fields ==> RunSpec(server, serviceKey).value.data[f].Length() == 0
  {
    var pages := Outcomes(server, serviceKey, LoopPages(TotalPageCount(server, ParamsFor(serviceKey, 1)).value));
    assert pages == [];
    assert RunSpec(server, serviceKey) == BuildTable([]);
    EmptyTable();
  }
}

module EtlRun {
  import opened Wrappers
  import opened Errors
  import opened Schema
  import opened Xml
  import opened Extract
  import opened Frame
  import opened Api
  import opened Paging
  import opened Etl

  /** The item loop of `run_etl` for one page: `rows` extended by one row
      per item, in document order, unless an item fails. */
  method AppendItems(rows: seq<Row>, items: seq<Element>) returns (r: Result<seq<Row>, Error>)
    ensures ExtractRows(items).Ok? ==> r == Ok(rows + ExtractRows(items).value)
    ensures ExtractRows(items).Err? ==> r == ExtractRows(items)
  {
    var acc := rows;
    var j := 0;
    while j < |items|
      invariant 0 <= j <= |items|
      invariant ExtractRows(items[..j]).Ok? && acc == rows + ExtractRows(items[..j]).value
    {
      assert items[..j + 1][..j] == items[..j];
      var row := ExtractRow(items[j]);
      if row.Err? {
        ExtractRowsStops(items, j + 1);
        return Err(row.error);
      }
      acc := acc + [row.value];
      j := j + 1;
    }
    assert items[..j] == items;
    return Ok(acc);
  }

  /** One pass of the page loop of `run_etl`: request page `page` with
      the fixed parameters, keep the response, parse it and append one row
      per item to `rows`. */
  method CollectPage(publicData: PublicData, server: Server, serviceKey: string, page: nat, rows: seq<Row>)
    returns (next: Result<seq<Row>, Error>)
    modifies publicData`params, publicData`response, publicData`Requested
    ensures PageRows(server, ParamsFor(serviceKey, page)).Err? ==> next == PageRows(server, ParamsFor(serviceKey, page))
    ensures PageRows(server, ParamsFor(serviceKey, page)).Ok? ==>
              next == Ok(rows + PageRows(server, ParamsFor(serviceKey, page)).value)
    ensures publicData.params == ParamsFor(serviceKey, page)
    ensures publicData.Requested == old(publicData.Requested) + [ParamsFor(serviceKey, page)]
    ensures publicData.response == if Request(server, publicData.params).Err?
                                   then old(publicData.response)
                                   else Some(server[publicData.params])
  {
    publicData.params := ParamsFor(serviceKey, page);
    var resp := publicData.GetRequests(server);
    if resp.Err? {
      return Err(resp.error);
    }
    publicData.response := Some(resp.value);
    if resp.value.document.None? {
      return Err(ParseError);
    }
    next := AppendItems(rows, Items(resp.value.document.value));
  }

  /** The record after pages 1..n were requested, starting from the
      requests, parameters and response it held before: n more requests
      recorded, the parameters of page n, and the last 200 answer. */
  ghost predicate Progress(publicData: PublicData, server: Server, serviceKey: string, n: nat,
                           requested: seq<Params>, params: Params, before: Option<Response>)
    reads publicData
  {
    && publicData.Requested == requested + PageRequests(serviceKey, n)
    && publicData.params == (if n == 0 then params else ParamsFor(serviceKey, n))
    && publicData.response == LastAnswer(server, serviceKey, n, before)
  }

  /** Pass `i` of the page loop, after pages 1..i-1 succeeded: page i's
      rows follow theirs, or its error is the outcome of the whole loop,
      which then has requested pages 1..i. */
  method CollectStep(publicData: PublicData, server: Server, serviceKey: string, i: nat, rows: seq<Row>,
                     ghost pages: seq<Result<seq<Row>, Error>>, ghost requested: seq<Params>, ghost before: Option<Response>)
    returns (next: Result<seq<Row>, Error>)
    requires pages == Outcomes(server, serviceKey, |pages|) && 1 <= i <= |pages|
    requires Concat(pages[..i - 1]) == Ok(rows)
    requires Progress(publicData, server, serviceKey, i - 1, requested, publicData.params, before)
    modifies publicData`params, publicData`response, publicData`Requested
    ensures next.Ok? ==> Concat(pages[..i]) == next
    ensures next.Err? ==> Concat(pages) == next && Reached(pages) == i
    ensures Progress(publicData, server, serviceKey, i, requested, publicData.params, before)
  {
    next := CollectPage(publicData, server, serviceKey, i, rows);
    assert pages[i - 1] == PageRows(server, ParamsFor(serviceKey, i));
    ConcatNext(pages, i - 1);
    PageRequestsNext(serviceKey, i - 1);
    if next.Err? {
      ConcatStops(pages, i, |pages|);
      assert pages[..|pages|] == pages;
    }
  }

  /** The page loop of `run_etl`: pages 1..total, in order, each one's
      rows appended to the rows so far; the first page that fails ends the
      loop and the run. Afterwards the record holds the parameters of the
      last page requested and the last response answered with status 200. */
  method CollectPages(publicData: PublicData, server: Server, serviceKey: string, total: int)
    returns (r: Result<seq<Row>, Error>)
    modifies publicData`params, publicData`response, publicData`Requested
    ensures r == Concat(Outcomes(server, serviceKey, LoopPages(total)))
    ensures publicData.Requested == old(publicData.Requested)
              + PageRequests(serviceKey, Reached(Outcomes(server, serviceKey, LoopPages(total))))
    ensures var m := Reached(Outcomes(server, serviceKey, LoopPages(total)));
            publicData.params == if m == 0 then old(publicData.params) else ParamsFor(serviceKey, m)
    ensures publicData.response
            == LastAnswer(server, serviceKey, Reached(Outcomes(server, serviceKey, LoopPages(total))), old(publicData.response))
  {
    ghost var pages := Outcomes(server, serviceKey, LoopPages(total));
    ghost var requested, params, before := publicData.Requested, publicData.params, publicData.response;
    var rows: seq<Row> := [];
    var i := 1;
    while i <= total
      invariant 1 <= i <= |pages| + 1
      invariant Concat(pages[..i - 1]) == Ok(rows)
      invariant Progress(publicData, server, serviceKey, i - 1, requested, params, before)
    {
      var next := CollectStep(publicData, server, serviceKey, i, rows, pages, requested, before);
      if next.Err? {
        return next;
      }
      rows := next.value;
      i := i + 1;
    }
    assert pages[..i - 1] == pages;
    StopsAtFailure(pages);
    return Ok(rows);
  }

  /** Building the table from the rows and converting its columns. */
  method MakeTable(rows: seq<Row>) returns (r: Result<Table, Error>)
    ensures r == BuildTable(rows)
  {
    var df := new DataFrame(rows, Fields);
    SchemaTypes();
    var failure := df.ConvertTypes(DTypes);
    if failure.Some? {
      return Err(failure.value);
    }
    return Ok(Table(df.columns, df.data));
  }

  /** `run_etl()` up to the upload. The server is `server`; `endPoint` and
      `headers` are the request's URL and headers. The result is the table
      that would be uploaded, or the error that aborts the run; `requested`
      lists the GETs issued, in order. */
  method RunEtl(server: Server, serviceKey: string, endPoint: string, headers: map<string, string>)
    returns (result: Result<Table, Error>, ghost requested: seq<Params>)
    ensures result == RunSpec(server, serviceKey)
    ensures requested == RunRequests(server, serviceKey)
  {
    var publicData := new PublicData(headers, endPoint, ParamsFor(serviceKey, 1));
    var count := publicData.GetTotalPageCount(server);
    if count.Err? {
      RunCountFails(server, serviceKey);
      return Err(count.error), publicData.Requested;
    }
    RunAfterCount(server, serviceKey, count.value);
    var rows := CollectPages(publicData, server, serviceKey, count.value);
    requested := publicData.Requested;
    if rows.Err? {
      return Err(rows.error), requested;
    }
    result := MakeTable(rows.value);
  }

  lemma PageRequestsNext(serviceKey: string, n: nat)
    ensures PageRequests(serviceKey, n) + [ParamsFor(serviceKey, n + 1)] == PageRequests(serviceKey, n + 1)
  {
  }
}
