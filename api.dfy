/** The request side of the job: the query parameters, the status check of
    `get_requests`, and `get_total_page_count`, over the mutable
    `BaseModelPublicData` record that carries the current parameters and
    the last response. */
module Api {
  import opened Wrappers
  import opened Errors
  import opened Numbers
  import opened Xml

  /** Rows asked for per page, `numOfRows`. */
  const PageSize: int := 10

  /** The query string of one request. */
  datatype Params = Params(serviceKey: string, pageNo: int, numOfRows: int, lawdCd: string, dealYmd: string)

  /** What the HTTP GET gives back: the status code and the body parsed as
      XML, None when the body is not well-formed. */
  datatype Response = Response(status: int, document: Option<Element>)

  /** The server behind the HTTP transport: the response it gives to
      each query. The headers and the URL are the same for every request
      of a run; a query it does not answer is a transport failure. */
  type Server = map<Params, Response>

  /** `get_requests`: the GET, whose transport failure propagates, then
      the status check, where anything but 200 raises ConnectionError. */
  function Request(server: Server, params: Params): (r: Result<Response, Error>)
    ensures r.Ok? <==> params in server && server[params].status == 200
    ensures r.Ok? ==> r.value == server[params]
    ensures params !in server ==> r == Err(TransportError)
    ensures params in server && server[params].status != 200 ==> r == Err(ConnectionError)
  {
    if params !in server then Err(TransportError)
    else if server[params].status != 200 then Err(ConnectionError)
    else Ok(server[params])
  }

  /** `total_count` after the scan of <body>'s children: still the integer
      0 when no child is tagged totalCount, else that child's text. */
  datatype CountValue = Unset | Found(text: Option<string>)

  function TotalCountOf(body: seq<Element>): (r: CountValue)
    ensures r == Unset <==> forall i :: 0 <= i < |body| ==> body[i].tag != "totalCount"
    ensures r.Found? ==> exists i :: 0 <= i < |body| && body[i].tag == "totalCount" && r.text == body[i].text
                          && forall j :: 0 <= j < i ==> body[j].tag != "totalCount"
  {
    match Find(body, "totalCount")
    case None => Unset
    case Some(child) => Found(child.text)
  }

  /** `int(total_count)`. */
  function CountToInt(count: CountValue): (r: Result<int, Error>)
    ensures count == Unset ==> r == Ok(0)
    ensures count == Found(None) ==> r == Err(TypeError)
    ensures count.Found? && count.text.Some? ==>
              (r.Ok? <==> ParseDecimal(count.text.value).Some?)
              && (r.Ok? ==> r.value == ParseDecimal(count.text.value).value)
              && (r.Err? ==> r.error == ValueError)
  {
    match count
    case Unset => Ok(0)
    case Found(None) => Err(TypeError)
    case Found(Some(text)) =>
      match ParseDecimal(text)
      case None => Err(ValueError)
      case Some(n) => Ok(n)
  }

  /** What `get_total_page_count` computes from the page-1 response: the
      status check, the parse, the scan for totalCount under the first
      <body> (iterating a missing <body> is a TypeError), and
      ceil(total / PageSize). */
  function PageCountOf(resp: Response): (r: Result<int, Error>)
    ensures resp.status != 200 ==> r == Err(ConnectionError)
    ensures resp.status == 200 && resp.document.None? ==> r == Err(ParseError)
    ensures resp.status == 200 && resp.document.Some? && Find(resp.document.value.children, "body").None?
            ==> r == Err(TypeError)
    ensures resp.status == 200 && resp.document.Some? && Find(resp.document.value.children, "body").Some?
            ==> var count := TotalCountOf(Find(resp.document.value.children, "body").value.children);
                && (count == Found(None) ==> r == Err(TypeError))
                && (count.Found? && count.text.Some? && ParseDecimal(count.text.value).None? ==> r == Err(ValueError))
  {
    if resp.status != 200 then Err(ConnectionError)
    else match resp.document
      case None => Err(ParseError)
      case Some(root) =>
        match Find(root.children, "body")
        case None => Err(TypeError)
        case Some(body) =>
          match CountToInt(TotalCountOf(body.children))
          case Err(e) => Err(e)
          case Ok(total) => Ok(CeilDiv(total, PageSize))
  }

  /** `get_total_page_count`: the page-1 GET, then the count. */
  function TotalPageCount(server: Server, params: Params): (r: Result<int, Error>)
    ensures params !in server ==> r == Err(TransportError)
    ensures params in server && server[params].status != 200 ==> r == Err(ConnectionError)
    ensures params in server && server[params].status == 200 && server[params].document.None? ==> r == Err(ParseError)
    ensures params in server && server[params].status == 200 && server[params].document.Some?
            && Find(server[params].document.value.children, "body").None?
            ==> r == Err(TypeError)
  {
    if params !in server then Err(TransportError) else PageCountOf(server[params])
  }

  /** The page-1 answer of a run: status 200, a parsed document with
      `body` as its first <body>. */
  predicate AnsweredWithBody(server: Server, params: Params, root: Element, body: Element) {
    params in server && server[params].status == 200 && server[params].document == Some(root)
    && Find(root.children, "body") == Some(body)
  }

  /** A page count is ceil(total / 10) of the advertised total: the fewest
      pages of ten rows that hold the total, 0 for a total of 0. */
  lemma PageCountIsCeiling(server: Server, params: Params, root: Element, body: Element, text: string, total: int)
    requires AnsweredWithBody(server, params, root, body)
    requires TotalCountOf(body.children) == Found(Some(text))
    requires ParseDecimal(text) == Some(total)
    ensures TotalPageCount(server, params).Ok?
    ensures var pages := TotalPageCount(server, params).value;
            (pages - 1) * PageSize < total <= pages * PageSize
    ensures total == 0 ==> TotalPageCount(server, params) == Ok(0)
    ensures total >= 0 ==> TotalPageCount(server, params).value >= 0
  {
    if total == 0 {
      CeilDivUnique(0, PageSize, 0);
    }
  }

  /** A <body> without a totalCount child leaves the count at 0, so there
      are no pages. */
  lemma MissingTotalCountMeansNoPages(server: Server, params: Params, root: Element, body: Element)
    requires AnsweredWithBody(server, params, root, body)
    requires forall i :: 0 <= i < |body.children| ==> body.children[i].tag != "totalCount"
    ensures TotalPageCount(server, params) == Ok(0)
  {
    CeilDivUnique(0, PageSize, 0);
  }

  /** A total of 25 rows takes 3 pages. */
  lemma PageCountOf25(server: Server, params: Params, root: Element, body: Element)
    requires AnsweredWithBody(server, params, root, body)
    requires TotalCountOf(body.children) == Found(Some("25"))
    ensures TotalPageCount(server, params) == Ok(3)
  {
    assert IsDigits("25");
    assert "25"[..1] == "2";
    CeilDivUnique(25, PageSize, 3);
  }

  /** `BaseModelPublicData`: headers and URL fixed, the parameters and the
      last response replaced as the run proceeds. `Requested` records the
      parameters of every GET issued through it, in order. */
  class PublicData {
    const headers: map<string, string>
    const reqUrl: string
    var params: Params
    var response: Option<Response>
    ghost var Requested: seq<Params>

    constructor (headers: map<string, string>, reqUrl: string, params: Params)
      ensures this.headers == headers && this.reqUrl == reqUrl && this.params == params
      ensures response == None && Requested == []
    {
      this.headers := headers;
      this.reqUrl := reqUrl;
      this.params := params;
      response := None;
      Requested := [];
    }

    /** `get_requests(PublicData)`: one GET with the current parameters;
        a status other than 200 raises ConnectionError. */
    method GetRequests(server: Server) returns (r: Result<Response, Error>)
      modifies this`Requested
      ensures Requested == old(Requested) + [params]
      ensures r == Request(server, params)
    {
      Requested := Requested + [params];
      if params !in server {
        return Err(TransportError);
      }
      var resp := server[params];
      if resp.status != 200 {
        return Err(ConnectionError);
      }
      return Ok(resp);
    }

    /** `get_total_page_count(PublicData)`: one GET with the current
        parameters, kept as the last response when its status is 200, then
        the scan of <body> for totalCount and the ceiling division. */
    method GetTotalPageCount(server: Server) returns (r: Result<int, Error>)
      modifies this`Requested, this`response
      ensures Requested == old(Requested) + [params]
      ensures r == TotalPageCount(server, params)
      ensures response == if Request(server, params).Ok? then Some(server[params]) else old(response)
    {
      var resp :- GetRequests(server);
      response := Some(resp);
      if resp.document.None? {
        return Err(ParseError);
      }
      var root := resp.document.value;
      var body := Find(root.children, "body");
      if body.None? {
        return Err(TypeError);
      }
      var children := body.value.children;
      var totalCount := Unset;
      var i := 0;
      while i < |children|
        invariant 0 <= i <= |children|
        invariant totalCount == Unset
        invariant forall j :: 0 <= j < i ==> children[j].tag != "totalCount"
      {
        if children[i].tag == "totalCount" {
          totalCount := Found(children[i].text);
          break;
        }
        i := i + 1;
      }
      assert totalCount == TotalCountOf(children);
      var total :- CountToInt(totalCount);
      return Ok(CeilDiv(total, PageSize));
    }
  }
}
