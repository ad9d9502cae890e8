/**
 * The extract stage: one POST to the IBM careers search API per page, the
 * Elasticsearch-like response envelope read back with Python's `.get`/`or`
 * idioms, and the raw file the response is saved to. The HTTP call is an
 * oracle (`post`), the current UTC date is a parameter, and saving is returned
 * as the file that would be written rather than performed.
 */
module Extract {
  import opened Base
  import opened Text
  import opened Json
  import opened Dates

  const IbmSearchEndpoint: string := "https://www-api.ibm.com/search/api/v2"

  /** The `_source` fields requested for every hit. */
  const DefaultSourceFields: seq<string> := [
    "_id", "title", "url", "description", "language", "entitled",
    "field_keyword_17", "field_keyword_08", "field_keyword_18", "field_keyword_19"
  ]

  // ---------------------------------------------------------------------------
  // build_payload
  // ---------------------------------------------------------------------------

  /** A list of strings as a JSON array. */
  function StrArray(xs: seq<string>): (r: Json)
    ensures r.JArr? && |r.items| == |xs|
    ensures forall k :: 0 <= k < |xs| ==> r.items[k] == JStr(xs[k])
  {
    JArr(seq(|xs|, k requires 0 <= k < |xs| => JStr(xs[k])))
  }

  /** The request body without the paging key. */
  function BasePayload(size: int): map<string, Json> {
    map[
      "appId" := JStr("careers"),
      "scopes" := JArr([JStr("careers2")]),
      "query" := JObj(map["bool" := JObj(map["must" := JArr([])])]),
      "size" := JInt(size),
      "sort" := JArr([JObj(map["_score" := JStr("desc")]), JObj(map["pageviews" := JStr("desc")])]),
      "lang" := JStr("zz"),
      "localeSelector" := EmptyObject,
      "sm" := JObj(map["query" := JStr(""), "lang" := JStr("zz")]),
      "_source" := StrArray(DefaultSourceFields)
    ]
  }

  /** `build_payload(size=size, offset=offset)`: `from` is added only for a positive offset. */
  function BuildPayload(size: int, offset: int): (p: Json)
    ensures p.JObj?
  {
    if offset > 0 then JObj(BasePayload(size)["from" := JInt(offset)]) else JObj(BasePayload(size))
  }

  /**
   * `from` is present exactly for a positive offset and then holds the offset;
   * `size` holds the requested size; and every other key is fixed, whatever
   * the size and offset.
   */
  lemma PayloadShape(size: int, offset: int)
    ensures "from" in BuildPayload(size, offset).fields <==> offset > 0
    ensures offset > 0 ==> BuildPayload(size, offset).fields["from"] == JInt(offset)
    ensures "size" in BuildPayload(size, offset).fields && BuildPayload(size, offset).fields["size"] == JInt(size)
    ensures BuildPayload(size, offset).fields.Keys
            == {"appId", "scopes", "query", "size", "sort", "lang", "localeSelector", "sm", "_source"}
               + (if offset > 0 then {"from"} else {})
  {
  }

  /** Apart from `size` and `from`, any two payloads agree on every key. */
  lemma PayloadConstants(size1: int, offset1: int, size2: int, offset2: int, key: string)
    requires key != "size" && key != "from"
    ensures key in BuildPayload(size1, offset1).fields <==> key in BuildPayload(size2, offset2).fields
    ensures key in BuildPayload(size1, offset1).fields ==>
              BuildPayload(size1, offset1).fields[key] == BuildPayload(size2, offset2).fields[key]
  {
  }

  /** The `_source` list is the ten default fields, in order. */
  lemma PayloadSourceFields(size: int, offset: int)
    ensures "_source" in BuildPayload(size, offset).fields
    ensures BuildPayload(size, offset).fields["_source"] == StrArray(DefaultSourceFields)
    ensures |BuildPayload(size, offset).fields["_source"].items| == 10
  {
  }

  // ---------------------------------------------------------------------------
  // The response envelope
  // ---------------------------------------------------------------------------

  /** The exceptions `extract_page` lets escape. */
  datatype ExtractError =
    | TransportError         // httpx could not complete the request
    | HttpStatusError(status: int)  // raise_for_status on a non-2xx reply
    | NotJson                // resp.json() raises
    | NoGetMethod            // `.get` on a decoded value that is not a dict (AttributeError)
    | RecordsNotAList        // ValueError: hits.hits is not a list

  /**
   * `hits = data.get("hits") or {}`, `total` from `hits.total.value` when
   * `hits.total` is a dict (else `None`), and `records = hits.get("hits") or []`,
   * which must be a list.
   */
  function ReadEnvelope(data: Json): (r: Result<(Json, seq<Json>), ExtractError>)
  {
    match GetAttr(data, "hits")
    case Err(_) => Err(NoGetMethod)
    case Ok(h) =>
      var hits := Or(h, EmptyObject);
      match GetAttr(hits, "total")
      case Err(_) => Err(NoGetMethod)
      case Ok(t) =>
        var totalObj := Or(t, EmptyObject);
        var total := if totalObj.JObj? then Get(totalObj.fields, "value") else JNull;
        var records := Or(Get(hits.fields, "hits"), JArr([]));
        if records.JArr? then Ok((total, records.items)) else Err(RecordsNotAList)
  }

  /**
   * The envelope cases: `total` is `hits.total.value` when `hits.total` is a
   * dict and `None` for any other `hits.total`; a missing `hits`
   * reads as no records and no total; a truthy non-list `hits.hits` is a shape
   * error; the records of a well-formed envelope are its `hits.hits`.
   */
  lemma EnvelopeCases(records: seq<Json>, total: Json, t: Json, x: Json)
    ensures ReadEnvelope(EmptyObject) == Ok((JNull, []))
    ensures ReadEnvelope(JObj(map["hits" := JObj(map["total" := JObj(map["value" := total]), "hits" := JArr(records)])]))
            == Ok((total, records))
    ensures !t.JObj? ==>
      ReadEnvelope(JObj(map["hits" := JObj(map["total" := t, "hits" := JArr(records)])])) == Ok((JNull, records))
    ensures !x.JObj? ==> ReadEnvelope(x) == Err(NoGetMethod)
    ensures Truthy(x) && !x.JArr? ==> ReadEnvelope(JObj(map["hits" := JObj(map["hits" := x])])) == Err(RecordsNotAList)
  {
    if records == [] {
      assert Or(JArr(records), JArr([])) == JArr([]);
    }
  }

  // ---------------------------------------------------------------------------
  // save_raw_json: the path of the raw file
  // ---------------------------------------------------------------------------

  /** `f"search_page={page:03d}.json"`. */
  function RawPageName(page: int): string {
    "search_page=" + FormatZeroPadded(page, 3) + ".json"
  }

  /** `raw_dir / source / f"run_date={run_date}" / RawPageName(page)`, as path components. */
  function RawPath(rawDir: seq<string>, source: string, runDate: string, page: int): (p: seq<string>)
    ensures |p| == |rawDir| + 3 && p[..|rawDir|] == rawDir
    ensures p[|rawDir|] == source && p[|rawDir| + 1] == "run_date=" + runDate
    ensures p[|rawDir| + 2] == RawPageName(page)
  {
    rawDir + [source, "run_date=" + runDate, RawPageName(page)]
  }

  /** Pages 0 to 999 get exactly three digits. */
  lemma RawPageNameWidth(page: int)
    requires 0 <= page < 1000
    ensures |FormatZeroPadded(page, 3)| == 3 && |RawPageName(page)| == 20
  {
    assert Pow10(3) == 1000 by { FieldWidths(); }
    ZeroPadWidth(page, 3);
  }

  /** For pages 0 to 999 the raw files sort by name in page order. */
  lemma RawPageNameOrder(p: int, q: int)
    requires 0 <= p < 1000 && 0 <= q < 1000
    ensures LexLess(RawPageName(p), RawPageName(q)) <==> p < q
  {
    assert Pow10(3) == 1000 by { FieldWidths(); }
    ZeroPadOrder(p, q, 3);
    var a, b := ZeroPad(p, 3), ZeroPad(q, 3);
    assert RawPageName(p) == "search_page=" + (a + ".json");
    assert RawPageName(q) == "search_page=" + (b + ".json");
    LexLessCommonPrefix("search_page=", a + ".json", b + ".json");
    if a != b {
      LexLessBlocks(a, ".json", b, ".json");
    } else {
      LexLessIrreflexive(a + ".json");
      LexLessIrreflexive(a);
    }
  }

  // ---------------------------------------------------------------------------
  // extract_page
  // ---------------------------------------------------------------------------

  /** One HTTP request as `client.post` receives it. */
  datatype Request = Request(url: string, payload: Json, headers: map<string, string>, timeout: int)

  /** What came back: a status and the body (`None` when it is not JSON), or a transport failure. */
  datatype Reply = Reply(status: int, body: Option<Json>) | TransportFailure

  /** `ExtractResult(raw_path, records, total)`; a `None` total is `JNull`. */
  datatype ExtractResult = ExtractResult(rawPath: seq<string>, records: seq<Json>, total: Json)

  /** The file `save_raw_json` writes: its path and the decoded response it holds. */
  datatype SavedFile = SavedFile(path: seq<string>, data: Json)

  /** The request `extract_page` sends. */
  function PageRequest(size: int, offset: int, userAgent: string, timeoutS: int): Request {
    Request(IbmSearchEndpoint, BuildPayload(size, offset),
            map["User-Agent" := userAgent, "Accept" := "application/json", "Content-Type" := "application/json"],
            timeoutS)
  }

  /** `raise_for_status`: anything outside 2xx raises. */
  predicate IsSuccess(status: int) {
    200 <= status < 300
  }

  /**
   * `extract_page(...)`: one request, the status check, the JSON body, the
   * envelope, and the raw file named after today's UTC date (`today`).
   */
  function ExtractPage(post: Request -> Reply, rawDir: seq<string>, source: string, size: int, offset: int,
                       page: int, userAgent: string, timeoutS: int, today: CalendarDate)
    : (r: Result<(ExtractResult, SavedFile), ExtractError>)
  {
    match post(PageRequest(size, offset, userAgent, timeoutS))
    case TransportFailure => Err(TransportError)
    case Reply(status, body) =>
      if !IsSuccess(status) then Err(HttpStatusError(status))
      else if body.None? then Err(NotJson)
      else
        match ReadEnvelope(body.value)
        case Err(e) => Err(e)
        case Ok((total, records)) =>
          var rawPath := RawPath(rawDir, source, DateIso(today), page);
          Ok((ExtractResult(rawPath, records, total), SavedFile(rawPath, body.value)))
  }

  /**
   * A successful page comes from a 2xx JSON reply to the page request; its
   * records and total are the reply's envelope; and the saved file holds the
   * whole reply under `raw_dir/source/run_date=<today>/search_page=<page>.json`.
   */
  lemma ExtractPageOk(post: Request -> Reply, rawDir: seq<string>, source: string, size: int, offset: int,
                      page: int, userAgent: string, timeoutS: int, today: CalendarDate)
    requires ExtractPage(post, rawDir, source, size, offset, page, userAgent, timeoutS, today).Ok?
    ensures var reply := post(PageRequest(size, offset, userAgent, timeoutS));
            var (res, saved) := ExtractPage(post, rawDir, source, size, offset, page, userAgent, timeoutS, today).value;
      && reply.Reply? && IsSuccess(reply.status) && reply.body.Some?
      && ReadEnvelope(reply.body.value) == Ok((res.total, res.records))
      && saved.data == reply.body.value
      && saved.path == res.rawPath
      && res.rawPath == rawDir + [source, "run_date=" + DateIso(today), RawPageName(page)]
  {
  }

  /**
   * The converse: a 2xx reply whose JSON body has a readable envelope gives
   * the envelope's records and total, and saves the whole body at the page's
   * raw path under today's date.
   */
  lemma ExtractPageSucceeds(post: Request -> Reply, rawDir: seq<string>, source: string, size: int, offset: int,
                            page: int, userAgent: string, timeoutS: int, today: CalendarDate)
    requires var reply := post(PageRequest(size, offset, userAgent, timeoutS));
      reply.Reply? && IsSuccess(reply.status) && reply.body.Some? && ReadEnvelope(reply.body.value).Ok?
    ensures var d := post(PageRequest(size, offset, userAgent, timeoutS)).body.value;
      var (total, records) := ReadEnvelope(d).value;
      var path := RawPath(rawDir, source, DateIso(today), page);
      ExtractPage(post, rawDir, source, size, offset, page, userAgent, timeoutS, today)
        == Ok((ExtractResult(path, records, total), SavedFile(path, d)))
  {
  }

  /**
   * The failures other than a non-2xx status: a transport failure, a 2xx body
   * that is not JSON, and an envelope of the wrong shape, each with its own
   * error and nothing saved.
   */
  lemma ExtractPageFailures(post: Request -> Reply, rawDir: seq<string>, source: string, size: int, offset: int,
                            page: int, userAgent: string, timeoutS: int, today: CalendarDate)
    ensures var reply := post(PageRequest(size, offset, userAgent, timeoutS));
      var r := ExtractPage(post, rawDir, source, size, offset, page, userAgent, timeoutS, today);
      && (reply.TransportFailure? ==> r == Err(TransportError))
      && (reply.Reply? && IsSuccess(reply.status) && reply.body.None? ==> r == Err(NotJson))
      && (reply.Reply? && IsSuccess(reply.status) && reply.body.Some? && ReadEnvelope(reply.body.value).Err? ==>
            r == Err(ReadEnvelope(reply.body.value).error))
  {
  }

  /**
   * Exactly one attempt: the outcome depends on the oracle only through its
   * answer to the one page request, and a failing answer is final.
   */
  lemma ExtractPageOneAttempt(post1: Request -> Reply, post2: Request -> Reply, rawDir: seq<string>, source: string,
                              size: int, offset: int, page: int, userAgent: string, timeoutS: int, today: CalendarDate)
    requires post1(PageRequest(size, offset, userAgent, timeoutS)) == post2(PageRequest(size, offset, userAgent, timeoutS))
    ensures ExtractPage(post1, rawDir, source, size, offset, page, userAgent, timeoutS, today)
         == ExtractPage(post2, rawDir, source, size, offset, page, userAgent, timeoutS, today)
  {
  }

  /** A non-2xx status raises, and nothing is saved. */
  lemma ExtractPageStatus(post: Request -> Reply, rawDir: seq<string>, source: string, size: int, offset: int,
                          page: int, userAgent: string, timeoutS: int, today: CalendarDate)
    requires post(PageRequest(size, offset, userAgent, timeoutS)).Reply?
    requires !IsSuccess(post(PageRequest(size, offset, userAgent, timeoutS)).status)
    ensures ExtractPage(post, rawDir, source, size, offset, page, userAgent, timeoutS, today)
         == Err(HttpStatusError(post(PageRequest(size, offset, userAgent, timeoutS)).status))
  {
  }
}
