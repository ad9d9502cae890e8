/**
 * The command-line entry point: fetch pages 1 to `max_pages` of the search
 * API, stopping after the first empty page, and accumulate the record count
 * and the last reported total. Fetching one page (`extract_page`) is a
 * parameter; the environment settings are a value. The lemmas at the end
 * connect the stages: what extract saves is what transform reads back.
 */
module Pipeline {
  import opened Base
  import opened Text
  import opened Json
  import opened Dates
  import opened Fs
  import opened Extract
  import opened Transform

  /** `Settings`, as read from the environment. */
  datatype Settings = Settings(
    env: string,
    rawDataPath: seq<string>,
    processedDataPath: seq<string>,
    logPath: seq<string>,
    requestTimeoutS: int,
    retryAttempts: int,
    userAgent: string,
    pageSize: int,
    maxPages: int)

  /** The arguments of one `extract_page(...)` call. */
  datatype PageCall = PageCall(
    rawDir: seq<string>, source: string, size: int, offset: int, page: int, userAgent: string, timeoutS: int)

  /** The call `main` makes for page `page`: offset `(page - 1) * page_size`, size `page_size`. */
  function CallOf(s: Settings, page: int): (c: PageCall)
    ensures c.page == page && c.size == s.pageSize && c.offset == (page - 1) * s.pageSize
    ensures c.source == "ibm_careers"
  {
    PageCall(s.rawDataPath, "ibm_careers", s.pageSize, (page - 1) * s.pageSize, page, s.userAgent, s.requestTimeoutS)
  }

  /** What `main` reports: its exit code, the records downloaded and the last total seen. */
  datatype MainOutcome = MainOutcome(exitCode: int, totalRecords: nat, lastTotal: Json)

  /**
   * The pages fetched from `page` on, in order, and the error that ended the
   * loop, if one did: a page that raises ends it, an empty page is the last one
   * fetched, and no page after `max_pages` is requested.
   */
  function Fetch(s: Settings, extractPage: PageCall -> Result<ExtractResult, ExtractError>, page: int)
    : (r: (seq<ExtractResult>, Option<ExtractError>))
    decreases s.maxPages - page + 1
  {
    if page > s.maxPages then ([], None)
    else
      match extractPage(CallOf(s, page))
      case Err(e) => ([], Some(e))
      case Ok(res) =>
        if |res.records| == 0 then ([res], None)
        else
          var (rest, err) := Fetch(s, extractPage, page + 1);
          ([res] + rest, err)
  }

  /** The records of all pages. */
  function SumRecords(pages: seq<ExtractResult>): nat {
    if pages == [] then 0 else SumRecords(pages[..|pages| - 1]) + |pages[|pages| - 1].records|
  }

  /** `main()` as a value: the error of the page that raised, or exit code 0 with the accumulated counts. */
  function MainSpec(s: Settings, extractPage: PageCall -> Result<ExtractResult, ExtractError>)
    : Result<MainOutcome, ExtractError>
  {
    var (pages, err) := Fetch(s, extractPage, 1);
    if err.Some? then Err(err.value)
    else Ok(MainOutcome(0, SumRecords(pages), if pages == [] then JNull else pages[|pages| - 1].total))
  }

  lemma SumRecordsNext(pages: seq<ExtractResult>, res: ExtractResult)
    ensures SumRecords(pages + [res]) == SumRecords(pages) + |res.records|
  {
    assert (pages + [res])[..|pages|] == pages;
  }

  /** One step of `Fetch`: what the answer for page `page` makes of the rest. */
  lemma FetchUnfold(s: Settings, extractPage: PageCall -> Result<ExtractResult, ExtractError>, page: int)
    requires page <= s.maxPages
    ensures var a := extractPage(CallOf(s, page));
      && (a.Err? ==> Fetch(s, extractPage, page) == ([], Some(a.error)))
      && (a.Ok? && |a.value.records| == 0 ==> Fetch(s, extractPage, page) == ([a.value], None))
      && (a.Ok? && |a.value.records| > 0 ==>
            && Fetch(s, extractPage, page).0 == [a.value] + Fetch(s, extractPage, page + 1).0
            && Fetch(s, extractPage, page).1 == Fetch(s, extractPage, page + 1).1)
  {
  }

  /**
   * The loop's bookkeeping: the pages `done` so far and the rest, fetched from
   * `page` on, make up the whole run.
   */
  predicate Accounted(s: Settings, extractPage: PageCall -> Result<ExtractResult, ExtractError>,
                      done: seq<ExtractResult>, page: int)
  {
    Fetch(s, extractPage, 1) == (done + Fetch(s, extractPage, page).0, Fetch(s, extractPage, page).1)
  }

  /** After a page with records the bookkeeping moves on to the next page. */
  lemma AccountedNext(s: Settings, extractPage: PageCall -> Result<ExtractResult, ExtractError>,
                      done: seq<ExtractResult>, page: int)
    requires page <= s.maxPages && Accounted(s, extractPage, done, page)
    requires extractPage(CallOf(s, page)).Ok? && |extractPage(CallOf(s, page)).value.records| > 0
    ensures Accounted(s, extractPage, done + [extractPage(CallOf(s, page)).value], page + 1)
  {
    FetchUnfold(s, extractPage, page);
    AppendAssoc(done, [extractPage(CallOf(s, page)).value], Fetch(s, extractPage, page + 1).0);
  }

  /** How the run ends: at a page that raises, after an empty page, or past the last page. */
  lemma AccountedEnd(s: Settings, extractPage: PageCall -> Result<ExtractResult, ExtractError>,
                     done: seq<ExtractResult>, page: int)
    requires Accounted(s, extractPage, done, page)
    ensures page <= s.maxPages && extractPage(CallOf(s, page)).Err? ==>
      Fetch(s, extractPage, 1).1 == Some(extractPage(CallOf(s, page)).error)
    ensures page <= s.maxPages && extractPage(CallOf(s, page)).Ok? && |extractPage(CallOf(s, page)).value.records| == 0 ==>
      Fetch(s, extractPage, 1) == (done + [extractPage(CallOf(s, page)).value], None)
    ensures page > s.maxPages ==> Fetch(s, extractPage, 1) == (done, None)
  {
    if page <= s.maxPages {
      FetchUnfold(s, extractPage, page);
    } else {
      assert done + [] == done;
    }
  }

  /**
   * `main()`: the page loop with its two accumulators and the early stop.
   * Printing, the politeness delay and creating the data directories are not
   * modelled.
   */
  method RunMain(s: Settings, extractPage: PageCall -> Result<ExtractResult, ExtractError>)
    returns (r: Result<MainOutcome, ExtractError>)
    ensures r == MainSpec(s, extractPage)
  {
    var totalRecords := 0;
    var lastTotal := JNull;
    ghost var done: seq<ExtractResult> := [];

    var page := 1;
    assert [] + Fetch(s, extractPage, 1).0 == Fetch(s, extractPage, 1).0;
    while page <= s.maxPages
      invariant page >= 1
      invariant Accounted(s, extractPage, done, page)
      invariant totalRecords == SumRecords(done)
      invariant lastTotal == if done == [] then JNull else done[|done| - 1].total
      decreases s.maxPages - page + 1
    {
      var offset := (page - 1) * s.pageSize;
      var result := extractPage(PageCall(s.rawDataPath, "ibm_careers", s.pageSize, offset, page, s.userAgent, s.requestTimeoutS));
      assert result == extractPage(CallOf(s, page));
      AccountedEnd(s, extractPage, done, page);
      if result.Err? {
        return Err(result.error);
      }
      var res := result.value;
      lastTotal := res.total;
      totalRecords := totalRecords + |res.records|;
      SumRecordsNext(done, res);
      if |res.records| == 0 {
        done := done + [res];
        break;
      }
      AccountedNext(s, extractPage, done, page);
      done := done + [res];
      page := page + 1;
    }
    if page > s.maxPages {
      AccountedEnd(s, extractPage, done, page);
    }
    r := Ok(MainOutcome(0, totalRecords, lastTotal));
  }

  /**
   * What the loop fetches from `page` on: the k-th result is the answer to the
   * call for page `page + k`; at most `max_pages - page + 1` pages; every page
   * but the last has records; the loop ends early only after an empty page or
   * at a page that raised; and a raised error is the answer for the page after
   * the last fetched one.
   */
  lemma {:induction false} FetchShape(s: Settings, extractPage: PageCall -> Result<ExtractResult, ExtractError>, page: int)
    requires page >= 1
    ensures var (pages, err) := Fetch(s, extractPage, page);
      && |pages| <= (if s.maxPages >= page then s.maxPages - page + 1 else 0)
      && (forall k :: 0 <= k < |pages| ==> extractPage(CallOf(s, page + k)) == Ok(pages[k]))
      && (forall k :: 0 <= k < |pages| - 1 ==> |pages[k].records| > 0)
      && (err.None? && |pages| < s.maxPages - page + 1 ==> pages != [] && |pages[|pages| - 1].records| == 0)
      && (err.Some? ==> page + |pages| <= s.maxPages && extractPage(CallOf(s, page + |pages|)) == Err(err.value))
    decreases s.maxPages - page + 1
  {
    if page <= s.maxPages {
      match extractPage(CallOf(s, page))
      case Err(e) =>
      case Ok(res) =>
        if |res.records| != 0 {
          FetchShape(s, extractPage, page + 1);
          var (rest, err) := Fetch(s, extractPage, page + 1);
          var pages := [res] + rest;
          assert Fetch(s, extractPage, page) == (pages, err);
          forall k | 0 <= k < |pages| ensures extractPage(CallOf(s, page + k)) == Ok(pages[k]) {
            if k > 0 { assert pages[k] == rest[k - 1]; assert page + k == (page + 1) + (k - 1); }
          }
          forall k | 0 <= k < |pages| - 1 ensures |pages[k].records| > 0 {
            if k > 0 { assert pages[k] == rest[k - 1]; }
          }
        }
    }
  }

  /**
   * A run that does not raise exits with 0, having fetched at most `max_pages`
   * pages, every one of them the page asked for; the record count is the sum
   * over the fetched pages and the last total is the last page's (`None` when
   * no page was fetched).
   */
  lemma MainOutcomeFacts(s: Settings, extractPage: PageCall -> Result<ExtractResult, ExtractError>)
    requires MainSpec(s, extractPage).Ok?
    ensures var pages := Fetch(s, extractPage, 1).0;
            var out := MainSpec(s, extractPage).value;
      && out.exitCode == 0
      && |pages| <= (if s.maxPages >= 1 then s.maxPages else 0)
      && (forall k :: 0 <= k < |pages| ==> extractPage(CallOf(s, k + 1)) == Ok(pages[k]))
      && (forall k :: 0 <= k < |pages| - 1 ==> |pages[k].records| > 0)
      && out.totalRecords == SumRecords(pages)
      && out.lastTotal == (if pages == [] then JNull else pages[|pages| - 1].total)
  {
    FetchShape(s, extractPage, 1);
    var pages := Fetch(s, extractPage, 1).0;
    forall k | 0 <= k < |pages| ensures extractPage(CallOf(s, k + 1)) == Ok(pages[k]) {
      assert 1 + k == k + 1;
    }
  }

  /** A run whose first page comes back empty fetches nothing more. */
  lemma EmptyFirstPageStops(s: Settings, extractPage: PageCall -> Result<ExtractResult, ExtractError>)
    requires s.maxPages >= 1
    requires extractPage(CallOf(s, 1)).Ok? && extractPage(CallOf(s, 1)).value.records == []
    ensures Fetch(s, extractPage, 1) == ([extractPage(CallOf(s, 1)).value], None)
    ensures MainSpec(s, extractPage) == Ok(MainOutcome(0, 0, extractPage(CallOf(s, 1)).value.total))
  {
    var res := extractPage(CallOf(s, 1)).value;
    assert SumRecords([res]) == SumRecords([]) + |res.records| by {
      assert [res][..0] == [];
    }
  }

  // ---------------------------------------------------------------------------
  // Connecting the stages
  // ---------------------------------------------------------------------------

  /**
   * The envelope extract reads and the hits transform reads agree: a response
   * extract accepts is a file transform reads, with the same records, and the
   * other way round.
   */
  lemma EnvelopeAgreesWithLoadHits(data: Json)
    ensures ReadEnvelope(data).Ok? <==> LoadHits(File(Some(data))).Ok?
    ensures ReadEnvelope(data).Ok? ==> LoadHits(File(Some(data))) == Ok(ReadEnvelope(data).value.1)
  {
  }

  /** The run directory extract names after today is one transform picks up, and it reads back as today. */
  lemma RunDirNameReadBack(today: CalendarDate)
    ensures IsRunDateName("run_date=" + DateIso(today))
    ensures RunDateOf("run_date=" + DateIso(today)) == DateIso(today)
  {
    RunDateOfIsoDate(today);
    var name := RunDatePrefix + DateIso(today);
    assert name[..|RunDatePrefix|] == RunDatePrefix;
  }

  /** Every page file extract writes matches the glob `search_page=*.json` transform reads. */
  lemma RawPageNameMatches(page: int)
    ensures IsRawPageName(RawPageName(page))
  {
    var name := RawPageName(page);
    var digits := FormatZeroPadded(page, 3);
    assert name == RawPagePrefix + digits + RawPageSuffix;
    assert name[..|RawPagePrefix|] == RawPagePrefix;
    assert name[|name| - |RawPageSuffix|..] == RawPageSuffix;
  }

  /**
   * A page extract saves lies where transform looks for it: the run
   * directory is named `run_date=` and today's ISO date, which transform reads
   * back as that date, and the file name matches `search_page=*.json`; its
   * hits, read back, are the records extract returned.
   */
  lemma SavedPageIsReadBack(post: Request -> Reply, rawDir: seq<string>, source: string, size: int, offset: int,
                            page: int, userAgent: string, timeoutS: int, today: CalendarDate)
    requires ExtractPage(post, rawDir, source, size, offset, page, userAgent, timeoutS, today).Ok?
    ensures var (res, saved) := ExtractPage(post, rawDir, source, size, offset, page, userAgent, timeoutS, today).value;
      && |saved.path| == |rawDir| + 3
      && IsRunDateName(saved.path[|rawDir| + 1])
      && RunDateOf(saved.path[|rawDir| + 1]) == DateIso(today)
      && IsRawPageName(saved.path[|rawDir| + 2])
      && LoadHits(File(Some(saved.data))) == Ok(res.records)
  {
    ExtractPageOk(post, rawDir, source, size, offset, page, userAgent, timeoutS, today);
    var (res, saved) := ExtractPage(post, rawDir, source, size, offset, page, userAgent, timeoutS, today).value;
    EnvelopeAgreesWithLoadHits(saved.data);
    RunDirNameReadBack(today);
    RawPageNameMatches(page);
  }

  /**
   * With a positive page size, the first page's payload has no `from` and
   * every later page's `from` is the number of records on the pages before it.
   */
  lemma PagePayloads(s: Settings, page: int)
    requires s.pageSize > 0 && page >= 1
    ensures var c := CallOf(s, page);
      && ("from" in BuildPayload(c.size, c.offset).fields <==> page > 1)
      && (page > 1 ==> BuildPayload(c.size, c.offset).fields["from"] == JInt((page - 1) * s.pageSize))
  {
    var c := CallOf(s, page);
    PayloadShape(c.size, c.offset);
    if page > 1 {
      assert (page - 1) * s.pageSize > 0;
    } else {
      assert c.offset == 0;
    }
  }
}
