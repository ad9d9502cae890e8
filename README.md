# public-data-scraper, modelled in Dafny

public-data-scraper downloads job postings from IBM's careers search API and
turns them into a CSV file. It has three stages:

- **Extract**: `extract_page` POSTs one Elasticsearch-style query per page to
  the search endpoint. It reads `hits.total.value` and `hits.hits` from the
  response and saves the whole response as
  `raw/<source>/run_date=<today UTC>/search_page=<NNN>.json`. The entry point
  `main` requests pages 1 to `max_pages` with offset `(page - 1) * page_size`
  and stops after the first empty page.
- **Transform**: `transform_latest_run` picks the greatest `run_date=*`
  directory of a source and reads its `search_page=*.json` files in name order.
  It maps every hit to a `JobPostingV1` and keeps the first posting for each
  deduplication key `source::external_id`. It counts the records read, the
  duplicates dropped and the records that could not be mapped.
- **Load**: `write_job_postings_csv` writes the postings, header first, over
  twelve fixed columns to
  `processed/<source>/run_date=<run_date>/<filename>`. Each run replaces the
  earlier file.

The model has one module per source file:

- `Models` models `models.py`.
- `Mappers` models `mappers.py`.
- `Extract` models `extract.py`.
- `Transform` models `transform.py`.
- `Load` models `load.py`.
- `Pipeline` models `__main__.py`, plus lemmas that join the stages.

Five support modules give the Python semantics the code relies on:

- `Base`: `Option` and `Result`.
- `Json`: decoded JSON, truthiness, `x or y`, `.get`, `str(x)`.
- `Text`: `str.strip`, `str.split`, string order, `%0Nd` formatting.
- `Dates`: `date.isoformat`, `datetime.isoformat`.
- `Fs`: a directory tree as a value, and `sorted` over a directory's entries.

The pure files (`models.py`, `mappers.py`, `extract.py`) become functions and
lemmas. The loops of `transform.py`, `load.py` and `__main__.py` become
methods. Each method's `ensures` equates its result with a specification
function (`TransformSpec`, `Rows`/`RowOf`, `MainSpec`), and lemmas prove what
the code promises about those functions.

The outside world is passed in as parameters:

- The HTTP client is a function `post` from request to reply.
- `extract_page`, as seen by `main`, is a parameter `extractPage`.
- The current UTC date and time are the parameters `today` and `now`.
- The raw data tree is a value of type `Fs.Node`.
- Files written by the code are returned as values (`SavedFile`, `CsvTable`,
  `Store`).

Two points about what the code does:

- **One request per page.** `extract_page` makes exactly one request and
  raises on any non-2xx status (`Extract.ExtractPageOneAttempt`,
  `Extract.ExtractPageStatus`). There are no retries: `retry_attempts` is read
  into the settings and used nowhere.
- **Deduplication within one run.** Deduplication covers only the files of the
  latest run; postings repeated across runs are not merged.

## Model

| member | source | states |
|---|---|---|
| Models.DedupeKey | src/scraper/models.py:47-50 | the key is the source, then `::`, then the external id, each at a fixed position of the text |
| Models.DedupeKeyInjective | src/scraper/models.py:48-50 | within one source, two ids have the same key exactly when they are equal |
| Models.DedupeKeyAmbiguousAcrossSources | src/scraper/models.py:48-50 | across sources the key is not injective: ("a:", ":b") and ("a", "::b") share a key |
| Models.DedupeKeyExamples | tests/test_dedupe_key.py:4-11 | `ibm_careers::80194` is the key of ("ibm_careers", "80194") and differs from the key of id "99999" |
| Models.NewJobPosting | src/scraper/models.py:13-45 | construction succeeds iff `job_url` is an http(s) URL and `location_raw`/`description` are text or None; every given field is kept, `company` defaults to "IBM" and `scraped_at` to the current time |
| Models.Defaults | src/scraper/models.py:31-45 | a posting built from the required fields alone has company "IBM", scraped_at now, and no date, location, employment type or description |
| Models.HttpsUrl | src/scraper/models.py:32 | `https://<host>/<path>` with a non-empty host without blanks or delimiters is accepted as an `HttpUrl` |
| Mappers.FirstValue | src/scraper/mappers.py:15-17 | the value of the first query pair with the given name, or None exactly when no pair has that name |
| Mappers.QueryPairs | src/scraper/mappers.py:15 | `parse_qs` keeps no pair with an empty value |
| Mappers.ExtractJobId | src/scraper/mappers.py:9-21 | a result is a non-empty value of the first `jobId` pair of the URL's query; None means `urlparse` raised (unbalanced IPv6 brackets) or there is no `jobId` pair |
| Mappers.NoBracketsNoIPv6Error | src/scraper/mappers.py:14-20 | a URL without `[` or `]` never takes the exception path |
| Mappers.QueryAfterMark | src/scraper/mappers.py:15 | the query is the text after the first `?` when no `#` occurs |
| Mappers.JobIdOfDetailUrl | src/scraper/mappers.py:9-21 | for every plain base URL and non-empty plain id, `<base>?jobId=<id>` yields that id |
| Mappers.IbmJobDetailExample | tests/test_mappers.py:4-6 | the example detail URL with `jobId=80194` yields "80194" |
| Mappers.ParseLocation | src/scraper/mappers.py:24-37 | city and country are both present or both absent, and present only for a text containing a comma |
| Mappers.ParsedLocationIsClean | src/scraper/mappers.py:33-35 | a parsed city and country are non-empty, trimmed and comma-free |
| Mappers.NoCommaNoSplit | src/scraper/mappers.py:33-37 | a location without a comma gives (None, None) |
| Mappers.ParseLocationFirstTwo | src/scraper/mappers.py:33-35 | the trimmed first two comma-separated parts are the city and country, whatever follows a second comma |
| Mappers.ParseLocationEmptyPiece | src/scraper/mappers.py:33-37 | when the trimmed first or second comma-separated piece is empty, nothing is split, whatever follows |
| Mappers.ParseLocationRoundTrip | src/scraper/mappers.py:24-37 | parsing `city + ", " + country` gives back city and country for clean non-empty parts |
| Mappers.HyderabadExample | src/scraper/mappers.py:26-28 | "Hyderabad, IN" parses to ("Hyderabad", "IN") |
| Mappers.JobPostingFromApiRecord | src/scraper/mappers.py:40-85 | a mapped posting comes from a dict record whose `_source` is a dict |
| Mappers.MappedPosting | src/scraper/mappers.py:56-85 | a mapped posting has a truthy valid URL, the URL's jobId or else `str(_id)` as its non-empty id, the trimmed non-empty title, the given source, company "IBM", the raw location and its split, the source's description unchanged (None when null), and no date or employment type |
| Mappers.WithoutUrlNoPosting | src/scraper/mappers.py:58-60 | a record without a truthy `_source.url` is rejected |
| Mappers.WithoutIdNoPosting | src/scraper/mappers.py:62-64 | with no jobId in the URL and no truthy `_id` the record is rejected as missing its id |
| Mappers.WithoutTitleNoPosting | src/scraper/mappers.py:66-68 | a missing, falsy or blank title rejects the record as missing its title |
| Mappers.MappedFromParts | src/scraper/mappers.py:56-85 | a record with a valid URL carrying a jobId, a trimmed title and a text location maps to a posting with exactly that id, title, URL and location split |
| Mappers.ExampleUrlFacts | tests/test_mappers.py:4-6 | the example URL is a valid `HttpUrl` and its jobId is "80194" |
| Mappers.ExampleRecordMaps | tests/test_mappers.py:9-29 | the example record maps with source, id "80194" (not `_id`), title, URL, raw location and city "Hyderabad", country "IN" |
| Fs.SortByName | src/scraper/transform.py:31 | `sorted` over a directory's entries is ordered by name and a permutation of them |
| Transform.RunDirs | src/scraper/transform.py:31 | sorted by name, and holds exactly the `run_date=*` subdirectories of the source directory |
| Transform.LatestRunDateDirIsGreatest | src/scraper/transform.py:23-35 | fails for a missing source directory, or one without run directories, exactly then; otherwise returns a run directory of the source whose name is the greatest |
| Transform.LatestRunIsLatestDate | src/scraper/transform.py:23-35 | when run directories are named by ISO dates, no run has a later date than the chosen one |
| Dates.IsoOrderIsCalendarOrder | src/scraper/transform.py:31-35 | ISO date texts compare as text exactly as the dates compare in the calendar |
| Transform.RunDateRoundTrip | src/scraper/transform.py:52 | `name.split("run_date=")[-1]` of `run_date=<d>` is d when d does not contain the prefix |
| Transform.RunDateOfIsoDate | src/scraper/transform.py:52 | the run date read from `run_date=<ISO date>` is that ISO date |
| Transform.LoadHitsShapes | src/scraper/transform.py:38-43 | an envelope gives its hits; a missing or null `hits` gives []; a non-dict document raises; a truthy non-list `hits.hits` raises |
| Transform.RawFiles | src/scraper/transform.py:54 | the page files are in name order, and an entry is listed exactly when it is in the run directory and matches `search_page=*.json` |
| Transform.LoadAll | src/scraper/transform.py:65-66 | one batch of hits per page file when all load |
| Transform.LoadAllBatches | src/scraper/transform.py:65-66 | the k-th batch is the hits of the k-th page file |
| Transform.LoadAllFirstError | src/scraper/transform.py:65-66 | the first page file that fails aborts the run: later files do not matter |
| Transform.CountOne | src/scraper/transform.py:70-82 | one record's branch: invalid, duplicate or kept, as one step of the dedup fold |
| Transform.ProcessHits | src/scraper/transform.py:69-82 | the counters and kept items after a page are the dedup fold over the mapped records so far |
| Transform.ReadPages | src/scraper/transform.py:65-82 | the loop over page files computes the records-in count and the fold, or the first load error |
| Transform.TransformLatestRun | src/scraper/transform.py:46-91 | the method equals `TransformSpec`, the function that gives the whole transform run, error cases included |
| Transform.TalliedCounts | src/scraper/transform.py:69-82 | invalid = records − mapped, and duplicates + kept = mapped |
| Transform.TalliedSeen | src/scraper/transform.py:76-81 | the seen-key set is the key set of the kept items and of all mapped postings |
| Transform.TalliedDistinct | src/scraper/transform.py:76-82 | no two kept items share a key |
| Transform.TalliedFirst | src/scraper/transform.py:69-82 | each kept item is the first mapped posting with its key |
| Transform.TalliedSubsequence | src/scraper/transform.py:69-82 | the kept items are a subsequence of the mapped postings, in their order |
| Transform.TalliedKnownKeys | src/scraper/transform.py:76-79 | records whose keys were all seen before change neither the items nor the seen set |
| Transform.Repeated | src/scraper/transform.py:65-82 | reading the same records twice keeps the same items and drops every second copy as a duplicate |
| Transform.DedupFacts | src/scraper/transform.py:58-82 | over any records: in = out + duplicates + invalid, every mapped key is kept once, as its first posting, with the run's source, a non-empty id and a title |
| Transform.RunIsDedup | src/scraper/transform.py:58-91 | a successful run reports the dedup of all hits of its page files, in file order |
| Transform.TransformResultFacts | src/scraper/transform.py:84-91 | the reported counts add up, records_out is the number of items, and the items are the distinct first postings of the run |
| Transform.NoPagesNoRun | src/scraper/transform.py:54-56 | a latest run without page files fails with "no raw page files" |
| Transform.RunDateOfResult | src/scraper/transform.py:51-52 | the reported run date is read from the latest run directory's name |
| Extract.PayloadShape | src/scraper/extract.py:41-58 | `from` is present iff offset > 0, then equal to the offset; `size` is the size; no other keys than the fixed nine |
| Extract.PayloadConstants | src/scraper/extract.py:41-51 | every key other than `size` and `from` is the same for all sizes and offsets |
| Extract.PayloadSourceFields | src/scraper/extract.py:22-50 | `_source` lists the ten default fields |
| Extract.EnvelopeCases | src/scraper/extract.py:103-109 | an empty reply gives no total and no records; `hits.total.value` and `hits.hits` are read back; any non-dict total gives None; non-dicts and a non-list `hits.hits` raise |
| Extract.RawPath | src/scraper/extract.py:61-67 | the raw file lies at `raw_dir/source/run_date=<date>/search_page=<page>.json` |
| Extract.RawPageNameWidth | src/scraper/extract.py:65 | pages 0 to 999 are printed with exactly three digits |
| Extract.RawPageNameOrder | src/scraper/extract.py:65 | for pages 0 to 999, file names sort as the page numbers do |
| Dates.DateIso | src/scraper/extract.py:111 | a date prints as ten characters: four digits, dash, two digits, dash, two digits |
| Dates.DateTimeIso | src/scraper/load.py:44-46 | a UTC timestamp prints as its ISO date, `T`, two-digit hour, minute and second separated by `:` that read back as the fields, `.` and six digits reading back as the microseconds exactly when these are not zero, then `+00:00` |
| Extract.ExtractPageOk | src/scraper/extract.py:70-114 | a page result comes from a 2xx JSON reply; its records and total are the envelope's; the saved file holds the whole reply at the page's raw path under today's date |
| Extract.ExtractPageSucceeds | src/scraper/extract.py:97-114 | conversely, a 2xx reply with a JSON body whose envelope reads gives exactly that envelope's records and total and saves the whole body at the page's raw path under today's date |
| Extract.ExtractPageFailures | src/scraper/extract.py:97-112 | a transport failure, a 2xx body that is not JSON and a malformed envelope each fail with their own error, before anything is saved |
| Extract.ExtractPageOneAttempt | src/scraper/extract.py:97 | the result depends only on the reply to the one request sent |
| Extract.ExtractPageStatus | src/scraper/extract.py:97-98 | a non-2xx reply fails with that status |
| Load.Header | src/scraper/load.py:18-31 | the header is exactly the twelve names source, external_id, title, company, job_url, posted_date, scraped_at, location_raw, location_country, location_city, employment_type, description, in that order |
| Load.ColumnsShape | src/scraper/load.py:18-31 | twelve columns, each posting field once |
| Load.ColumnNamesDistinct | src/scraper/load.py:18-31 | column names identify their columns |
| Load.RowHasEveryColumn | src/scraper/load.py:34-50 | a row has a cell for every column |
| Load.RenderedCell | src/scraper/load.py:42-48 | None renders as "", dates and timestamps as ISO text, other values as their text |
| Load.RenderCell | src/scraper/load.py:40-48 | one cell is the column's rendering of the posting's value |
| Load.ToRow | src/scraper/load.py:34-50 | the loop over columns builds `RowOf(item)`: one cell per column, each rendered by `CellOf` |
| Load.Rows | src/scraper/load.py:74-75 | one row per item, in order |
| Load.OutPath | src/scraper/load.py:65-68 | the output lies at `processed_root/source/run_date=<run_date>/<filename>` |
| Load.WriteJobPostingsCsv | src/scraper/load.py:53-78 | writes the header and one row per item, reports that count and the output path |
| Load.WriteAndStore | src/scraper/load.py:53-78 | writing the CSV stores the header and `Rows(items)` at the output path and reports one row per item |
| Load.StoreOverwrites | src/scraper/load.py:61-71 | after a write, the output path holds the header and one row per item in order, whatever an earlier run of any items left there; other files are untouched; writing the same items twice equals writing once |
| Pipeline.CallOf | src/scraper/__main__.py:21-33 | page k is requested with size page_size and offset (k − 1) · page_size for source "ibm_careers" |
| Pipeline.RunMain | src/scraper/__main__.py:12-49 | the page loop equals `MainSpec`: pages until the first empty one or max_pages, the summed record count, the last total, or the first error |
| Pipeline.FetchShape | src/scraper/__main__.py:21-43 | at most max_pages pages; the k-th is the answer for page k; all but the last are non-empty; an early stop follows an empty page; an error is the answer for the next page |
| Pipeline.MainOutcomeFacts | src/scraper/__main__.py:17-49 | a completed run exits 0 with the record total summed over the fetched pages and the last page's total |
| Pipeline.EmptyFirstPageStops | src/scraper/__main__.py:42-43 | an empty first page ends the run after one request with zero records |
| Pipeline.PagePayloads | src/scraper/__main__.py:21-26 | page 1 sends no `from`; page k > 1 sends `from` = (k − 1) · page_size |
| Pipeline.EnvelopeAgreesWithLoadHits | src/scraper/transform.py:38-43 | extract's envelope reading and transform's hits reading succeed on the same documents and agree on the records |
| Pipeline.RunDirNameReadBack | src/scraper/extract.py:62 | the run directory extract creates matches transform's glob, and transform reads today's date back from it |
| Pipeline.RawPageNameMatches | src/scraper/extract.py:65 | every raw file name extract writes matches transform's `search_page=*.json` |
| Pipeline.SavedPageIsReadBack | src/scraper/extract.py:111-114 | a saved page sits in a run directory dated today, under a matching file name, and transform reads back exactly the records extract returned |

## Left out

- HTTP transport: `httpx.Client` is the function `post` from request to reply. Connection errors are one `TransportFailure` reply. Timeouts and headers are carried in the request but have no effect.
- Retries and backoff: the code has none, so none are modelled. `retry_attempts` is kept in `Settings` and used nowhere, as in the code.
- `time.sleep(1.2)` between pages and every `print` are left out; they do not affect results.
- `config.py` (`load_settings`) is not part of this model: the settings are a value of type `Pipeline.Settings`.
- The `mkdir` calls are left out. Writing the raw file and the CSV is modelled as a returned value (`SavedFile`, `CsvTable`, `Load.Store`), not as a change to the file system.
- JSON text: files hold already-decoded values, and a file that is not valid JSON holds nothing. Floats, duplicate keys and key order are not modelled; `json.dumps` formatting is not modelled.
- CSV text: `csv.DictWriter` quoting, escaping and line endings are not modelled; the written table is the header and the rows.
- `urlparse`/`parse_qs`: the model covers what decides the jobId, namely:
  - removal of leading C0 characters and of tab, CR and LF;
  - scheme and netloc splitting;
  - the IPv6 bracket check;
  - `&`-separated fields;
  - `+` read as a space;
  - blank values dropped.

  Percent-decoding is not modelled, and neither are the `max_num_fields` limit and the remaining bracket checks.
- Mappers.ExtractJobId: `urlsplit`'s `_checknetloc` check is not modelled. It raises `ValueError` for a non-ASCII netloc whose NFKC normal form contains one of `/?#@:`, and `extract_job_id` then returns None. The model, which has no Unicode normalisation, returns the URL's `jobId` for such a URL.
- Models.NewJobPosting: pydantic's `HttpUrl` is approximated by `IsHttpUrl`: http or https, a non-empty host without blanks, at most 2083 characters. The URL is kept as given, not normalised. Coercion of non-text values into text fields is not modelled; such values make construction fail.
- Json.PyStr: `str()` of a list or dict id renders as a placeholder, not as Python's repr.
- `scraped_at`: the code calls `datetime.now` once per posting. The model passes one `now` for the whole transform run.
- `extract_page`'s run date: `datetime.utcnow()` is the parameter `today`.
- Extract.RawPageNameOrder: stated for pages 0 to 999 only. `%03d` does not pad page 1000 or above to a common width, so those file names no longer sort in page order.
- The source name is taken as a single path segment. A source containing `/` would nest the directories.
- Symbolic links, permissions and read errors other than reading a directory are not modelled: the data tree is a value.
