/**
 * The load stage: each posting becomes one CSV row over twelve fixed columns,
 * and the rows of a run are written, header first, to
 * `processed_root/source/run_date=<run_date>/<filename>`, replacing any earlier
 * file there. CSV quoting and the file itself are not modelled: the written
 * table is returned as a value.
 */
module Load {
  import opened Base
  import opened Dates
  import opened Models

  /** A column of the processed CSV; its header text is `ColumnName`. */
  datatype Column =
    | Source | ExternalId | Title | Company | JobUrl | PostedDate
    | ScrapedAt | LocationRaw | LocationCountry | LocationCity | EmploymentType | Description

  function ColumnName(c: Column): string {
    match c
    case Source => "source"
    case ExternalId => "external_id"
    case Title => "title"
    case Company => "company"
    case JobUrl => "job_url"
    case PostedDate => "posted_date"
    case ScrapedAt => "scraped_at"
    case LocationRaw => "location_raw"
    case LocationCountry => "location_country"
    case LocationCity => "location_city"
    case EmploymentType => "employment_type"
    case Description => "description"
  }

  /** `CSV_COLUMNS`, in file order. */
  const CsvColumns: seq<Column> := [
    Source, ExternalId, Title, Company, JobUrl, PostedDate,
    ScrapedAt, LocationRaw, LocationCountry, LocationCity, EmploymentType, Description
  ]

  /** The header line: the column names in order. */
  function Header(): (h: seq<string>)
    ensures |h| == |CsvColumns|
    ensures forall k :: 0 <= k < |h| ==> h[k] == ColumnName(CsvColumns[k])
    ensures h == ["source", "external_id", "title", "company", "job_url", "posted_date", "scraped_at",
                  "location_raw", "location_country", "location_city", "employment_type", "description"]
  {
    seq(|CsvColumns|, k requires 0 <= k < |CsvColumns| => ColumnName(CsvColumns[k]))
  }

  /** Every column occurs once in `CSV_COLUMNS`. */
  lemma ColumnsShape()
    ensures |CsvColumns| == 12
    ensures forall c: Column :: c in CsvColumns
    ensures forall i, j :: 0 <= i < j < |CsvColumns| ==> CsvColumns[i] != CsvColumns[j]
  {
    forall c: Column ensures c in CsvColumns {
      match c
      case Source => assert CsvColumns[0] == c;
      case ExternalId => assert CsvColumns[1] == c;
      case Title => assert CsvColumns[2] == c;
      case Company => assert CsvColumns[3] == c;
      case JobUrl => assert CsvColumns[4] == c;
      case PostedDate => assert CsvColumns[5] == c;
      case ScrapedAt => assert CsvColumns[6] == c;
      case LocationRaw => assert CsvColumns[7] == c;
      case LocationCountry => assert CsvColumns[8] == c;
      case LocationCity => assert CsvColumns[9] == c;
      case EmploymentType => assert CsvColumns[10] == c;
      case Description => assert CsvColumns[11] == c;
    }
  }

  /** The column a header name stands for. */
  function ColumnNamed(name: string): Option<Column> {
    if name == "source" then Some(Source)
    else if name == "external_id" then Some(ExternalId)
    else if name == "title" then Some(Title)
    else if name == "company" then Some(Company)
    else if name == "job_url" then Some(JobUrl)
    else if name == "posted_date" then Some(PostedDate)
    else if name == "scraped_at" then Some(ScrapedAt)
    else if name == "location_raw" then Some(LocationRaw)
    else if name == "location_country" then Some(LocationCountry)
    else if name == "location_city" then Some(LocationCity)
    else if name == "employment_type" then Some(EmploymentType)
    else if name == "description" then Some(Description)
    else None
  }

  /** Header names identify their columns, so the twelve header names are distinct. */
  lemma ColumnNamesDistinct(c1: Column, c2: Column)
    ensures ColumnNamed(ColumnName(c1)) == Some(c1)
    ensures ColumnName(c1) == ColumnName(c2) ==> c1 == c2
  {
    assert ColumnNamed(ColumnName(c2)) == Some(c2);
  }

  /** A value of `item.model_dump()`. */
  datatype Value = Null | Text(s: string) | Day(d: CalendarDate) | Instant(t: Timestamp)

  function OptionalValue(x: Option<string>): Value {
    if x.Some? then Text(x.value) else Null
  }

  /** `item.model_dump().get(col)`. */
  function Field(item: JobPosting, c: Column): Value {
    match c
    case Source => Text(item.source)
    case ExternalId => Text(item.externalId)
    case Title => Text(item.title)
    case Company => Text(item.company)
    case JobUrl => Text(item.jobUrl)
    case PostedDate => if item.postedDate.Some? then Day(item.postedDate.value) else Null
    case ScrapedAt => Instant(item.scrapedAt)
    case LocationRaw => OptionalValue(item.locationRaw)
    case LocationCountry => OptionalValue(item.locationCountry)
    case LocationCity => OptionalValue(item.locationCity)
    case EmploymentType => OptionalValue(item.employmentType)
    case Description => OptionalValue(item.description)
  }

  /** The two columns rendered with `isoformat()`. */
  predicate IsDateColumn(c: Column) {
    c == PostedDate || c == ScrapedAt
  }

  /** A value the rendering of that column can take: dates in the date columns, text elsewhere. */
  predicate Fits(c: Column, v: Value) {
    v.Null? || (if IsDateColumn(c) then v.Day? || v.Instant? else v.Text?)
  }

  /** `isoformat()` of a date or a UTC timestamp. */
  function Iso(v: Value): string
    requires v.Day? || v.Instant?
  {
    if v.Day? then DateIso(v.d) else DateTimeIso(v.t)
  }

  function TextOrEmpty(x: Option<string>): string {
    if x.Some? then x.value else ""
  }

  /**
   * The cell of a posting in a column: text fields as they are, missing
   * optional fields as `""`, the posting date and the scrape time in ISO form.
   */
  function CellOf(item: JobPosting, c: Column): string {
    match c
    case Source => item.source
    case ExternalId => item.externalId
    case Title => item.title
    case Company => item.company
    case JobUrl => item.jobUrl
    case PostedDate => if item.postedDate.Some? then DateIso(item.postedDate.value) else ""
    case ScrapedAt => DateTimeIso(item.scrapedAt)
    case LocationRaw => TextOrEmpty(item.locationRaw)
    case LocationCountry => TextOrEmpty(item.locationCountry)
    case LocationCity => TextOrEmpty(item.locationCity)
    case EmploymentType => TextOrEmpty(item.employmentType)
    case Description => TextOrEmpty(item.description)
  }

  /** The row of a posting: one cell per column. */
  function RowOf(item: JobPosting): map<Column, string> {
    map c: Column | c in CsvColumns :: CellOf(item, c)
  }

  /** A row has exactly one cell per column, each the posting's cell for that column. */
  lemma RowHasEveryColumn(item: JobPosting)
    ensures forall c: Column :: c in RowOf(item) && RowOf(item)[c] == CellOf(item, c)
  {
    ColumnsShape();
  }

  /**
   * Every column's dumped value fits its rendering; a missing value renders as
   * `""`, a date column's value as its ISO form, any other as its text.
   */
  lemma RenderedCell(item: JobPosting, c: Column)
    ensures Fits(c, Field(item, c))
    ensures Field(item, c).Null? ==> CellOf(item, c) == ""
    ensures !Field(item, c).Null? && IsDateColumn(c) ==> CellOf(item, c) == Iso(Field(item, c))
    ensures !Field(item, c).Null? && !IsDateColumn(c) ==> CellOf(item, c) == Field(item, c).s
  {
  }

  /** One cell of `_to_row`: `""` for None, `isoformat()` for the date columns, `str(val)` otherwise. */
  method RenderCell(item: JobPosting, col: Column) returns (cell: string)
    ensures cell == CellOf(item, col)
  {
    var val := Field(item, col);
    RenderedCell(item, col);
    if val.Null? {
      cell := "";
    } else if IsDateColumn(col) {
      cell := Iso(val);
    } else {
      cell := val.s;
    }
  }

  /** `_to_row(item)`: fills the row one column at a time. */
  method ToRow(item: JobPosting) returns (row: map<Column, string>)
    ensures row == RowOf(item)
  {
    row := map[];
    for i := 0 to |CsvColumns|
      invariant row.Keys == set c | c in CsvColumns[..i]
      invariant forall c :: c in row ==> row[c] == CellOf(item, c)
    {
      var col := CsvColumns[i];
      var cell := RenderCell(item, col);
      row := row[col := cell];
      assert CsvColumns[..i + 1] == CsvColumns[..i] + [col];
    }
    assert CsvColumns[..|CsvColumns|] == CsvColumns;
  }

  // ---------------------------------------------------------------------------
  // write_job_postings_csv
  // ---------------------------------------------------------------------------

  /** `LoadResult(out_path, rows_written)`. */
  datatype LoadResult = LoadResult(outPath: seq<string>, rowsWritten: nat)

  /** The written file: the header line, then the rows. */
  datatype CsvTable = CsvTable(header: seq<string>, rows: seq<map<Column, string>>)

  /** The rows of the items, in the order received. */
  function Rows(items: seq<JobPosting>): (rows: seq<map<Column, string>>)
    ensures |rows| == |items|
    ensures forall k :: 0 <= k < |items| ==> rows[k] == RowOf(items[k])
  {
    seq(|items|, k requires 0 <= k < |items| => RowOf(items[k]))
  }

  /** `processed_root / source / f"run_date={run_date}" / filename`, as path components. */
  function OutPath(processedRoot: seq<string>, source: string, runDate: string, filename: string): (p: seq<string>)
    ensures |p| == |processedRoot| + 3 && p[..|processedRoot|] == processedRoot
    ensures p[|processedRoot|..] == [source, "run_date=" + runDate, filename]
  {
    processedRoot + [source, "run_date=" + runDate, filename]
  }

  /**
   * `write_job_postings_csv(...)`: writes the header and one row per item,
   * counting the rows.
   */
  method WriteJobPostingsCsv(items: seq<JobPosting>, processedRoot: seq<string>, source: string,
                             runDate: string, filename: string)
    returns (result: LoadResult, written: CsvTable)
    ensures result.outPath == OutPath(processedRoot, source, runDate, filename)
    ensures result.rowsWritten == |items|
    ensures written == CsvTable(Header(), Rows(items))
  {
    var outPath := OutPath(processedRoot, source, runDate, filename);
    var rows: seq<map<Column, string>> := [];
    var count := 0;
    for i := 0 to |items|
      invariant count == i
      invariant rows == Rows(items[..i])
    {
      var row := ToRow(items[i]);
      rows := rows + [row];
      count := count + 1;
    }
    assert items[..|items|] == items;
    result := LoadResult(outPath, count);
    written := CsvTable(Header(), rows);
  }

  /** Storing a written table at its path: the file is opened for writing, so it is replaced. */
  function Store(files: map<seq<string>, CsvTable>, path: seq<string>, table: CsvTable): map<seq<string>, CsvTable> {
    files[path := table]
  }

  /**
   * `write_job_postings_csv` followed by the write it performs: the table the
   * method produces is stored at its output path.
   */
  method WriteAndStore(files: map<seq<string>, CsvTable>, items: seq<JobPosting>, processedRoot: seq<string>,
                       source: string, runDate: string, filename: string)
    returns (result: LoadResult, after: map<seq<string>, CsvTable>)
    ensures result.rowsWritten == |items|
    ensures after == Store(files, OutPath(processedRoot, source, runDate, filename), CsvTable(Header(), Rows(items)))
  {
    var written;
    result, written := WriteJobPostingsCsv(items, processedRoot, source, runDate, filename);
    after := Store(files, result.outPath, written);
  }

  /**
   * Re-running the load overwrites rather than appends: after storing the
   * table of `items` at its output path, that path holds the header and
   * exactly one row per item, whatever an earlier run (of any items) left
   * there; other files are untouched; and storing the same items twice is the
   * same as storing them once.
   */
  lemma StoreOverwrites(files: map<seq<string>, CsvTable>, earlier: seq<JobPosting>, items: seq<JobPosting>,
                        processedRoot: seq<string>, source: string, runDate: string, filename: string)
    ensures var path := OutPath(processedRoot, source, runDate, filename);
      var table := CsvTable(Header(), Rows(items));
      && Store(files, path, table)[path].header == Header()
      && |Store(files, path, table)[path].rows| == |items|
      && (forall k :: 0 <= k < |items| ==> Store(files, path, table)[path].rows[k] == RowOf(items[k]))
      && Store(Store(files, path, CsvTable(Header(), Rows(earlier))), path, table) == Store(files, path, table)
      && Store(Store(files, path, table), path, table) == Store(files, path, table)
      && (forall q :: q in files && q != path ==> q in Store(files, path, table) && Store(files, path, table)[q] == files[q])
  {
  }
}
