/**
 * Mapping one raw search hit to a canonical posting: the job id taken from the
 * URL's query string, the "City, CC" location split, and the record mapping
 * that either yields a complete posting or fails with the reason.
 */
module Mappers {
  import opened Base
  import opened Text
  import opened Json
  import opened Dates
  import opened Models

  // ---------------------------------------------------------------------------
  // extract_job_id: urlparse(url).query, then parse_qs
  // ---------------------------------------------------------------------------

  /** Characters `urlsplit` strips from the front of a URL (C0 controls and space). */
  predicate IsC0OrSpace(c: char) { c as int <= 0x20 }

  /** Characters `urlsplit` deletes wherever they occur. */
  predicate IsUnsafeUrlChar(c: char) { c == '\t' || c == '\r' || c == '\n' }

  function DropLeadingC0(s: string): (r: string)
    ensures r == [] || !IsC0OrSpace(r[0])
    ensures |r| <= |s|
  {
    if s != [] && IsC0OrSpace(s[0]) then DropLeadingC0(s[1..]) else s
  }

  function RemoveUnsafe(s: string): (r: string)
    ensures forall k :: 0 <= k < |r| ==> !IsUnsafeUrlChar(r[k])
    ensures |r| <= |s|
  {
    if s == [] then []
    else if IsUnsafeUrlChar(s[0]) then RemoveUnsafe(s[1..])
    else [s[0]] + RemoveUnsafe(s[1..])
  }

  /** The URL text `urlsplit` actually parses. */
  function CleanUrl(url: string): string {
    RemoveUnsafe(DropLeadingC0(url))
  }

  predicate IsAsciiLetter(c: char) { 'a' <= c <= 'z' || 'A' <= c <= 'Z' }

  predicate IsSchemeChar(c: char) {
    IsAsciiLetter(c) || IsDigit(c) || c == '+' || c == '-' || c == '.'
  }

  /** Index of the first occurrence of `c` in `s`, if any. */
  function IndexOf(s: string, c: char): (r: Option<nat>)
    ensures r.Some? ==> r.value < |s| && s[r.value] == c && c !in s[..r.value]
    ensures r.None? ==> c !in s
  {
    if s == [] then None
    else if s[0] == c then Some(0)
    else
      var r := IndexOf(s[1..], c);
      if r.None? then None
      else
        assert s[..r.value + 1] == [s[0]] + s[1..][..r.value];
        Some(r.value + 1)
  }

  /** The URL after its `scheme:` prefix, when `urlsplit` recognises one. */
  function AfterScheme(url: string): string {
    match IndexOf(url, ':')
    case Some(i) =>
      if i > 0 && IsAsciiLetter(url[0]) && forall k :: 0 <= k < i ==> IsSchemeChar(url[k])
      then url[i + 1..] else url
    case None => url
  }

  /** The netloc `urlsplit` cuts out after `//`: up to the first `/`, `?` or `#`. */
  function Netloc(url: string): Option<string> {
    var rest := AfterScheme(url);
    if |rest| >= 2 && rest[..2] == "//" then Some(Authority(rest[2..])) else None
  }

  /** `urlsplit` raises `ValueError("Invalid IPv6 URL")` when the netloc has only one of `[`, `]`. */
  predicate RaisesInvalidIPv6(url: string) {
    var n := Netloc(url);
    n.Some? && (('[' in n.value) != (']' in n.value))
  }

  /** Text before the first occurrence of `c`, or all of `s`. */
  function UpTo(s: string, c: char): (r: string)
    ensures c !in r
  {
    match IndexOf(s, c)
    case Some(i) => s[..i]
    case None => s
  }

  /** `urlsplit(url).query`: between the first `?` and the fragment, or empty. */
  function Query(url: string): string {
    var noFragment := UpTo(url, '#');
    match IndexOf(noFragment, '?')
    case Some(i) => noFragment[i + 1..]
    case None => []
  }

  /** `s.replace('+', ' ')`, the form decoding `parse_qs` applies to names and values. */
  function PlusToSpace(s: string): (r: string)
    ensures |r| == |s|
    ensures '+' !in s ==> r == s
  {
    if s == [] then [] else [if s[0] == '+' then ' ' else s[0]] + PlusToSpace(s[1..])
  }

  /**
   * `parse_qsl(query)`: the `&`-separated fields; fields without `=` and fields
   * whose value is blank are dropped; the name ends at the first `=`.
   */
  function QueryPairs(query: string): (pairs: seq<(string, string)>)
    ensures forall k :: 0 <= k < |pairs| ==> pairs[k].1 != []
  {
    if query == [] then [] else FieldPairs(Split(query, "&"))
  }

  function FieldPairs(fields: seq<string>): (pairs: seq<(string, string)>)
    ensures forall k :: 0 <= k < |pairs| ==> pairs[k].1 != []
  {
    if fields == [] then []
    else
      var rest := FieldPairs(fields[1..]);
      var f := fields[0];
      match IndexOf(f, '=')
      case Some(i) =>
        if i + 1 < |f| then [(PlusToSpace(f[..i]), PlusToSpace(f[i + 1..]))] + rest else rest
      case None => rest
  }

  /** `parse_qs(query).get(name)[0]`: the first value given for `name`. */
  function FirstValue(pairs: seq<(string, string)>, name: string): (r: Option<string>)
    ensures r.Some? ==> exists k :: 0 <= k < |pairs| && pairs[k] == (name, r.value)
                                    && forall j :: 0 <= j < k ==> pairs[j].0 != name
    ensures r.None? ==> forall k :: 0 <= k < |pairs| ==> pairs[k].0 != name
  {
    if pairs == [] then None
    else if pairs[0].0 == name then Some(pairs[0].1)
    else
      var r := FirstValue(pairs[1..], name);
      if r.Some? then
        var k :| 0 <= k < |pairs[1..]| && pairs[1..][k] == (name, r.value)
                 && forall j :: 0 <= j < k ==> pairs[1..][j].0 != name;
        assert pairs[k + 1] == (name, r.value);
        assert forall j :: 0 <= j < k + 1 ==> pairs[j].0 != name by {
          forall j | 0 <= j < k + 1 ensures pairs[j].0 != name {
            if j > 0 { assert pairs[j] == pairs[1..][j - 1]; }
          }
        }
        r
      else r
  }

  /**
   * `extract_job_id(url)`: the first non-blank `jobId` value of the URL's query,
   * or `None` when there is none or when parsing the URL raises.
   */
  function ExtractJobId(url: string): (r: Option<string>)
    ensures r.Some? ==> r.value != [] && !RaisesInvalidIPv6(CleanUrl(url))
    ensures r.Some? ==>
      var pairs := QueryPairs(Query(CleanUrl(url)));
      exists k :: 0 <= k < |pairs| && pairs[k] == ("jobId", r.value)
                  && forall j :: 0 <= j < k ==> pairs[j].0 != "jobId"
    ensures r.None? ==>
      RaisesInvalidIPv6(CleanUrl(url))
      || forall k :: 0 <= k < |QueryPairs(Query(CleanUrl(url)))| ==> QueryPairs(Query(CleanUrl(url)))[k].0 != "jobId"
  {
    var u := CleanUrl(url);
    if RaisesInvalidIPv6(u) then None
    else FirstValue(QueryPairs(Query(u)), "jobId")
  }

  // ---------------------------------------------------------------------------
  // parse_location
  // ---------------------------------------------------------------------------

  function StripAll(parts: seq<string>): (r: seq<string>)
    ensures |r| == |parts|
    ensures forall k :: 0 <= k < |r| ==> r[k] == Strip(parts[k])
  {
    if parts == [] then [] else [Strip(parts[0])] + StripAll(parts[1..])
  }

  /**
   * `parse_location(raw)`: `(city, country)` from the first two comma-separated,
   * trimmed pieces when both are non-empty; `(None, None)` otherwise.
   */
  function ParseLocation(raw: Option<string>): (r: (Option<string>, Option<string>))
    ensures r.0.Some? <==> r.1.Some?
    ensures r.0.Some? ==> raw.Some? && ',' in raw.value
  {
    if raw.None? || raw.value == [] then (None, None)
    else
      var parts := StripAll(Split(raw.value, ","));
      if |parts| >= 2 && parts[0] != [] && parts[1] != [] then
        assert ',' in raw.value by {
          if ',' !in raw.value { SplitAbsent(raw.value, ','); }
        }
        (Some(parts[0]), Some(parts[1]))
      else (None, None)
  }

  /** Whatever `ParseLocation` returns is non-empty, comma-free and trimmed. */
  lemma ParsedLocationIsClean(raw: Option<string>)
    ensures var r := ParseLocation(raw);
      r.0.Some? ==> && r.0.value != [] && r.1.value != []
                    && ',' !in r.0.value && ',' !in r.1.value
                    && IsStripped(r.0.value) && IsStripped(r.1.value)
  {
    if raw.Some? && raw.value != [] {
      var pieces := Split(raw.value, ",");
      SplitPiecesFree(raw.value, ',');
      if |pieces| >= 2 {
        StripKeepsOut(pieces[0], ',');
        StripKeepsOut(pieces[1], ',');
      }
    }
  }

  lemma StripKeepsOut(s: string, c: char)
    requires c !in s
    ensures c !in Strip(s)
  {
    var a := LeadingSpaces(s);
    assert Strip(s) == s[a..a + |Strip(s)|];
  }

  /** No comma: nothing to split, only the raw text is kept. */
  lemma NoCommaNoSplit(s: string)
    requires ',' !in s
    ensures ParseLocation(Some(s)) == (None, None)
  {
  }

  /** Splitting `a,b<tail>` on commas, where the tail is empty or starts a further piece, gives `a` and `b` first. */
  lemma {:induction false} SplitFirstTwo(a: string, b: string, tail: string)
    requires ',' !in a && ',' !in b
    requires tail == [] || tail[0] == ','
    ensures var parts := Split(a + "," + b + tail, ",");
      |parts| >= 2 && parts[0] == a && parts[1] == b
  {
    var s := a + "," + b + tail;
    assert s == a + [','] + (b + tail);
    SplitAt(a, ',', b + tail);
    var rest := Split(b + tail, ",");
    assert Split(s, ",") == [a] + rest;
    if tail == [] {
      assert b + tail == b;
      SplitAbsent(b, ',');
      assert rest == [b];
    } else {
      assert b + tail == b + [','] + tail[1..];
      SplitAt(b, ',', tail[1..]);
      assert rest[0] == b;
    }
  }

  /**
   * `"{city}, {country}"` with anything after a further comma: parsing recovers
   * the trimmed city and country and ignores the rest.
   */
  lemma ParseLocationFirstTwo(a: string, b: string, tail: string)
    requires ',' !in a && ',' !in b
    requires tail == [] || tail[0] == ','
    requires Strip(a) != [] && Strip(b) != []
    ensures ParseLocation(Some(a + "," + b + tail)) == (Some(Strip(a)), Some(Strip(b)))
  {
    var s := a + "," + b + tail;
    SplitFirstTwo(a, b, tail);
    var parts := StripAll(Split(s, ","));
    assert parts[0] == Strip(a) && parts[1] == Strip(b);
    assert s != [];
  }

  /**
   * `"{city},{country}"` where the trimmed city or the trimmed country is
   * empty: nothing is split, whatever follows a further comma.
   */
  lemma ParseLocationEmptyPiece(a: string, b: string, tail: string)
    requires ',' !in a && ',' !in b
    requires tail == [] || tail[0] == ','
    requires Strip(a) == [] || Strip(b) == []
    ensures ParseLocation(Some(a + "," + b + tail)) == (None, None)
  {
    var s := a + "," + b + tail;
    SplitFirstTwo(a, b, tail);
    var parts := StripAll(Split(s, ","));
    assert parts[0] == Strip(a) && parts[1] == Strip(b);
    assert s != [];
  }

  /** Formatting a clean city and country as "City, CC" and parsing gives them back. */
  lemma ParseLocationRoundTrip(city: string, country: string)
    requires city != [] && country != [] && IsStripped(city) && IsStripped(country)
    requires ',' !in city && ',' !in country
    ensures ParseLocation(Some(city + ", " + country)) == (Some(city), Some(country))
  {
    StripStripped(city);
    StripPadded(" ", country, []);
    assert " " + country + [] == " " + country;
    assert city + ", " + country == city + "," + (" " + country) + [];
    ParseLocationFirstTwo(city, " " + country, []);
  }

  /** The repository's example: "Hyderabad, IN" splits into city "Hyderabad" and country "IN". */
  lemma HyderabadExample()
    ensures ParseLocation(Some("Hyderabad, IN")) == (Some("Hyderabad"), Some("IN"))
  {
    var city, country := "Hyderabad", "IN";
    CleanPiece(city);
    CleanPiece(country);
    ParseLocationRoundTrip(city, country);
    assert city + ", " + country == "Hyderabad, IN";
  }

  /** The two pieces of the example are trimmed, comma-free text. */
  lemma CleanPiece(s: string)
    requires s == "Hyderabad" || s == "IN"
    ensures s != [] && IsStripped(s) && ',' !in s
  {
    assert s[0] != ' ' && s[|s| - 1] != ' ';
    assert forall k :: 0 <= k < |s| ==> s[k] != ',';
  }

  // ---------------------------------------------------------------------------
  // jobposting_from_api_record
  // ---------------------------------------------------------------------------

  /** Why a record could not be mapped (each one a raised exception in the source). */
  datatype MapError =
    | AttributeError     // `.get`, `.strip` or `.split` on a value that lacks it
    | MissingUrl
    | MissingExternalId
    | MissingTitle
    | Invalid            // the posting itself failed validation

  /** `record.get("_source") or {}`, which must be a dict for the `.get` calls that follow. */
  function SourceOf(record: Json): Result<map<string, Json>, MapError> {
    if !record.JObj? then Err(MapError.AttributeError)
    else
      var src := Or(Get(record.fields, "_source"), EmptyObject);
      if src.JObj? then Ok(src.fields) else Err(MapError.AttributeError)
  }

  /** The id taken from a URL value: only a `str` can be parsed, anything else gives `None`. */
  function UrlJobId(url: Json): Option<string> {
    if url.JStr? then ExtractJobId(url.s) else None
  }

  /** `extract_job_id(job_url) or record.get("_id")`. */
  function ExternalIdValue(record: map<string, Json>, url: Json): Json {
    var jid := UrlJobId(url);
    if jid.Some? then JStr(jid.value) else Get(record, "_id")
  }

  /** `parse_location` applied to a decoded value: only a falsy value or a `str` gets through. */
  function LocationOf(raw: Json): Result<(Option<string>, Option<string>), MapError> {
    if !Truthy(raw) then Ok((None, None))
    else if raw.JStr? then Ok(ParseLocation(Some(raw.s)))
    else Err(MapError.AttributeError)
  }

  /**
   * `jobposting_from_api_record(record, source=source)`: a complete posting or
   * the reason it could not be built. On success the id is the URL's `jobId`
   * when it has one and `str(_id)` otherwise, the title is trimmed, the raw
   * location is kept and split, and no date or employment type is set.
   */
  function JobPostingFromApiRecord(record: Json, source: string, now: Timestamp): (r: Result<JobPosting, MapError>)
    ensures r.Ok? ==> record.JObj? && SourceOf(record).Ok?
  {
    match SourceOf(record)
    case Err(e) => Err(e)
    case Ok(src) =>
      var jobUrl := Get(src, "url");
      if !Truthy(jobUrl) then Err(MissingUrl)
      else
        var externalId := ExternalIdValue(record.fields, jobUrl);
        if !Truthy(externalId) then Err(MissingExternalId)
        else
          var titleValue := Or(Get(src, "title"), JStr(""));
          if !titleValue.JStr? then Err(MapError.AttributeError)
          else
            var title := Strip(titleValue.s);
            if title == [] then Err(MissingTitle)
            else
              var locationRaw := Get(src, "field_keyword_19");
              match LocationOf(locationRaw)
              case Err(e) => Err(e)
              case Ok(cityCountry) =>
                var fields := PostingFields(
                  source, PyStr(externalId), title, None, jobUrl,
                  None, None, locationRaw, cityCountry.1, cityCountry.0, None,
                  Get(src, "description"));
                match NewJobPosting(fields, now)
                case Err(_) => Err(Invalid)
                case Ok(p) =>
                  assert !Truthy(locationRaw) && locationRaw.JStr? ==> locationRaw.s == [];
                  Ok(p)
  }

  /**
   * What a successful mapping holds: the id is the URL's `jobId` when it has one
   * and `str(_id)` otherwise, the title is the trimmed title, the raw location is
   * kept and split, the company is the default, and no date or employment type
   * is set.
   */
  lemma MappedPosting(record: Json, source: string, now: Timestamp)
    requires JobPostingFromApiRecord(record, source, now).Ok?
    ensures record.JObj? && SourceOf(record).Ok?
    ensures
      var src := SourceOf(record).value;
      var p := JobPostingFromApiRecord(record, source, now).value;
      && Truthy(Get(src, "url")) && JStr(p.jobUrl) == Get(src, "url") && IsHttpUrl(p.jobUrl)
      && p.source == source
      && p.externalId == (if UrlJobId(Get(src, "url")).Some? then UrlJobId(Get(src, "url")).value
                          else PyStr(Get(record.fields, "_id")))
      && p.externalId != []
      && Get(src, "title").JStr? && p.title == Strip(Get(src, "title").s) && p.title != []
      && p.company == "IBM" && p.scrapedAt == now
      && (p.locationRaw.Some? ==> Get(src, "field_keyword_19") == JStr(p.locationRaw.value))
      && (p.locationRaw.None? ==> Get(src, "field_keyword_19") == JNull)
      && (p.locationCity, p.locationCountry) == ParseLocation(p.locationRaw)
      && p.postedDate.None? && p.employmentType.None?
      && (p.description.Some? <==> Get(src, "description").JStr?)
      && (p.description.Some? ==> JStr(p.description.value) == Get(src, "description"))
      && (p.description.None? ==> Get(src, "description") == JNull)
  {
    var src := SourceOf(record).value;
    var jobUrl := Get(src, "url");
    var externalId := ExternalIdValue(record.fields, jobUrl);
    PyStrOfTruthy(externalId);
  }

  /** A record whose source object has no (truthy) `url` never yields a posting. */
  lemma WithoutUrlNoPosting(record: Json, source: string, now: Timestamp)
    requires SourceOf(record).Ok? ==> !Truthy(Get(SourceOf(record).value, "url"))
    ensures JobPostingFromApiRecord(record, source, now).Err?
  {
  }

  /** With a URL but neither a `jobId` in it nor a truthy `_id`, the mapping fails. */
  lemma WithoutIdNoPosting(record: Json, source: string, now: Timestamp)
    requires SourceOf(record).Ok? && Truthy(Get(SourceOf(record).value, "url"))
    requires UrlJobId(Get(SourceOf(record).value, "url")).None?
    requires !Truthy(Get(record.fields, "_id"))
    ensures JobPostingFromApiRecord(record, source, now) == Err(MissingExternalId)
  {
  }

  /** With a URL and an id but a title that is missing or blank after trimming, the mapping fails. */
  lemma WithoutTitleNoPosting(record: Json, source: string, now: Timestamp)
    requires SourceOf(record).Ok? && Truthy(Get(SourceOf(record).value, "url"))
    requires Truthy(ExternalIdValue(record.fields, Get(SourceOf(record).value, "url")))
    requires var t := Get(SourceOf(record).value, "title"); !Truthy(t) || (t.JStr? && Strip(t.s) == [])
    ensures JobPostingFromApiRecord(record, source, now) == Err(MissingTitle)
  {
    var t := Get(SourceOf(record).value, "title");
    if !Truthy(t) {
      assert Or(t, JStr("")) == JStr("");
      assert Strip("") == [];
    }
  }

  // ---------------------------------------------------------------------------
  // The job id of a job-detail URL
  // ---------------------------------------------------------------------------

  /** Text none of whose characters changes how `urlsplit`/`parse_qs` cut a `?jobId=` URL. */
  predicate PlainUrlText(s: string) {
    forall k :: 0 <= k < |s| ==> s[k] !in "?#&=+[]\t\r\n"
  }

  lemma {:induction false} RemoveUnsafeNoop(s: string)
    requires forall k :: 0 <= k < |s| ==> !IsUnsafeUrlChar(s[k])
    ensures RemoveUnsafe(s) == s
  {
    if s != [] {
      RemoveUnsafeNoop(s[1..]);
      assert [s[0]] + s[1..] == s;
    }
  }

  lemma {:induction false} IndexOfAfter(a: string, c: char, b: string)
    requires c !in a
    ensures IndexOf(a + [c] + b, c) == Some(|a|)
  {
    if a != [] {
      assert (a + [c] + b)[1..] == a[1..] + [c] + b;
      IndexOfAfter(a[1..], c, b);
    }
  }

  /** A character absent from a text is absent from everything cut out of it. */
  lemma NotInParts(s: string, c: char)
    requires c !in s
    ensures c !in AfterScheme(s)
    ensures forall t :: |t| >= 2 && t == AfterScheme(s) ==> c !in Authority(t[2..])
  {
    forall t | |t| >= 2 && t == AfterScheme(s) ensures c !in Authority(t[2..]) {
      var a := Authority(t[2..]);
      assert a == t[2..][..|a|];
    }
  }

  lemma CleanPlainUrl(u: string)
    requires u != [] && !IsC0OrSpace(u[0])
    requires forall k :: 0 <= k < |u| ==> !IsUnsafeUrlChar(u[k])
    ensures CleanUrl(u) == u
  {
    RemoveUnsafeNoop(u);
  }

  lemma NoBracketsNoIPv6Error(u: string)
    requires '[' !in u && ']' !in u
    ensures !RaisesInvalidIPv6(u)
  {
    NotInParts(u, '[');
    NotInParts(u, ']');
  }

  lemma QueryAfterMark(base: string, q: string)
    requires '?' !in base && '#' !in base && '#' !in q
    ensures Query(base + "?" + q) == q
  {
    var u := base + "?" + q;
    assert IndexOf(u, '#').None?;
    assert u == base + ['?'] + q;
    IndexOfAfter(base, '?', q);
  }

  lemma JobIdPairs(id: string)
    requires PlainUrlText(id) && id != []
    ensures QueryPairs("jobId=" + id) == [("jobId", id)]
  {
    var name := "jobId";
    JobIdName(name);
    var q := name + ['='] + id;
    assert q == "jobId=" + id;
    assert '&' !in id && '+' !in id;
    assert '&' !in q;
    OneField(q);
    FieldPair(name, id);
  }

  /** The parameter name `jobId` holds none of the query's separators. */
  lemma JobIdName(name: string)
    requires name == "jobId"
    ensures '=' !in name && '+' !in name && '&' !in name && PlusToSpace(name) == name
  {
  }

  /** A query without `&` is a single field. */
  lemma OneField(q: string)
    requires q != [] && '&' !in q
    ensures QueryPairs(q) == FieldPairs([q])
  {
    SplitAbsent(q, '&');
  }

  /** A field `name=value` with a non-empty value and no `+` gives that one pair. */
  lemma FieldPair(name: string, value: string)
    requires '=' !in name && '+' !in name && '+' !in value && value != []
    requires PlusToSpace(name) == name
    ensures FieldPairs([name + ['='] + value]) == [(name, value)]
  {
    var f := name + ['='] + value;
    IndexOfAfter(name, '=', value);
    assert f[..|name|] == name && f[|name| + 1..] == value;
    var fields: seq<string> := [f];
    assert fields[1..] == [];
  }

  /**
   * A job-detail URL `base?jobId=id`, with no query, fragment or bracket
   * characters in `base` and `id`, yields exactly `id`.
   */
  lemma JobIdOfDetailUrl(base: string, id: string)
    requires base != [] && !IsC0OrSpace(base[0])
    requires PlainUrlText(base) && PlainUrlText(id) && id != []
    ensures ExtractJobId(base + "?jobId=" + id) == Some(id)
  {
    var q := "jobId=" + id;
    var u := base + "?" + q;
    assert u == base + "?jobId=" + id;
    assert forall k :: 0 <= k < |u| ==> !IsUnsafeUrlChar(u[k]) && u[k] != '[' && u[k] != ']' by {
      forall k | 0 <= k < |u| ensures !IsUnsafeUrlChar(u[k]) && u[k] != '[' && u[k] != ']' {
        if k < |base| { assert u[k] == base[k]; }
        else if k < |base| + 7 { assert u[k] == ("?" + "jobId=")[k - |base|]; }
        else { assert u[k] == id[k - |base| - 7]; }
      }
    }
    CleanPlainUrl(u);
    NoBracketsNoIPv6Error(u);
    QueryAfterMark(base, q);
    JobIdPairs(id);
  }

  /** Concatenation keeps text plain. */
  lemma PlainConcat(a: string, b: string)
    requires PlainUrlText(a) && PlainUrlText(b)
    ensures PlainUrlText(a + b)
  {
    forall k | 0 <= k < |a + b| ensures (a + b)[k] !in "?#&=+[]\t\r\n" {
      if k < |a| { assert (a + b)[k] == a[k]; } else { assert (a + b)[k] == b[k - |a|]; }
    }
  }

  /** The base of the repository's example URL, written as pieces short enough to check one by one. */
  lemma IbmBasePieces(base: string)
    requires base == "https://ibmglobal.avature.net/careers/JobDetail"
    ensures base == "https://" + "ibmglobal." + "avature." + "net/" + "careers/" + "JobDetail"
  {
  }

  /** The base of the repository's example URL is plain text starting with a letter. */
  lemma IbmBaseIsPlain(base: string)
    requires base == "https://ibmglobal.avature.net/careers/JobDetail"
    ensures PlainUrlText(base) && base != [] && base[0] == 'h'
  {
    IbmBasePieces(base);
    var p1, p2, p3, p4, p5, p6 := "https://", "ibmglobal.", "avature.", "net/", "careers/", "JobDetail";
    assert PlainUrlText(p1);
    assert PlainUrlText(p2);
    assert PlainUrlText(p3);
    assert PlainUrlText(p4);
    assert PlainUrlText(p5);
    assert PlainUrlText(p6);
    PlainConcat(p1, p2);
    PlainConcat(p1 + p2, p3);
    PlainConcat(p1 + p2 + p3, p4);
    PlainConcat(p1 + p2 + p3 + p4, p5);
    PlainConcat(p1 + p2 + p3 + p4 + p5, p6);
    assert base[0] == p1[0];
  }

  /** The repository's example URL, `.../careers/JobDetail?jobId=80194`, yields job id "80194". */
  lemma IbmJobDetailExample(base: string, id: string)
    requires base == "https://ibmglobal.avature.net/careers/JobDetail" && id == "80194"
    ensures ExtractJobId(base + "?jobId=" + id) == Some(id)
  {
    IbmBaseIsPlain(base);
    assert PlainUrlText(id);
    JobIdOfDetailUrl(base, id);
  }

  /**
   * A record whose source object has a valid URL with a `jobId`, a trimmed
   * non-empty title, a text location and a text or missing description maps to
   * a posting with that id, title, URL and location.
   */
  lemma MappedFromParts(record: Json, src: map<string, Json>, source: string, now: Timestamp,
                        url: string, id: string, title: string, location: string)
    requires SourceOf(record) == Ok(src)
    requires Get(src, "url") == JStr(url) && IsHttpUrl(url) && ExtractJobId(url) == Some(id)
    requires Get(src, "title") == JStr(title) && title != [] && IsStripped(title)
    requires Get(src, "field_keyword_19") == JStr(location) && location != []
    requires IsOptionalText(Get(src, "description"))
    ensures var r := JobPostingFromApiRecord(record, source, now);
      && r.Ok? && r.value.source == source && r.value.externalId == id
      && r.value.title == title && r.value.jobUrl == url
      && r.value.locationRaw == Some(location)
      && (r.value.locationCity, r.value.locationCountry) == ParseLocation(Some(location))
  {
    StripStripped(title);
    var jobUrl := Get(src, "url");
    assert Truthy(jobUrl);
    var externalId := ExternalIdValue(record.fields, jobUrl);
    assert externalId == JStr(id) && Truthy(externalId) && PyStr(externalId) == id;
    var titleValue := Or(Get(src, "title"), JStr(""));
    assert titleValue == JStr(title) && Strip(titleValue.s) == title;
    var locationRaw := Get(src, "field_keyword_19");
    var cityCountry := ParseLocation(Some(location));
    assert LocationOf(locationRaw) == Ok(cityCountry);
    var fields := PostingFields(
      source, id, title, None, jobUrl,
      None, None, locationRaw, cityCountry.1, cityCountry.0, None,
      Get(src, "description"));
    assert NewJobPosting(fields, now).Ok?;
    assert JobPostingFromApiRecord(record, source, now) == Ok(NewJobPosting(fields, now).value);
  }

  /** The URL of the repository's mapping example. */
  const ExampleUrl: string := "https://ibmglobal.avature.net/careers/JobDetail?jobId=80194"

  /** The example URL is the detail page's base followed by `?jobId=80194`. */
  lemma ExampleUrlPieces(u: string)
    requires u == ExampleUrl
    ensures u == "https://ibmglobal.avature.net/careers/JobDetail" + "?jobId=" + "80194"
  {
  }

  /** The example URL, cut where the URL grammar cuts it: scheme, host, path. */
  lemma ExampleUrlSplit(u: string, base: string)
    requires base == "https://" + "ibmglobal." + "avature." + "net/" + "careers/" + "JobDetail"
    requires u == base + "?jobId=" + "80194"
    ensures u == "https://" + ("ibmglobal." + "avature." + "net") + "/" + ("careers/" + "JobDetail" + "?jobId=" + "80194")
  {
    assert "net/" == "net" + "/";
  }

  /** Characters allowed in the host of an `HttpUrl` here: no delimiter, no blank. */
  predicate HostText(s: string) {
    forall k :: 0 <= k < |s| ==> s[k] !in "/?#" && !IsSpace(s[k])
  }

  lemma HostConcat(a: string, b: string)
    requires HostText(a) && HostText(b)
    ensures HostText(a + b)
  {
    forall k | 0 <= k < |a + b| ensures (a + b)[k] !in "/?#" && !IsSpace((a + b)[k]) {
      if k < |a| { assert (a + b)[k] == a[k]; } else { assert (a + b)[k] == b[k - |a|]; }
    }
  }

  /** The example URL's host is a plain host name. */
  lemma ExampleHost(p1: string, p2: string, p3: string)
    requires p1 == "ibmglobal." && p2 == "avature." && p3 == "net"
    ensures p1 + p2 + p3 != [] && HostText(p1 + p2 + p3)
  {
    assert HostText(p1);
    assert HostText(p2);
    assert HostText(p3);
    HostConcat(p1, p2);
    HostConcat(p1 + p2, p3);
  }

  /** The example URL is an `HttpUrl` whose `jobId` is "80194". */
  lemma ExampleUrlFacts(u: string)
    requires u == ExampleUrl
    ensures IsHttpUrl(u) && ExtractJobId(u) == Some("80194")
  {
    var base := "https://ibmglobal.avature.net/careers/JobDetail";
    ExampleUrlPieces(u);
    IbmBasePieces(base);
    ExampleUrlSplit(u, base);
    var p1, p2, p3 := "ibmglobal.", "avature.", "net";
    ExampleHost(p1, p2, p3);
    HttpsUrl(p1 + p2 + p3, "careers/" + "JobDetail" + "?jobId=" + "80194");
    IbmJobDetailExample(base, "80194");
  }

  /** The `_source` object of the example record. */
  function ExampleSource(): map<string, Json> {
    map[
      "language" := JStr("en"),
      "url" := JStr(ExampleUrl),
      "title" := JStr("Package Consultant-SAP HANA EPM"),
      "description" := JStr("Short description..."),
      "field_keyword_19" := JStr("Hyderabad, IN")]
  }

  /** The example record: an `_id` hash and the example `_source`. */
  function ExampleRecord(): Json {
    JObj(map["_id" := JStr("some_hash"), "_source" := JObj(ExampleSource())])
  }

  /** What the example record's `.get` calls return. */
  lemma ExampleGets()
    ensures SourceOf(ExampleRecord()) == Ok(ExampleSource())
    ensures Get(ExampleSource(), "url") == JStr(ExampleUrl)
    ensures Get(ExampleSource(), "title") == JStr("Package Consultant-SAP HANA EPM")
    ensures Get(ExampleSource(), "field_keyword_19") == JStr("Hyderabad, IN")
    ensures Get(ExampleSource(), "description") == JStr("Short description...")
  {
    assert "url" in ExampleSource();
  }

  /** The example title needs no trimming. */
  lemma ExampleTitle(title: string)
    requires title == "Package Consultant-SAP HANA EPM"
    ensures title != [] && IsStripped(title)
  {
    assert title[0] == 'P' && title[|title| - 1] == 'M';
  }

  /**
   * The example record maps to a posting whose id is the URL's `jobId` (not the
   * `_id` hash), with the title and URL as given and the location split into
   * city and country.
   */
  lemma ExampleRecordMaps(now: Timestamp)
    ensures var r := JobPostingFromApiRecord(ExampleRecord(), "ibm_careers", now);
      && r.Ok? && r.value.source == "ibm_careers" && r.value.externalId == "80194"
      && r.value.title == "Package Consultant-SAP HANA EPM" && r.value.jobUrl == ExampleUrl
      && r.value.locationRaw == Some("Hyderabad, IN")
      && r.value.locationCity == Some("Hyderabad") && r.value.locationCountry == Some("IN")
  {
    ExampleGets();
    ExampleUrlFacts(ExampleUrl);
    HyderabadExample();
    var title := "Package Consultant-SAP HANA EPM";
    ExampleTitle(title);
    MappedFromParts(ExampleRecord(), ExampleSource(), "ibm_careers", now,
                    ExampleUrl, "80194", title, "Hyderabad, IN");
  }
}
