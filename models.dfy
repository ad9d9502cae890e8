/**
 * The canonical job posting (schema v1) and its natural deduplication key.
 * Building a posting validates it as a whole: the result is either a complete,
 * valid posting or a validation error, never a partly filled record.
 */
module Models {
  import opened Base
  import opened Text
  import opened Json
  import opened Dates

  /** A validated `JobPostingV1`. `jobUrl` is kept as the text it was built from. */
  datatype JobPosting = JobPosting(
    source: string,
    externalId: string,
    title: string,
    company: string,
    jobUrl: string,
    postedDate: Option<CalendarDate>,
    scrapedAt: Timestamp,
    locationRaw: Option<string>,
    locationCountry: Option<string>,
    locationCity: Option<string>,
    employmentType: Option<string>,
    description: Option<string>)

  /** The company a posting gets when none is given. */
  const DefaultCompany: string := "IBM"

  /** The natural key `"{source}::{external_id}"` postings are deduplicated on. */
  function DedupeKey(source: string, externalId: string): (k: string)
    ensures |k| == |source| + 2 + |externalId|
    ensures k[..|source|] == source && k[|source|..|source| + 2] == "::"
    ensures k[|source| + 2..] == externalId
  {
    source + "::" + externalId
  }

  /** The key of a posting. */
  function KeyOf(p: JobPosting): string {
    DedupeKey(p.source, p.externalId)
  }

  /** For one source, the key determines the external id: different ids never collide. */
  lemma DedupeKeyInjective(source: string, a: string, b: string)
    ensures DedupeKey(source, a) == DedupeKey(source, b) <==> a == b
  {
    if DedupeKey(source, a) == DedupeKey(source, b) {
      assert a == DedupeKey(source, a)[|source| + 2..];
    }
  }

  /** The key is only a key per source: across sources two different pairs can share it. */
  lemma DedupeKeyAmbiguousAcrossSources()
    ensures DedupeKey("a:", ":b") == DedupeKey("a", "::b")
  {
    assert DedupeKey("a:", ":b") == "a::::b";
    assert DedupeKey("a", "::b") == "a::::b";
  }

  /** The repository's own example: two calls agree, a different id gives a different key. */
  lemma DedupeKeyExamples()
    ensures DedupeKey("ibm_careers", "80194") == "ibm_careers::80194"
    ensures DedupeKey("ibm_careers", "80194") != DedupeKey("ibm_careers", "99999")
  {
    DedupeKeyInjective("ibm_careers", "80194", "99999");
  }

  // ---------------------------------------------------------------------------
  // URL validity (pydantic's HttpUrl), approximated
  // ---------------------------------------------------------------------------

  function Lower(c: char): char {
    if 'A' <= c <= 'Z' then (c as int + 32) as char else c
  }

  /** `s` starts with the lower-case text `p`, ignoring the case of ASCII letters in `s`. */
  predicate StartsWithIgnoringCase(s: string, p: string) {
    |p| <= |s| && forall k :: 0 <= k < |p| ==> Lower(s[k]) == p[k]
  }

  /** The text up to the first `/`, `?` or `#`: the authority of a URL after its scheme. */
  function Authority(rest: string): (a: string)
    ensures |a| <= |rest| && a == rest[..|a|]
    ensures forall k :: 0 <= k < |a| ==> a[k] !in "/?#"
  {
    if rest == [] || rest[0] in "/?#" then []
    else [rest[0]] + Authority(rest[1..])
  }

  /** The longest URL pydantic's `HttpUrl` accepts. */
  const MaxUrlLength: nat := 2083

  /**
   * pydantic's `HttpUrl`: an absolute `http` or `https` URL with a non-empty
   * host, at most 2083 characters long.
   */
  predicate IsHttpUrl(u: string) {
    |u| <= MaxUrlLength
    && (StartsWithIgnoringCase(u, "http://") || StartsWithIgnoringCase(u, "https://"))
    && var rest := if StartsWithIgnoringCase(u, "http://") then u[7..] else u[8..];
       var host := Authority(rest);
       host != [] && forall k :: 0 <= k < |host| ==> !IsSpace(host[k])
  }

  /** The authority ends at the first `/` after a host free of `/`, `?` and `#`. */
  lemma {:induction false} AuthorityOfHost(host: string, path: string)
    requires forall k :: 0 <= k < |host| ==> host[k] !in "/?#"
    ensures Authority(host + "/" + path) == host
  {
    if host != [] {
      assert (host + "/" + path)[0] == host[0];
      assert (host + "/" + path)[1..] == host[1..] + "/" + path;
      AuthorityOfHost(host[1..], path);
    } else {
      assert (host + "/" + path)[0] == '/';
    }
  }

  /** `https://<host>/<path>` with a non-empty host without blanks is an `HttpUrl`. */
  lemma HttpsUrl(host: string, path: string)
    requires host != [] && |host| + |path| + 9 <= MaxUrlLength
    requires forall k :: 0 <= k < |host| ==> host[k] !in "/?#" && !IsSpace(host[k])
    ensures IsHttpUrl("https://" + host + "/" + path)
  {
    var u := "https://" + host + "/" + path;
    assert u[4] == 's';
    assert !StartsWithIgnoringCase(u, "http://");
    assert StartsWithIgnoringCase(u, "https://") by {
      forall k | 0 <= k < 8 ensures Lower(u[k]) == "https://"[k] {
        assert u[k] == "https://"[k];
      }
    }
    assert u[8..] == host + "/" + path;
    AuthorityOfHost(host, path);
  }

  // ---------------------------------------------------------------------------
  // Construction with validation
  // ---------------------------------------------------------------------------

  /**
   * The keyword arguments of a `JobPostingV1(...)` call. `company` and
   * `scrapedAt` are `None` when the caller leaves them out; the fields pydantic
   * has to check (`job_url`, `location_raw`, `description`) arrive as whatever
   * decoded value the caller passes.
   */
  datatype PostingFields = PostingFields(
    source: string,
    externalId: string,
    title: string,
    company: Option<string>,
    jobUrl: Json,
    postedDate: Option<CalendarDate>,
    scrapedAt: Option<Timestamp>,
    locationRaw: Json,
    locationCountry: Option<string>,
    locationCity: Option<string>,
    employmentType: Option<string>,
    description: Json)

  /** The arguments of a call that passes only the required fields. */
  function RequiredOnly(source: string, externalId: string, title: string, jobUrl: Json): PostingFields {
    PostingFields(source, externalId, title, None, jobUrl, None, None, JNull, None, None, None, JNull)
  }

  datatype ValidationError = ValidationError

  /** A value pydantic accepts for an `Optional[str]` field: `None` or a string. */
  predicate IsOptionalText(x: Json) {
    x.JNull? || x.JStr?
  }

  function OptionalText(x: Json): (r: Option<string>)
    requires IsOptionalText(x)
  {
    if x.JStr? then Some(x.s) else None
  }

  /**
   * `JobPostingV1(**fields)`: fails as a whole unless the URL is an `HttpUrl` and
   * the optional text fields are text or `None`; otherwise every field is taken
   * over and every field left out gets its default (`company` "IBM", `scraped_at`
   * the current time `now`).
   */
  function NewJobPosting(f: PostingFields, now: Timestamp): (r: Result<JobPosting, ValidationError>)
    ensures r.Ok? <==> f.jobUrl.JStr? && IsHttpUrl(f.jobUrl.s)
                       && IsOptionalText(f.description) && IsOptionalText(f.locationRaw)
    ensures r.Ok? ==> var p := r.value;
      && p.source == f.source && p.externalId == f.externalId && p.title == f.title
      && JStr(p.jobUrl) == f.jobUrl && IsHttpUrl(p.jobUrl)
      && p.company == (if f.company.Some? then f.company.value else DefaultCompany)
      && p.scrapedAt == (if f.scrapedAt.Some? then f.scrapedAt.value else now)
      && p.postedDate == f.postedDate && p.employmentType == f.employmentType
      && p.locationCountry == f.locationCountry && p.locationCity == f.locationCity
      && (p.locationRaw.Some? <==> f.locationRaw.JStr?) && (p.locationRaw.Some? ==> p.locationRaw.value == f.locationRaw.s)
      && (p.description.Some? <==> f.description.JStr?) && (p.description.Some? ==> p.description.value == f.description.s)
  {
    if !(f.jobUrl.JStr? && IsHttpUrl(f.jobUrl.s)) then Err(ValidationError)
    else if !IsOptionalText(f.description) || !IsOptionalText(f.locationRaw) then Err(ValidationError)
    else Ok(JobPosting(
      f.source, f.externalId, f.title,
      if f.company.Some? then f.company.value else DefaultCompany,
      f.jobUrl.s,
      f.postedDate,
      if f.scrapedAt.Some? then f.scrapedAt.value else now,
      OptionalText(f.locationRaw), f.locationCountry, f.locationCity,
      f.employmentType, OptionalText(f.description)))
  }

  /**
   * A posting built from the required fields alone exists exactly when the URL
   * is valid, and then has company "IBM", the construction time, and no date,
   * location, employment type or description.
   */
  lemma Defaults(source: string, externalId: string, title: string, url: string, now: Timestamp)
    ensures NewJobPosting(RequiredOnly(source, externalId, title, JStr(url)), now).Ok? <==> IsHttpUrl(url)
    ensures IsHttpUrl(url) ==>
      var p := NewJobPosting(RequiredOnly(source, externalId, title, JStr(url)), now).value;
      && p.company == "IBM" && p.scrapedAt == now && p.postedDate.None?
      && p.locationRaw.None? && p.locationCountry.None? && p.locationCity.None?
      && p.employmentType.None? && p.description.None?
  {
  }
}
