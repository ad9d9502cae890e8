/**
 * The transform stage: find the latest `run_date=YYYY-MM-DD` directory of a
 * source, read every `search_page=*.json` file in it in name order, map each
 * hit to a posting, and keep the first posting per deduplication key, counting
 * what came in, what was a duplicate and what could not be mapped.
 */
module Transform {
  import opened Base
  import opened Text
  import opened Json
  import opened Dates
  import opened Fs
  import opened Models
  import opened Mappers

  /** The summary of one transform run. */
  datatype TransformResult = TransformResult(
    runDate: string,
    recordsIn: nat,
    recordsOut: nat,
    duplicatesDropped: nat,
    invalidDropped: nat,
    items: seq<JobPosting>)

  /** The exceptions that abort a transform run. */
  datatype TransformError =
    | NoRawDirectory        // FileNotFoundError: `<raw_root>/<source>` does not exist
    | NoRunDateDirectories  // FileNotFoundError: no `run_date=*` directory in it
    | NoRawPageFiles        // FileNotFoundError: no `search_page=*.json` in the run directory
    | NotReadable           // reading a matched page that is a directory (IsADirectoryError)
    | NotJson               // `json.loads` raises on the file's text
    | NoGetMethod           // `.get` on a decoded value that is not a dict (AttributeError)
    | HitsNotAList          // ValueError: `hits.hits` is not a list

  const RunDatePrefix: string := "run_date="
  const RawPagePrefix: string := "search_page="
  const RawPageSuffix: string := ".json"

  // ---------------------------------------------------------------------------
  // _latest_run_date_dir
  // ---------------------------------------------------------------------------

  /** The glob `run_date=*`. */
  predicate IsRunDateName(name: string) {
    |RunDatePrefix| <= |name| && name[..|RunDatePrefix|] == RunDatePrefix
  }

  /** The glob `search_page=*.json`: the prefix, anything, then the suffix. */
  predicate IsRawPageName(name: string) {
    |RawPagePrefix| + |RawPageSuffix| <= |name|
    && name[..|RawPagePrefix|] == RawPagePrefix
    && name[|name| - |RawPageSuffix|..] == RawPageSuffix
  }

  /** An entry the comprehension over `glob("run_date=*")` keeps: a directory of that name. */
  predicate IsRunDir(e: Entry) {
    IsRunDateName(e.name) && e.node.Dir?
  }

  /** `sorted([p for p in source_dir.glob("run_date=*") if p.is_dir()])`. */
  function RunDirs(sourceDir: Node): (r: seq<Entry>)
    ensures SortedByName(r)
    ensures forall e :: e in r <==> sourceDir.Dir? && e in sourceDir.entries && IsRunDir(e)
  {
    if sourceDir.Dir? then
      var kept := FilterEntries(sourceDir.entries, IsRunDir);
      var r := SortByName(kept);
      assert forall e :: e in r <==> e in kept by {
        forall e ensures e in r <==> e in kept {
          assert e in r <==> e in multiset(r);
          assert e in kept <==> e in multiset(kept);
        }
      }
      r
    else []
  }

  /**
   * `_latest_run_date_dir(raw_root, source)`: the run directory with the
   * greatest name, or the reason there is none.
   */
  function LatestRunDateDir(rawRoot: Node, source: string): (r: Result<Entry, TransformError>)
  {
    match Child(rawRoot, source)
    case None => Err(NoRawDirectory)
    case Some(sourceDir) =>
      var runDirs := RunDirs(sourceDir);
      if runDirs == [] then Err(NoRunDateDirectories) else Ok(runDirs[|runDirs| - 1])
  }

  /**
   * The latest run directory is a `run_date=*` directory of the source
   * directory whose name no other one exceeds; the two errors arise exactly
   * when the source directory is missing, or when it has no run directory.
   */
  lemma LatestRunDateDirIsGreatest(rawRoot: Node, source: string)
    ensures LatestRunDateDir(rawRoot, source) == Err(NoRawDirectory) <==> Child(rawRoot, source).None?
    ensures LatestRunDateDir(rawRoot, source) == Err(NoRunDateDirectories) <==>
      Child(rawRoot, source).Some? && forall e :: e in DirEntries(Child(rawRoot, source).value) ==> !IsRunDir(e)
    ensures LatestRunDateDir(rawRoot, source).Ok? ==>
      Child(rawRoot, source).Some? && IsRunDir(LatestRunDateDir(rawRoot, source).value)
      && LatestRunDateDir(rawRoot, source).value in DirEntries(Child(rawRoot, source).value)
    ensures LatestRunDateDir(rawRoot, source).Ok? ==>
      forall e :: e in DirEntries(Child(rawRoot, source).value) && IsRunDir(e) ==>
        LexLe(e.name, LatestRunDateDir(rawRoot, source).value.name)
  {
    var r := LatestRunDateDir(rawRoot, source);
    if Child(rawRoot, source).Some? {
      var sourceDir := Child(rawRoot, source).value;
      var runDirs := RunDirs(sourceDir);
      if runDirs == [] {
        forall e | e in DirEntries(sourceDir) ensures !IsRunDir(e) {
          assert e !in runDirs;
        }
      } else {
        var last := |runDirs| - 1;
        SortedLastIsGreatest(runDirs);
        forall e | e in DirEntries(sourceDir) && IsRunDir(e) ensures LexLe(e.name, runDirs[last].name) {
          assert e in runDirs;
        }
        assert runDirs[last] in runDirs;
      }
    }
  }

  /** The entries of a directory, none for a file. */
  function DirEntries(n: Node): (r: seq<Entry>)
    ensures n.Dir? ==> r == n.entries
  {
    if n.Dir? then n.entries else []
  }

  /**
   * When every run directory is named after a calendar date, the latest run
   * directory by name is the latest run by date.
   */
  lemma LatestRunIsLatestDate(rawRoot: Node, source: string, dateOf: Entry -> CalendarDate)
    requires LatestRunDateDir(rawRoot, source).Ok?
    requires forall e :: e in DirEntries(Child(rawRoot, source).value) && IsRunDir(e) ==>
      e.name == RunDatePrefix + DateIso(dateOf(e))
    ensures var latest := LatestRunDateDir(rawRoot, source).value;
      forall e :: e in DirEntries(Child(rawRoot, source).value) && IsRunDir(e) ==> !Before(dateOf(latest), dateOf(e))
  {
    LatestRunDateDirIsGreatest(rawRoot, source);
    var latest := LatestRunDateDir(rawRoot, source).value;
    forall e | e in DirEntries(Child(rawRoot, source).value) && IsRunDir(e)
      ensures !Before(dateOf(latest), dateOf(e))
    {
      var a, b := DateIso(dateOf(e)), DateIso(dateOf(latest));
      assert LexLe(RunDatePrefix + a, RunDatePrefix + b);
      LexLessCommonPrefix(RunDatePrefix, a, b);
      LexLessCommonPrefix(RunDatePrefix, b, a);
      if a != b {
        LexLessAsymmetric(a, b);
        IsoOrderIsCalendarOrder(dateOf(latest), dateOf(e));
      } else {
        LexLessIrreflexive(a);
        IsoOrderIsCalendarOrder(dateOf(latest), dateOf(e));
      }
    }
  }

  /** `run_dir.name.split("run_date=")[-1]`: the text after the last `run_date=`. */
  function RunDateOf(name: string): string {
    var parts := Split(name, RunDatePrefix);
    parts[|parts| - 1]
  }

  /** A run directory named `run_date=<d>` gives back `d` when `d` does not itself contain `run_date=`. */
  lemma RunDateRoundTrip(d: string)
    requires !Contains(d, RunDatePrefix)
    ensures RunDateOf(RunDatePrefix + d) == d
  {
    SplitLeading(RunDatePrefix, d);
    SplitWithout(d, RunDatePrefix);
  }

  /** In particular a run directory named after a date gives back that date's ISO text. */
  lemma RunDateOfIsoDate(d: CalendarDate)
    ensures RunDateOf(RunDatePrefix + DateIso(d)) == DateIso(d)
  {
    var s := DateIso(d);
    assert !Contains(s, RunDatePrefix) by {
      forall i: nat | i <= |s| ensures !OccursAt(s, RunDatePrefix, i) {
        if i + |RunDatePrefix| <= |s| {
          assert s[i..i + |RunDatePrefix|][0] == s[i];
          assert s[i] == s[..4][i];
        }
      }
    }
    RunDateRoundTrip(s);
  }

  // ---------------------------------------------------------------------------
  // _load_hits_from_raw_file
  // ---------------------------------------------------------------------------

  /** `(data.get("hits") or {}).get("hits") or []` read from one raw page file, which must be a list. */
  function LoadHits(file: Node): (r: Result<seq<Json>, TransformError>)
  {
    if file.Dir? then Err(NotReadable)
    else if file.body.None? then Err(NotJson)
    else
      match GetAttr(file.body.value, "hits")
      case Err(_) => Err(NoGetMethod)
      case Ok(outer) =>
        match GetAttr(Or(outer, EmptyObject), "hits")
        case Err(_) => Err(NoGetMethod)
        case Ok(inner) =>
          var hits := Or(inner, JArr([]));
          if hits.JArr? then Ok(hits.items) else Err(HitsNotAList)
  }

  /** The response shape `{"hits": {"hits": [...]}}` the extract stage saves. */
  function Envelope(hits: seq<Json>): Json {
    JObj(map["hits" := JObj(map["hits" := JArr(hits)])])
  }

  /**
   * The shapes a page file can have: the hits of an envelope are read back as
   * they are; a missing or empty `hits` at either level reads as no hits; a
   * document that is not an object, or an outer `hits` that is a non-empty
   * non-object, raises AttributeError; an inner `hits` that is truthy but not a
   * list raises ValueError.
   */
  lemma LoadHitsShapes(hits: seq<Json>, x: Json)
    ensures LoadHits(File(Some(Envelope(hits)))) == Ok(hits)
    ensures LoadHits(File(Some(EmptyObject))) == Ok([])
    ensures LoadHits(File(Some(JObj(map["hits" := JNull])))) == Ok([])
    ensures LoadHits(File(Some(JObj(map["hits" := JObj(map["hits" := JNull])])))) == Ok([])
    ensures !x.JObj? ==> LoadHits(File(Some(x))) == Err(NoGetMethod)
    ensures Truthy(x) && !x.JObj? ==> LoadHits(File(Some(JObj(map["hits" := x])))) == Err(NoGetMethod)
    ensures Truthy(x) && !x.JArr? ==> LoadHits(File(Some(JObj(map["hits" := JObj(map["hits" := x])])))) == Err(HitsNotAList)
  {
    if hits == [] {
      assert Or(JArr(hits), JArr([])) == JArr([]);
    }
  }

  /** The name-ordered page files of a run directory (`sorted(run_dir.glob("search_page=*.json"))`). */
  function RawFiles(runDir: Node): (r: seq<Entry>)
    ensures SortedByName(r)
    ensures forall k :: 0 <= k < |r| ==> IsRawPageName(r[k].name)
    ensures forall e :: e in r <==> e in DirEntries(runDir) && IsRawPageName(e.name)
  {
    var kept := FilterEntries(DirEntries(runDir), (e: Entry) => IsRawPageName(e.name));
    var r := SortByName(kept);
    SortByNameMembers(kept);
    assert forall k :: 0 <= k < |r| ==> r[k] in kept;
    r
  }

  /** Reading the files in order; the first file that cannot be read decides the error. */
  function LoadAll(files: seq<Entry>): (r: Result<seq<seq<Json>>, TransformError>)
    ensures r.Ok? ==> |r.value| == |files|
  {
    if files == [] then Ok([])
    else
      match LoadAll(files[..|files| - 1])
      case Err(e) => Err(e)
      case Ok(batches) =>
        match LoadHits(files[|files| - 1].node)
        case Err(e) => Err(e)
        case Ok(hits) => Ok(batches + [hits])
  }

  /** All files read: the batches are exactly the hits of each file, in order. */
  lemma {:induction false} LoadAllBatches(files: seq<Entry>)
    requires LoadAll(files).Ok?
    ensures forall k :: 0 <= k < |files| ==> LoadHits(files[k].node) == Ok(LoadAll(files).value[k])
  {
    if files != [] {
      var init := files[..|files| - 1];
      LoadAllBatches(init);
      forall k | 0 <= k < |files| ensures LoadHits(files[k].node) == Ok(LoadAll(files).value[k]) {
        if k < |init| { assert files[k] == init[k]; }
      }
    }
  }

  /** Once a prefix of the files fails, reading more files keeps that error. */
  lemma {:induction false} LoadAllFirstError(files: seq<Entry>, n: nat)
    requires n <= |files| && LoadAll(files[..n]).Err?
    ensures LoadAll(files) == LoadAll(files[..n])
    decreases |files| - n
  {
    if n < |files| {
      assert files[..n + 1][..n] == files[..n];
      LoadAllFirstError(files, n + 1);
    } else {
      assert files[..n] == files;
    }
  }

  /** All hits of all files, in file order. */
  function Flatten(batches: seq<seq<Json>>): (r: seq<Json>)
  {
    if batches == [] then [] else Flatten(batches[..|batches| - 1]) + batches[|batches| - 1]
  }

  // ---------------------------------------------------------------------------
  // The record loop
  // ---------------------------------------------------------------------------

  /** The state of the record loop: `seen_keys`, `items` and the two drop counters. */
  datatype Tally = Tally(seen: set<string>, items: seq<JobPosting>, duplicates: nat, invalid: nat)

  const NoTally: Tally := Tally({}, [], 0, 0)

  /** One record, once mapped: keep it, count it invalid, or count it a duplicate. */
  function Step(t: Tally, mapped: Result<JobPosting, MapError>): Tally {
    match mapped
    case Err(_) => t.(invalid := t.invalid + 1)
    case Ok(jp) =>
      var key := DedupeKey(jp.source, jp.externalId);
      if key in t.seen then t.(duplicates := t.duplicates + 1)
      else Tally(t.seen + {key}, t.items + [jp], t.duplicates, t.invalid)
  }

  /** The mapper's outcome for each record, in order. */
  function Outcomes(records: seq<Json>, source: string, now: Timestamp): (r: seq<Result<JobPosting, MapError>>)
    ensures |r| == |records|
  {
    seq(|records|, k requires 0 <= k < |records| => JobPostingFromApiRecord(records[k], source, now))
  }

  /** Outcomes of consecutive runs of records concatenate. */
  lemma OutcomesAppend(a: seq<Json>, b: seq<Json>, source: string, now: Timestamp)
    ensures Outcomes(a + b, source, now) == Outcomes(a, source, now) + Outcomes(b, source, now)
  {
  }

  /** The outcomes of one more record. */
  lemma OutcomesNext(records: seq<Json>, j: nat, source: string, now: Timestamp)
    requires j < |records|
    ensures Outcomes(records[..j + 1], source, now)
            == Outcomes(records[..j], source, now) + [JobPostingFromApiRecord(records[j], source, now)]
  {
  }

  /** The loop state after the given outcomes, in order. */
  function Tallied(outs: seq<Result<JobPosting, MapError>>): Tally {
    if outs == [] then NoTally else Step(Tallied(outs[..|outs| - 1]), outs[|outs| - 1])
  }

  /** The loop state after the given records, in order. */
  function Dedup(records: seq<Json>, source: string, now: Timestamp): Tally {
    Tallied(Outcomes(records, source, now))
  }

  /** One more outcome is one more `Step`. */
  lemma TalliedNext(outs: seq<Result<JobPosting, MapError>>, m: Result<JobPosting, MapError>)
    ensures Tallied(outs + [m]) == Step(Tallied(outs), m)
  {
    assert (outs + [m])[..|outs|] == outs;
  }

  /** One more outcome after earlier ones is one more `Step`. */
  lemma TalliedAfter(prior: seq<Result<JobPosting, MapError>>, outs: seq<Result<JobPosting, MapError>>,
                     m: Result<JobPosting, MapError>)
    ensures Tallied(prior + (outs + [m])) == Step(Tallied(prior + outs), m)
  {
    AppendAssoc(prior, outs, [m]);
    TalliedNext(prior + outs, m);
  }

  // ---------------------------------------------------------------------------
  // What the record loop keeps
  // ---------------------------------------------------------------------------

  /** The postings the mapper produced, in record order. */
  function Valid(outs: seq<Result<JobPosting, MapError>>): (ps: seq<JobPosting>)
    ensures |ps| <= |outs|
  {
    if outs == [] then []
    else
      var init := Valid(outs[..|outs| - 1]);
      if outs[|outs| - 1].Ok? then init + [outs[|outs| - 1].value] else init
  }

  /** The deduplication keys of some postings. */
  function KeySet(ps: seq<JobPosting>): set<string> {
    set p | p in ps :: KeyOf(p)
  }

  /** No two postings share a key. */
  predicate DistinctKeys(ps: seq<JobPosting>) {
    forall i, j :: 0 <= i < j < |ps| ==> KeyOf(ps[i]) != KeyOf(ps[j])
  }

  /** The first posting with the given key, scanning from the front. */
  function FirstWithKey(ps: seq<JobPosting>, key: string): (r: Option<JobPosting>)
    ensures r.Some? <==> key in KeySet(ps)
    ensures r.Some? ==> r.value in ps && KeyOf(r.value) == key
  {
    if ps == [] then None
    else if KeyOf(ps[0]) == key then Some(ps[0])
    else
      var r := FirstWithKey(ps[1..], key);
      assert key in KeySet(ps) <==> key in KeySet(ps[1..]) by {
        assert ps == [ps[0]] + ps[1..];
        assert forall p :: p in ps <==> p == ps[0] || p in ps[1..];
      }
      r
  }

  lemma {:induction false} FirstWithKeyAppend(ps: seq<JobPosting>, p: JobPosting, key: string)
    ensures FirstWithKey(ps + [p], key)
      == if FirstWithKey(ps, key).Some? then FirstWithKey(ps, key)
         else if KeyOf(p) == key then Some(p) else None
  {
    if ps != [] {
      assert (ps + [p])[1..] == ps[1..] + [p];
      FirstWithKeyAppend(ps[1..], p, key);
    }
  }

  lemma KeySetAppend(ps: seq<JobPosting>, p: JobPosting)
    ensures KeySet(ps + [p]) == KeySet(ps) + {KeyOf(p)}
  {
    assert forall q :: q in ps + [p] <==> q in ps || q == p;
  }

  /** Every record is counted once: as kept, as a duplicate, or as invalid. */
  lemma {:induction false} TalliedCounts(outs: seq<Result<JobPosting, MapError>>)
    ensures Tallied(outs).invalid == |outs| - |Valid(outs)|
    ensures Tallied(outs).duplicates + |Tallied(outs).items| == |Valid(outs)|
  {
    if outs != [] {
      TalliedCounts(outs[..|outs| - 1]);
    }
  }

  /** The seen set is the key set of the kept postings, which is the key set of all mapped postings. */
  lemma {:induction false} TalliedSeen(outs: seq<Result<JobPosting, MapError>>)
    ensures Tallied(outs).seen == KeySet(Tallied(outs).items)
    ensures Tallied(outs).seen == KeySet(Valid(outs))
  {
    if outs != [] {
      var init := outs[..|outs| - 1];
      var m := outs[|outs| - 1];
      TalliedSeen(init);
      if m.Ok? {
        KeySetAppend(Valid(init), m.value);
        KeySetAppend(Tallied(init).items, m.value);
      }
    }
  }

  /** No two kept postings share a key. */
  lemma {:induction false} TalliedDistinct(outs: seq<Result<JobPosting, MapError>>)
    ensures DistinctKeys(Tallied(outs).items)
  {
    if outs != [] {
      var init := outs[..|outs| - 1];
      TalliedDistinct(init);
      TalliedSeen(init);
      var t := Tallied(init);
      assert forall k :: 0 <= k < |t.items| ==> t.items[k] in t.items;
    }
  }

  /** Each kept posting is the first mapped posting with its key. */
  lemma {:induction false} TalliedFirst(outs: seq<Result<JobPosting, MapError>>)
    ensures forall k :: 0 <= k < |Tallied(outs).items| ==>
              FirstWithKey(Valid(outs), KeyOf(Tallied(outs).items[k])) == Some(Tallied(outs).items[k])
  {
    if outs != [] {
      var init := outs[..|outs| - 1];
      var m := outs[|outs| - 1];
      TalliedFirst(init);
      TalliedSeen(init);
      var t, v := Tallied(init), Valid(init);
      if m.Ok? {
        var p := m.value;
        forall k | 0 <= k < |t.items| ensures FirstWithKey(v + [p], KeyOf(t.items[k])) == Some(t.items[k]) {
          FirstWithKeyAppend(v, p, KeyOf(t.items[k]));
        }
        FirstWithKeyAppend(v, p, KeyOf(p));
      }
    }
  }

  /** `xs` is `ys` with some elements left out, the rest in their order. */
  predicate IsSubsequence(xs: seq<JobPosting>, ys: seq<JobPosting>)
    decreases |ys|
  {
    if xs == [] then true
    else if ys == [] then false
    else
      (xs[|xs| - 1] == ys[|ys| - 1] && IsSubsequence(xs[..|xs| - 1], ys[..|ys| - 1]))
      || IsSubsequence(xs, ys[..|ys| - 1])
  }

  /** The kept postings are the mapped postings with some left out, in record order. */
  lemma {:induction false} TalliedSubsequence(outs: seq<Result<JobPosting, MapError>>)
    ensures IsSubsequence(Tallied(outs).items, Valid(outs))
  {
    if outs != [] {
      var init := outs[..|outs| - 1];
      var m := outs[|outs| - 1];
      TalliedSubsequence(init);
      var items, ys := Tallied(init).items, Valid(outs);
      if m.Ok? {
        assert ys[..|ys| - 1] == Valid(init);
        var after := Tallied(outs).items;
        if after != items {
          assert after == items + [m.value];
          assert after[..|after| - 1] == items;
        }
      }
    }
  }

  /**
   * Records that map only to postings whose keys are already kept change
   * neither the kept postings nor the seen set.
   */
  lemma {:induction false} TalliedKnownKeys(outs: seq<Result<JobPosting, MapError>>, more: seq<Result<JobPosting, MapError>>)
    requires forall k :: 0 <= k < |more| && more[k].Ok? ==> KeyOf(more[k].value) in KeySet(Valid(outs))
    ensures Tallied(outs + more).items == Tallied(outs).items
    ensures Tallied(outs + more).seen == Tallied(outs).seen
    decreases |more|
  {
    if more == [] {
      assert outs + more == outs;
    } else {
      var init := more[..|more| - 1];
      assert (outs + more)[..|outs + more| - 1] == outs + init;
      assert (outs + more)[|outs + more| - 1] == more[|more| - 1];
      TalliedKnownKeys(outs, init);
      TalliedSeen(outs);
    }
  }

  /** Processing the same outcomes a second time keeps nothing new. */
  lemma Repeated(outs: seq<Result<JobPosting, MapError>>)
    ensures Tallied(outs + outs).items == Tallied(outs).items
    ensures Tallied(outs + outs).duplicates == Tallied(outs).duplicates + |Valid(outs)|
  {
    forall k | 0 <= k < |outs| && outs[k].Ok? ensures KeyOf(outs[k].value) in KeySet(Valid(outs)) {
      ValidContains(outs, k);
    }
    TalliedKnownKeys(outs, outs);
    TalliedCounts(outs);
    TalliedCounts(outs + outs);
    ValidAppend(outs, outs);
  }

  lemma {:induction false} ValidContains(outs: seq<Result<JobPosting, MapError>>, k: nat)
    requires k < |outs| && outs[k].Ok?
    ensures outs[k].value in Valid(outs)
  {
    var init := outs[..|outs| - 1];
    if k < |init| {
      assert outs[k] == init[k];
      ValidContains(init, k);
    }
  }

  lemma {:induction false} ValidAppend(a: seq<Result<JobPosting, MapError>>, b: seq<Result<JobPosting, MapError>>)
    ensures Valid(a + b) == Valid(a) + Valid(b)
    decreases |b|
  {
    if b != [] {
      assert (a + b)[..|a + b| - 1] == a + b[..|b| - 1];
      ValidAppend(a, b[..|b| - 1]);
    } else {
      assert a + b == a;
    }
  }

  /** Reading one more file appends its hits to the records. */
  lemma FlattenNext(batches: seq<seq<Json>>, hits: seq<Json>)
    ensures Flatten(batches + [hits]) == Flatten(batches) + hits
  {
    assert (batches + [hits])[..|batches|] == batches;
  }

  /**
   * Reading every page file in order: how many records came in and the loop
   * state after all of them, or the error of the first file that cannot be read.
   */
  function PagesSpec(files: seq<Entry>, source: string, now: Timestamp): Result<(nat, Tally), TransformError> {
    match LoadAll(files)
    case Err(e) => Err(e)
    case Ok(batches) =>
      var records := Flatten(batches);
      Ok((|records|, Dedup(records, source, now)))
  }

  /** `transform_latest_run(raw_root=..., source=...)` as a value. */
  function TransformSpec(rawRoot: Node, source: string, now: Timestamp): Result<TransformResult, TransformError> {
    match LatestRunDateDir(rawRoot, source)
    case Err(e) => Err(e)
    case Ok(runDir) =>
      var files := RawFiles(runDir.node);
      if files == [] then Err(NoRawPageFiles)
      else
        match PagesSpec(files, source, now)
        case Err(e) => Err(e)
        case Ok((recordsIn, t)) =>
          Ok(TransformResult(RunDateOf(runDir.name), recordsIn, |t.items|, t.duplicates, t.invalid, t.items))
  }

  /**
   * The body of the record loop for one mapped record: a failure counts as
   * invalid, a seen key as a duplicate, anything else is kept and its key
   * remembered.
   */
  method CountOne(mapped: Result<JobPosting, MapError>,
                  seen0: set<string>, items0: seq<JobPosting>, duplicates0: nat, invalid0: nat)
    returns (seenKeys: set<string>, items: seq<JobPosting>, duplicatesDropped: nat, invalidDropped: nat)
    ensures Tally(seenKeys, items, duplicatesDropped, invalidDropped) == Step(Tally(seen0, items0, duplicates0, invalid0), mapped)
  {
    seenKeys, items, duplicatesDropped, invalidDropped := seen0, items0, duplicates0, invalid0;
    if mapped.Err? {
      invalidDropped := invalidDropped + 1;
      return;
    }
    var jp := mapped.value;
    var key := DedupeKey(jp.source, jp.externalId);
    if key in seenKeys {
      duplicatesDropped := duplicatesDropped + 1;
      return;
    }
    seenKeys := seenKeys + {key};
    items := items + [jp];
  }

  /**
   * The loop over the hits of one page: each hit is mapped; one that fails
   * counts as invalid, one whose key was seen counts as a duplicate, and any
   * other is kept and its key remembered.
   */
  method ProcessHits(hits: seq<Json>, source: string, now: Timestamp,
                     seen0: set<string>, items0: seq<JobPosting>, duplicates0: nat, invalid0: nat,
                     ghost prior: seq<Result<JobPosting, MapError>>)
    returns (seenKeys: set<string>, items: seq<JobPosting>, duplicatesDropped: nat, invalidDropped: nat)
    requires Tally(seen0, items0, duplicates0, invalid0) == Tallied(prior)
    ensures Tally(seenKeys, items, duplicatesDropped, invalidDropped) == Tallied(prior + Outcomes(hits, source, now))
  {
    seenKeys, items, duplicatesDropped, invalidDropped := seen0, items0, duplicates0, invalid0;
    ghost var outs: seq<Result<JobPosting, MapError>> := [];
    assert prior + outs == prior;
    var j := 0;
    while j < |hits|
      invariant 0 <= j <= |hits|
      invariant outs == Outcomes(hits[..j], source, now)
      invariant Tally(seenKeys, items, duplicatesDropped, invalidDropped) == Tallied(prior + outs)
    {
      var record := hits[j];
      var mapped := JobPostingFromApiRecord(record, source, now);
      TalliedAfter(prior, outs, mapped);
      OutcomesNext(hits, j, source, now);
      seenKeys, items, duplicatesDropped, invalidDropped :=
        CountOne(mapped, seenKeys, items, duplicatesDropped, invalidDropped);
      outs := outs + [mapped];
      j := j + 1;
    }
    assert hits[..j] == hits;
  }

  /**
   * The loop over the page files of the run: each file's hits are loaded
   * (a file that cannot be read aborts the run), counted in, and processed.
   */
  method ReadPages(rawFiles: seq<Entry>, source: string, now: Timestamp) returns (r: Result<(nat, Tally), TransformError>)
    ensures r == PagesSpec(rawFiles, source, now)
  {
    var seenKeys: set<string> := {};
    var items: seq<JobPosting> := [];
    var recordsIn := 0;
    var duplicatesDropped := 0;
    var invalidDropped := 0;
    ghost var batches: seq<seq<Json>> := [];

    var i := 0;
    while i < |rawFiles|
      invariant 0 <= i <= |rawFiles|
      invariant LoadAll(rawFiles[..i]) == Ok(batches)
      invariant recordsIn == |Flatten(batches)|
      invariant Tally(seenKeys, items, duplicatesDropped, invalidDropped) == Dedup(Flatten(batches), source, now)
    {
      var loaded := LoadHits(rawFiles[i].node);
      assert rawFiles[..i + 1][..i] == rawFiles[..i];
      if loaded.Err? {
        LoadAllFirstError(rawFiles, i + 1);
        return Err(loaded.error);
      }
      var hits := loaded.value;
      recordsIn := recordsIn + |hits|;
      ghost var before := Flatten(batches);
      seenKeys, items, duplicatesDropped, invalidDropped :=
        ProcessHits(hits, source, now, seenKeys, items, duplicatesDropped, invalidDropped, Outcomes(before, source, now));
      OutcomesAppend(before, hits, source, now);
      FlattenNext(batches, hits);
      batches := batches + [hits];
      i := i + 1;
    }
    assert rawFiles[..i] == rawFiles;
    r := Ok((recordsIn, Tally(seenKeys, items, duplicatesDropped, invalidDropped)));
  }

  /**
   * `transform_latest_run`: reads the latest run's page files in name order
   * and runs every hit through the mapper and the seen-key check.
   */
  method TransformLatestRun(rawRoot: Node, source: string, now: Timestamp) returns (r: Result<TransformResult, TransformError>)
    ensures r == TransformSpec(rawRoot, source, now)
  {
    var latest := LatestRunDateDir(rawRoot, source);
    if latest.Err? {
      return Err(latest.error);
    }
    var runDir := latest.value;
    var runDate := RunDateOf(runDir.name);
    var rawFiles := RawFiles(runDir.node);
    if rawFiles == [] {
      return Err(NoRawPageFiles);
    }
    var pages := ReadPages(rawFiles, source, now);
    if pages.Err? {
      return Err(pages.error);
    }
    var (recordsIn, t) := pages.value;
    r := Ok(TransformResult(runDate, recordsIn, |t.items|, t.duplicates, t.invalid, t.items));
  }

  // ---------------------------------------------------------------------------
  // What a transform run promises
  // ---------------------------------------------------------------------------

  /** All hits of the latest run's page files, in file order, or the error that stops the run. */
  function RunRecords(rawRoot: Node, source: string): Result<seq<Json>, TransformError> {
    match LatestRunDateDir(rawRoot, source)
    case Err(e) => Err(e)
    case Ok(runDir) =>
      var files := RawFiles(runDir.node);
      if files == [] then Err(NoRawPageFiles)
      else
        match LoadAll(files)
        case Err(e) => Err(e)
        case Ok(batches) => Ok(Flatten(batches))
  }

  /** Every mapped posting is the outcome of some record. */
  lemma {:induction false} ValidOrigin(outs: seq<Result<JobPosting, MapError>>, p: JobPosting)
    requires p in Valid(outs)
    ensures exists k :: 0 <= k < |outs| && outs[k] == Ok(p)
  {
    var init := outs[..|outs| - 1];
    if p in Valid(init) {
      ValidOrigin(init, p);
      var k :| 0 <= k < |init| && init[k] == Ok(p);
      assert outs[k] == init[k];
    } else {
      assert outs[|outs| - 1] == Ok(p);
    }
  }

  /**
   * Deduplicating a run's records accounts for each one (the records are the
   * kept ones, the duplicates and the invalid ones, the invalid ones being
   * exactly those the mapper rejects); it keeps one posting per key of the
   * mapped postings, the first one with that key, and every kept posting
   * carries the run's source, a non-empty id and a non-empty title.
   */
  lemma DedupFacts(records: seq<Json>, source: string, now: Timestamp)
    ensures var t := Dedup(records, source, now);
            var mapped := Valid(Outcomes(records, source, now));
      && |records| == |t.items| + t.duplicates + t.invalid
      && t.invalid == |records| - |mapped|
      && KeySet(t.items) == KeySet(mapped)
      && DistinctKeys(t.items)
      && (forall k :: 0 <= k < |t.items| ==> FirstWithKey(mapped, KeyOf(t.items[k])) == Some(t.items[k]))
      && (forall p :: p in t.items ==> p.source == source && p.externalId != [] && p.title != [])
  {
    var outs := Outcomes(records, source, now);
    TalliedCounts(outs);
    TalliedSeen(outs);
    TalliedDistinct(outs);
    TalliedFirst(outs);
    var t := Tallied(outs);
    forall p | p in t.items ensures p.source == source && p.externalId != [] && p.title != [] {
      var k :| 0 <= k < |t.items| && t.items[k] == p;
      assert FirstWithKey(Valid(outs), KeyOf(p)) == Some(p);
      ValidOrigin(outs, p);
      var i :| 0 <= i < |outs| && outs[i] == Ok(p);
      MappedPosting(records[i], source, now);
    }
  }

  /** A successful run is the deduplication of all records of the latest run's pages. */
  lemma RunIsDedup(rawRoot: Node, source: string, now: Timestamp)
    requires TransformSpec(rawRoot, source, now).Ok?
    ensures RunRecords(rawRoot, source).Ok?
    ensures var r := TransformSpec(rawRoot, source, now).value;
            var records := RunRecords(rawRoot, source).value;
            var t := Dedup(records, source, now);
      && r.recordsIn == |records|
      && r.items == t.items && r.recordsOut == |t.items|
      && r.duplicatesDropped == t.duplicates && r.invalidDropped == t.invalid
  {
  }

  /**
   * A successful run reads every record of the latest run and accounts for
   * each one (records in = kept + duplicates + invalid, the invalid ones being
   * exactly those the mapper rejects); it keeps one posting per key of the
   * mapped postings, the first one with that key, and every kept posting
   * carries the run's source, a non-empty id and a non-empty title.
   */
  lemma TransformResultFacts(rawRoot: Node, source: string, now: Timestamp)
    requires TransformSpec(rawRoot, source, now).Ok?
    ensures RunRecords(rawRoot, source).Ok?
    ensures var r := TransformSpec(rawRoot, source, now).value;
            var records := RunRecords(rawRoot, source).value;
            var mapped := Valid(Outcomes(records, source, now));
      && r.recordsIn == |records|
      && r.recordsIn == r.recordsOut + r.duplicatesDropped + r.invalidDropped
      && r.invalidDropped == |records| - |mapped|
      && r.recordsOut == |r.items|
      && KeySet(r.items) == KeySet(mapped)
      && DistinctKeys(r.items)
      && (forall k :: 0 <= k < |r.items| ==> FirstWithKey(mapped, KeyOf(r.items[k])) == Some(r.items[k]))
      && (forall p :: p in r.items ==> p.source == source && p.externalId != [] && p.title != [])
  {
    RunIsDedup(rawRoot, source, now);
    DedupFacts(RunRecords(rawRoot, source).value, source, now);
  }

  /** A run directory without page files stops the run, whatever else it holds. */
  lemma NoPagesNoRun(rawRoot: Node, source: string, now: Timestamp)
    requires LatestRunDateDir(rawRoot, source).Ok?
    requires forall e :: e in DirEntries(LatestRunDateDir(rawRoot, source).value.node) ==> !IsRawPageName(e.name)
    ensures TransformSpec(rawRoot, source, now) == Err(NoRawPageFiles)
  {
  }

  /** A successful run is named after the latest run directory. */
  lemma RunDateOfResult(rawRoot: Node, source: string, now: Timestamp)
    requires TransformSpec(rawRoot, source, now).Ok?
    ensures LatestRunDateDir(rawRoot, source).Ok?
    ensures TransformSpec(rawRoot, source, now).value.runDate == RunDateOf(LatestRunDateDir(rawRoot, source).value.name)
  {
  }
}
