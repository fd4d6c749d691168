/** `latest_inventory`: find the newest S3 inventory manifest under an S3
    URL (today's `%Y-%m-%d` folder, else yesterday's), then read every data
    file it lists, line by line, and yield one column -> value record per line
    that passes the date, prefix and suffix filters. */
module Inventory {
  import opened Wrappers
  import opened Strings
  import opened S3Url
  import opened Listing
  import opened Dates

  type Record = map<string, string>

  /** The parts of `manifest.json` the scan reads: `fileSchema` and the `key`
      of each entry of `files`. */
  datatype Manifest = Manifest(fileSchema: string, files: seq<string>)

  /** Reads the JSON manifest at a bucket and key. */
  type ManifestReader = (string, string) -> Manifest

  /** Reads (and un-gzips) the text of the object at a bucket and key. */
  type ObjectReader = (string, string) -> string

  /** The optional arguments of `latest_inventory`. */
  datatype Filter = Filter(prefix: Option<string>, suffix: Option<string>,
                           startDate: Option<Date>, endDate: Option<Date>, dateKey: string)

  /** What ends a scan early: `urlparse` failing, `today - timedelta(1)`
      overflowing, a line with more fields than the schema has columns
      (`IndexError`), a column read but absent (`KeyError`), or a timestamp
      that does not parse (`ValueError`). */
  datatype ScanError =
    | BadUrl(url: UrlError)
    | DateOverflow
    | TooManyFields(line: string)
    | MissingColumn(column: string)
    | BadTimestamp(text: string)

  /** The records yielded, and the exception that ended the scan, if any. */
  datatype Scan = Scan(records: seq<Record>, error: Option<ScanError>)

  /** What one line of a data file gives. */
  datatype LineOutcome = Skip | Yield(record: Record) | Fail(error: ScanError)

  const ManifestSuffix: string := "manifest.json"

  /** `records` yielded first, then what `s` yields. */
  function Then(records: seq<Record>, s: Scan): Scan {
    Scan(records + s.records, s.error)
  }

  // ---------------------------------------------------------------------
  // Choosing the manifest

  /** `os.path.join(a, b)`. */
  function PathJoin(a: string, b: string): string {
    if |b| > 0 && b[0] == '/' then b
    else if a == "" || a[|a| - 1] == '/' then a + b
    else a + "/" + b
  }

  /** The URL listed for the manifest of date `d`. */
  function ProbeUrl(loc: Location, d: Date): string
    requires Valid(d)
  {
    Format(loc.bucket, PathJoin(loc.key, FormatDate(d)))
  }

  /** The listings for today's and yesterday's manifests both end within `n` pages. */
  predicate ProbesEnd(svc: ListService, loc: Location, today: Date, n: nat)
    requires Valid(today)
  {
    ListingEnds(svc, ProbeUrl(loc, today), n) &&
    (PrevDay(today).Some? ==> ListingEnds(svc, ProbeUrl(loc, PrevDay(today).value), n))
  }

  /** The manifest key `latest_inventory` settles on: today's if exactly one
      `manifest.json` key is listed under today's folder, else yesterday's if
      exactly one is listed there, else none. Working out yesterday comes
      first and can overflow. */
  function ChosenManifest(svc: ListService, loc: Location, today: Date, n: nat): Result<Option<string>, ScanError>
    requires Valid(today) && ProbesEnd(svc, loc, today, n)
  {
    match PrevDay(today)
    case None => Err(DateOverflow)
    case Some(yesterday) =>
      match FindSpec(svc, ProbeUrl(loc, today), ManifestSuffix, n)
      case Err(e) => Err(BadUrl(e))
      case Ok(found) =>
        if |found| == 1 then Ok(Some(found[0]))
        else
          match FindSpec(svc, ProbeUrl(loc, yesterday), ManifestSuffix, n)
          case Err(e) => Err(BadUrl(e))
          case Ok(found') => if |found'| == 1 then Ok(Some(found'[0])) else Ok(None)
  }

  /** The date loop of `latest_inventory`: probe today, then yesterday, and
      stop at the first date with exactly one manifest. */
  method ChooseManifest(svc: ListService, loc: Location, today: Date, ghost n: nat) returns (r: Result<Option<string>, ScanError>)
    requires Valid(today) && ProbesEnd(svc, loc, today, n)
    ensures r == ChosenManifest(svc, loc, today, n)
  {
    var yesterday := PrevDay(today);
    if yesterday.None? {
      return Err(DateOverflow);
    }
    var dates := [today, yesterday.value];
    assert dates[0] == today && dates[1] == yesterday.value;
    var manifestKey: Option<string> := None;
    for i := 0 to |dates|
      invariant manifestKey == None
      invariant forall j :: 0 <= j < i ==>
        FindSpec(svc, ProbeUrl(loc, dates[j]), ManifestSuffix, n).Ok? &&
        |FindSpec(svc, ProbeUrl(loc, dates[j]), ManifestSuffix, n).value| != 1
    {
      var keys := Find(svc, ProbeUrl(loc, dates[i]), ManifestSuffix, n);
      if keys.Err? {
        return Err(BadUrl(keys.error));
      }
      if |keys.value| == 1 {
        manifestKey := Some(keys.value[0]);
        break;
      }
    }
    return Ok(manifestKey);
  }

  /** A chosen manifest key ends with `manifest.json` and lies under the
      folder of today or of yesterday. */
  lemma ChosenManifestShape(svc: ListService, loc: Location, today: Date, n: nat)
    requires Valid(today) && ProbesEnd(svc, loc, today, n)
    requires ChosenManifest(svc, loc, today, n).Ok? && ChosenManifest(svc, loc, today, n).value.Some?
    ensures var key := ChosenManifest(svc, loc, today, n).value.value;
      EndsWith(key, ManifestSuffix) &&
      exists d :: (d == today || Some(d) == PrevDay(today)) && Valid(d) &&
        UrlParse(ProbeUrl(loc, d)).Ok? && StartsWith(key, UrlParse(ProbeUrl(loc, d)).value.key)
  {
    var key := ChosenManifest(svc, loc, today, n).value.value;
    var yesterday := PrevDay(today).value;
    var found := FindSpec(svc, ProbeUrl(loc, today), ManifestSuffix, n);
    if found.Ok? && |found.value| == 1 {
      assert key == found.value[0] && key in found.value;
    } else {
      var found' := FindSpec(svc, ProbeUrl(loc, yesterday), ManifestSuffix, n);
      assert key == found'.value[0] && key in found'.value;
      assert Some(yesterday) == PrevDay(today);
    }
  }

  // ---------------------------------------------------------------------
  // One line of a data file

  /** `[str(key).strip() for key in fileSchema.split(',')]`. */
  function Schema(fileSchema: string): (columns: seq<string>)
    ensures var parts := Split(fileSchema, ',');
      |columns| == |parts| && forall i :: 0 <= i < |columns| ==> columns[i] == Strip(parts[i])
  {
    StripAll(Split(fileSchema, ','))
  }

  function StripAll(parts: seq<string>): (r: seq<string>)
    ensures |r| == |parts| && forall i :: 0 <= i < |r| ==> r[i] == Strip(parts[i])
  {
    if |parts| == 0 then [] else [Strip(parts[0])] + StripAll(parts[1..])
  }

  /** `line.replace('"', '').split(',')`. */
  function Fields(line: string): seq<string> {
    Split(ReplaceAll(line, "\"", ""), ',')
  }

  /** `{schema[i]: v for i, v in enumerate(fields)}` when there are no more
      fields than columns: the entries are exactly the columns that get a
      field. */
  function Zip(schema: seq<string>, fields: seq<string>): (r: Record)
    requires |fields| <= |schema|
    ensures forall i :: 0 <= i < |fields| ==> schema[i] in r
    ensures forall k :: k in r ==> k in schema[..|fields|]
  {
    if |fields| == 0 then map[]
    else
      var n := |fields| - 1;
      assert forall k :: k in schema[..n] ==> k in schema[..n + 1];
      Zip(schema, fields[..n])[schema[n] := fields[n]]
  }

  /** Column `schema[i]` holds field `i` when no later field goes to a column
      of the same name (the last one wins). */
  lemma {:induction false} ZipAt(schema: seq<string>, fields: seq<string>, i: nat)
    requires |fields| <= |schema| && i < |fields|
    requires forall j :: i < j < |fields| ==> schema[j] != schema[i]
    ensures Zip(schema, fields)[schema[i]] == fields[i]
  {
    var n := |fields| - 1;
    if i < n {
      assert fields[..n][i] == fields[i];
      ZipAt(schema, fields[..n], i);
    }
  }

  /** The record built from one line, or the `IndexError` raised when it has
      more fields than the schema has columns. */
  function BuildRecord(schema: seq<string>, line: string): Result<Record, ScanError> {
    var fields := Fields(line);
    if |fields| > |schema| then Err(TooManyFields(line)) else Ok(Zip(schema, fields))
  }

  /** The date lies in the inclusive window the filter gives. */
  predicate InWindow(d: Date, flt: Filter) {
    (flt.startDate.None? || !Before(d, flt.startDate.value)) &&
    (flt.endDate.None? || !Before(flt.endDate.value, d))
  }

  /** The key passes the optional prefix and suffix filters. */
  predicate KeyPasses(key: string, flt: Filter) {
    (flt.prefix.None? || StartsWith(key, flt.prefix.value)) &&
    (flt.suffix.None? || EndsWith(key, flt.suffix.value))
  }

  /** The schema lists both `Bucket` and `Key`, so records get a `url`. */
  predicate UrlColumns(schema: seq<string>) {
    "Bucket" in schema && "Key" in schema
  }

  /** A record that passes every filter of the scan. */
  predicate Admitted(info: Record, flt: Filter) {
    "Key" in info && flt.dateKey in info && ParseTimestamp(info[flt.dateKey]).Some? &&
    InWindow(ParseTimestamp(info[flt.dateKey]).value.date, flt) && KeyPasses(info["Key"], flt)
  }

  /** The record with the derived `url` entry, when the schema calls for one. */
  function WithUrl(schema: seq<string>, info: Record): Record
    requires UrlColumns(schema) ==> "Bucket" in info && "Key" in info
  {
    if UrlColumns(schema) then info["url" := Format(info["Bucket"], info["Key"])] else info
  }

  /** The body of the line loop of `latest_inventory`. */
  function ScanLine(schema: seq<string>, line: string, flt: Filter): LineOutcome {
    match BuildRecord(schema, line)
    case Err(e) => Fail(e)
    case Ok(info) =>
      if "Key" !in info then Skip
      else if flt.dateKey !in info then Fail(MissingColumn(flt.dateKey))
      else
        match ParseTimestamp(info[flt.dateKey])
        case None => Fail(BadTimestamp(info[flt.dateKey]))
        case Some(t) =>
          if (flt.startDate.Some? && Before(t.date, flt.startDate.value)) ||
             (flt.endDate.Some? && Before(flt.endDate.value, t.date)) then Skip
          else if flt.prefix.Some? && !StartsWith(info["Key"], flt.prefix.value) then Skip
          else if flt.suffix.None? || EndsWith(info["Key"], flt.suffix.value) then
            if UrlColumns(schema) then
              if "Bucket" !in info then Fail(MissingColumn("Bucket"))
              else Yield(info["url" := Format(info["Bucket"], info["Key"])])
            else Yield(info)
          else Skip
  }

  /** A line is yielded exactly when its record builds and passes every
      filter (and has a `Bucket` when a `url` is due); what is yielded is
      that record with its `url`. */
  lemma LineYields(schema: seq<string>, line: string, flt: Filter)
    ensures ScanLine(schema, line, flt).Yield? <==>
      BuildRecord(schema, line).Ok? && Admitted(BuildRecord(schema, line).value, flt) &&
      (UrlColumns(schema) ==> "Bucket" in BuildRecord(schema, line).value)
    ensures ScanLine(schema, line, flt).Yield? ==>
      ScanLine(schema, line, flt).record == WithUrl(schema, BuildRecord(schema, line).value)
  {
  }

  /** A line stops the scan exactly when it has too many fields, or has a
      `Key` but no readable timestamp, or passes the filters without the
      `Bucket` its `url` needs; a malformed timestamp is never skipped. */
  lemma LineFails(schema: seq<string>, line: string, flt: Filter)
    ensures ScanLine(schema, line, flt).Fail? <==>
      |Fields(line)| > |schema| ||
      (var info := Zip(schema, Fields(line));
       ("Key" in info && (flt.dateKey !in info || ParseTimestamp(info[flt.dateKey]).None?)) ||
       (Admitted(info, flt) && UrlColumns(schema) && "Bucket" !in info))
  {
  }

  // ---------------------------------------------------------------------
  // Lines and files

  /** What the lines of one data file give: the records of the lines in
      order, up to the first line that fails. */
  function ScanLines(schema: seq<string>, lines: seq<string>, flt: Filter): Scan {
    if |lines| == 0 then Scan([], None)
    else
      match ScanLine(schema, lines[0], flt)
      case Fail(e) => Scan([], Some(e))
      case Skip => ScanLines(schema, lines[1..], flt)
      case Yield(r) => Then([r], ScanLines(schema, lines[1..], flt))
  }

  /** What the data files give, file after file, each read at the URL
      `s3://bucket/key` and split into lines. */
  function ScanFiles(bucket: string, files: seq<string>, schema: seq<string>, flt: Filter, read: ObjectReader): Scan {
    if |files| == 0 then Scan([], None)
    else
      match UrlParse(Format(bucket, files[0]))
      case Err(e) => Scan([], Some(BadUrl(e)))
      case Ok(file) =>
        var s := ScanLines(schema, Split(read(file.bucket, file.key), '\n'), flt);
        if s.error.Some? then s else Then(s.records, ScanFiles(bucket, files[1..], schema, flt, read))
  }

  /** The body of the line loop: build the record, skip it or fail on it as
      the filters say, and add its `url`. */
  method ProcessLine(schema: seq<string>, line: string, flt: Filter) returns (o: LineOutcome)
    ensures o == ScanLine(schema, line, flt)
  {
    var built := BuildRecord(schema, line);
    if built.Err? {
      return Fail(built.error);
    }
    var info := built.value;
    if "Key" !in info {
      return Skip;
    }
    if flt.dateKey !in info {
      return Fail(MissingColumn(flt.dateKey));
    }
    var parsed := ParseTimestamp(info[flt.dateKey]);
    if parsed.None? {
      return Fail(BadTimestamp(info[flt.dateKey]));
    }
    var dt := parsed.value.date;
    if (flt.startDate.Some? && Before(dt, flt.startDate.value)) || (flt.endDate.Some? && Before(flt.endDate.value, dt)) {
      return Skip;
    }
    if flt.prefix.Some? && !StartsWith(info["Key"], flt.prefix.value) {
      return Skip;
    }
    if flt.suffix.None? || EndsWith(info["Key"], flt.suffix.value) {
      if "Bucket" in schema && "Key" in schema {
        if "Bucket" !in info {
          return Fail(MissingColumn("Bucket"));
        }
        info := info["url" := Format(info["Bucket"], info["Key"])];
      }
      return Yield(info);
    }
    return Skip;
  }

  /** What every yielded record satisfies: it has a `Key` that passes the
      prefix and suffix filters, a timestamp inside the date window (unless
      the timestamp column is the `url` that gets overwritten), the derived
      `url` of its `Bucket` and `Key` when the schema lists both, and no
      column outside the schema but that `url`. */
  predicate RecordShape(schema: seq<string>, flt: Filter, r: Record) {
    "Key" in r && KeyPasses(r["Key"], flt) &&
    ((flt.dateKey != "url" || !UrlColumns(schema)) ==>
      flt.dateKey in r && ParseTimestamp(r[flt.dateKey]).Some? && InWindow(ParseTimestamp(r[flt.dateKey]).value.date, flt)) &&
    (UrlColumns(schema) ==> "url" in r && "Bucket" in r && r["url"] == Format(r["Bucket"], r["Key"])) &&
    (forall k :: k in r ==> k in schema || (k == "url" && UrlColumns(schema)))
  }

  /** A yielded line gives a record of that shape. */
  lemma LineRecordShape(schema: seq<string>, line: string, flt: Filter)
    ensures ScanLine(schema, line, flt).Yield? ==> RecordShape(schema, flt, ScanLine(schema, line, flt).record)
  {
    if ScanLine(schema, line, flt).Fail? || BuildRecord(schema, line).Err? {
      return;
    }
    var info := BuildRecord(schema, line).value;
    var fields := Fields(line);
    assert forall k :: k in info ==> k in schema by {
      forall k | k in info ensures k in schema {
        assert k in schema[..|fields|];
      }
    }
  }

  /** Every record the lines of a file yield has that shape. */
  lemma {:induction false} ScanLinesShape(schema: seq<string>, lines: seq<string>, flt: Filter)
    ensures forall r :: r in ScanLines(schema, lines, flt).records ==> RecordShape(schema, flt, r)
  {
    if |lines| > 0 {
      ScanLinesShape(schema, lines[1..], flt);
      if ScanLine(schema, lines[0], flt).Yield? {
        LineRecordShape(schema, lines[0], flt);
      }
    }
  }

  /** A scan halts at the first line that fails, with that line's error,
      having yielded exactly what the lines before it yield: a malformed
      timestamp is never skipped. */
  lemma {:induction false} HaltsAtFailure(schema: seq<string>, lines: seq<string>, flt: Filter, i: nat)
    requires i < |lines| && ScanLine(schema, lines[i], flt).Fail?
    requires forall j :: 0 <= j < i ==> !ScanLine(schema, lines[j], flt).Fail?
    ensures ScanLines(schema, lines[..i], flt).error.None?
    ensures ScanLines(schema, lines, flt) ==
      Scan(ScanLines(schema, lines[..i], flt).records, Some(ScanLine(schema, lines[i], flt).error))
  {
    if i > 0 {
      assert lines[..i][1..] == lines[1..][..i - 1];
      HaltsAtFailure(schema, lines[1..], flt, i - 1);
      assert lines[..i][0] == lines[0];
    }
  }

  /** The line loop over one data file. */
  method ScanFile(schema: seq<string>, lines: seq<string>, flt: Filter) returns (s: Scan)
    ensures s == ScanLines(schema, lines, flt)
  {
    var records: seq<Record> := [];
    for i := 0 to |lines|
      invariant Then(records, ScanLines(schema, lines[i..], flt)) == ScanLines(schema, lines, flt)
    {
      assert lines[i..][1..] == lines[i + 1..];
      var outcome := ProcessLine(schema, lines[i], flt);
      match outcome
      case Fail(e) =>
        return Scan(records, Some(e));
      case Skip =>
      case Yield(info) =>
        assert records + ([info] + ScanLines(schema, lines[i + 1..], flt).records) ==
          (records + [info]) + ScanLines(schema, lines[i + 1..], flt).records;
        records := records + [info];
    }
    assert records + [] == records;
    return Scan(records, None);
  }

  /** Yielding `a`, then `b`, then what `s` yields is yielding `a + b` first. */
  lemma ThenThen(a: seq<Record>, b: seq<Record>, s: Scan)
    ensures Then(a, Then(b, s)) == Then(a + b, s)
  {
    assert a + (b + s.records) == (a + b) + s.records;
  }

  /** One step of the file loop: the first file's scan, then the rest
      unless that scan failed. */
  lemma FileStep(bucket: string, files: seq<string>, schema: seq<string>, flt: Filter, read: ObjectReader)
    requires |files| > 0 && UrlParse(Format(bucket, files[0])).Ok?
    ensures var file := UrlParse(Format(bucket, files[0])).value;
      var s := ScanLines(schema, Split(read(file.bucket, file.key), '\n'), flt);
      ScanFiles(bucket, files, schema, flt, read) ==
        if s.error.Some? then s else Then(s.records, ScanFiles(bucket, files[1..], schema, flt, read))
  {
  }

  /** The file loop: read each data file the manifest lists and scan its
      lines, stopping at the first failure. */
  method ScanDataFiles(bucket: string, files: seq<string>, schema: seq<string>, flt: Filter, read: ObjectReader) returns (s: Scan)
    ensures s == ScanFiles(bucket, files, schema, flt, read)
  {
    var records: seq<Record> := [];
    ghost var total := ScanFiles(bucket, files, schema, flt, read);
    for i := 0 to |files|
      invariant Then(records, ScanFiles(bucket, files[i..], schema, flt, read)) == total
    {
      ghost var rest := files[i..];
      assert rest[1..] == files[i + 1..] && rest[0] == files[i];
      var file := UrlParse(Format(bucket, files[i]));
      if file.Err? {
        return Scan(records, Some(BadUrl(file.error)));
      }
      var lines := Split(read(file.value.bucket, file.value.key), '\n');
      var scanned := ScanFile(schema, lines, flt);
      FileStep(bucket, rest, schema, flt, read);
      if scanned.error.Some? {
        return Then(records, scanned);
      }
      ThenThen(records, scanned.records, ScanFiles(bucket, files[i + 1..], schema, flt, read));
      records := records + scanned.records;
    }
    assert records + [] == records;
    return Scan(records, None);
  }

  // ---------------------------------------------------------------------
  // The whole scan

  /** The listings `latest_inventory` makes end within `n` pages. */
  predicate InventoryListingsEnd(svc: ListService, url: string, today: Date, n: nat)
    requires Valid(today)
  {
    UrlParse(url).Ok? ==> ProbesEnd(svc, UrlParse(url).value, today, n)
  }

  /** Everything `latest_inventory(url, prefix, suffix, start_date, end_date,
      datetime_key)` yields on `today`, and the exception that ends it. */
  function LatestInventorySpec(svc: ListService, readManifest: ManifestReader, read: ObjectReader,
                               url: string, today: Date, flt: Filter, n: nat): Scan
    requires Valid(today) && InventoryListingsEnd(svc, url, today, n)
  {
    match UrlParse(url)
    case Err(e) => Scan([], Some(BadUrl(e)))
    case Ok(loc) =>
      match ChosenManifest(svc, loc, today, n)
      case Err(e) => Scan([], Some(e))
      case Ok(key) =>
        if key.None? || key.value == "" then Scan([], None)
        else
          match UrlParse(Format(loc.bucket, key.value))
          case Err(e) => Scan([], Some(BadUrl(e)))
          case Ok(at) =>
            var manifest := readManifest(at.bucket, at.key);
            ScanFiles(loc.bucket, manifest.files, Schema(manifest.fileSchema), flt, read)
  }

  /** Every record of the files has the shape `RecordShape` gives. */
  lemma {:induction false} ScanFilesShape(bucket: string, files: seq<string>, schema: seq<string>, flt: Filter, read: ObjectReader)
    ensures forall r :: r in ScanFiles(bucket, files, schema, flt, read).records ==> RecordShape(schema, flt, r)
  {
    if |files| > 0 {
      var file := UrlParse(Format(bucket, files[0]));
      if file.Ok? {
        ScanLinesShape(schema, Split(read(file.value.bucket, file.value.key), '\n'), flt);
        ScanFilesShape(bucket, files[1..], schema, flt, read);
      }
    }
  }

  /** Whatever `latest_inventory` yields has a `Key` passing the prefix and
      suffix filters and a timestamp inside the date window (the timestamp
      column other than `url`), and has the full record shape for the schema
      of the manifest read, `url` included; when no manifest is found it
      yields nothing and raises nothing. */
  lemma InventoryRecords(svc: ListService, readManifest: ManifestReader, read: ObjectReader,
                         url: string, today: Date, flt: Filter, n: nat)
    requires Valid(today) && InventoryListingsEnd(svc, url, today, n)
    ensures var s := LatestInventorySpec(svc, readManifest, read, url, today, flt, n);
      forall r :: r in s.records ==>
        "Key" in r && KeyPasses(r["Key"], flt) &&
        (flt.dateKey != "url" ==> flt.dateKey in r && ParseTimestamp(r[flt.dateKey]).Some? &&
                                  InWindow(ParseTimestamp(r[flt.dateKey]).value.date, flt))
    ensures UrlParse(url).Ok? && ChosenManifest(svc, UrlParse(url).value, today, n) == Ok(None) ==>
      LatestInventorySpec(svc, readManifest, read, url, today, flt, n) == Scan([], None)
    ensures UrlParse(url).Ok? ==>
      var loc := UrlParse(url).value;
      var key := ChosenManifest(svc, loc, today, n);
      key.Ok? && key.value.Some? && key.value.value != "" && UrlParse(Format(loc.bucket, key.value.value)).Ok? ==>
      var at := UrlParse(Format(loc.bucket, key.value.value)).value;
      var schema := Schema(readManifest(at.bucket, at.key).fileSchema);
      forall r :: r in LatestInventorySpec(svc, readManifest, read, url, today, flt, n).records ==> RecordShape(schema, flt, r)
  {
    var parts := UrlParse(url);
    if parts.Ok? {
      var loc := parts.value;
      var key := ChosenManifest(svc, loc, today, n);
      if key.Ok? && key.value.Some? && key.value.value != "" {
        var at := UrlParse(Format(loc.bucket, key.value.value));
        if at.Ok? {
          var manifest := readManifest(at.value.bucket, at.value.key);
          ScanFilesShape(loc.bucket, manifest.files, Schema(manifest.fileSchema), flt, read);
        }
      }
    }
  }

  /** `r` is what some line of `lines` yields. */
  predicate YieldedBy(schema: seq<string>, lines: seq<string>, flt: Filter, r: Record) {
    exists i :: 0 <= i < |lines| && ScanLine(schema, lines[i], flt) == Yield(r)
  }

  /** `r` is what some line of the data file listed as `f` yields, the file
      being read at `s3://bucket/f` and split into lines. */
  predicate FromFile(bucket: string, f: string, schema: seq<string>, flt: Filter, read: ObjectReader, r: Record) {
    UrlParse(Format(bucket, f)).Ok? &&
    var file := UrlParse(Format(bucket, f)).value;
    YieldedBy(schema, Split(read(file.bucket, file.key), '\n'), flt, r)
  }

  /** Every record the lines of a file give is what one of its lines yields. */
  lemma {:induction false} ScanLinesFrom(schema: seq<string>, lines: seq<string>, flt: Filter)
    ensures forall r :: r in ScanLines(schema, lines, flt).records ==> YieldedBy(schema, lines, flt, r)
  {
    if |lines| > 0 {
      ScanLinesFrom(schema, lines[1..], flt);
      forall r | r in ScanLines(schema, lines, flt).records ensures YieldedBy(schema, lines, flt, r) {
        if ScanLine(schema, lines[0], flt) == Yield(r) {
          assert ScanLine(schema, lines[0], flt) == Yield(r);
        } else {
          assert r in ScanLines(schema, lines[1..], flt).records;
          var i :| 0 <= i < |lines[1..]| && ScanLine(schema, lines[1..][i], flt) == Yield(r);
          assert lines[1..][i] == lines[i + 1];
        }
      }
    }
  }

  /** Every record the data files give is what a line of one of them yields. */
  lemma {:induction false} ScanFilesFrom(bucket: string, files: seq<string>, schema: seq<string>, flt: Filter, read: ObjectReader)
    ensures forall r :: r in ScanFiles(bucket, files, schema, flt, read).records ==>
      exists j :: 0 <= j < |files| && FromFile(bucket, files[j], schema, flt, read, r)
  {
    if |files| > 0 {
      var file := UrlParse(Format(bucket, files[0]));
      if file.Ok? {
        var lines := Split(read(file.value.bucket, file.value.key), '\n');
        ScanLinesFrom(schema, lines, flt);
        ScanFilesFrom(bucket, files[1..], schema, flt, read);
        forall r | r in ScanFiles(bucket, files, schema, flt, read).records
          ensures exists j :: 0 <= j < |files| && FromFile(bucket, files[j], schema, flt, read, r)
        {
          if r in ScanLines(schema, lines, flt).records {
            assert FromFile(bucket, files[0], schema, flt, read, r);
          } else {
            var j :| 0 <= j < |files[1..]| && FromFile(bucket, files[1..][j], schema, flt, read, r);
            assert files[1..][j] == files[j + 1];
          }
        }
      }
    }
  }

  /** Whatever `latest_inventory` yields is what some line of some data file
      listed in the chosen manifest yields: that line's record, column `i`
      of the manifest's schema holding field `i` of the line, with its
      `url` (`Inventory.LineYields`). */
  lemma InventoryProvenance(svc: ListService, readManifest: ManifestReader, read: ObjectReader,
                            url: string, today: Date, flt: Filter, n: nat)
    requires Valid(today) && InventoryListingsEnd(svc, url, today, n)
    ensures UrlParse(url).Ok? ==>
      var loc := UrlParse(url).value;
      var key := ChosenManifest(svc, loc, today, n);
      key.Ok? && key.value.Some? && key.value.value != "" && UrlParse(Format(loc.bucket, key.value.value)).Ok? ==>
      var at := UrlParse(Format(loc.bucket, key.value.value)).value;
      var manifest := readManifest(at.bucket, at.key);
      forall r :: r in LatestInventorySpec(svc, readManifest, read, url, today, flt, n).records ==>
        exists j :: 0 <= j < |manifest.files| &&
          FromFile(loc.bucket, manifest.files[j], Schema(manifest.fileSchema), flt, read, r)
  {
    var parts := UrlParse(url);
    if parts.Ok? {
      var loc := parts.value;
      var key := ChosenManifest(svc, loc, today, n);
      if key.Ok? && key.value.Some? && key.value.value != "" {
        var at := UrlParse(Format(loc.bucket, key.value.value));
        if at.Ok? {
          var manifest := readManifest(at.value.bucket, at.value.key);
          ScanFilesFrom(loc.bucket, manifest.files, Schema(manifest.fileSchema), flt, read);
        }
      }
    }
  }

  /** `latest_inventory`: choose the manifest, read its schema, then scan
      every data file it lists. */
  method LatestInventory(svc: ListService, readManifest: ManifestReader, read: ObjectReader,
                         url: string, today: Date, flt: Filter, ghost n: nat) returns (s: Scan)
    requires Valid(today) && InventoryListingsEnd(svc, url, today, n)
    ensures s == LatestInventorySpec(svc, readManifest, read, url, today, flt, n)
  {
    var parts := UrlParse(url);
    if parts.Err? {
      return Scan([], Some(BadUrl(parts.error)));
    }
    var loc := parts.value;
    var chosen := ChooseManifest(svc, loc, today, n);
    if chosen.Err? {
      return Scan([], Some(chosen.error));
    }
    var manifestKey := chosen.value;
    if manifestKey.None? || manifestKey.value == "" {
      return Scan([], None);
    }
    var at := UrlParse(Format(loc.bucket, manifestKey.value));
    if at.Err? {
      return Scan([], Some(BadUrl(at.error)));
    }
    var manifest := readManifest(at.value.bucket, at.value.key);
    s := ScanDataFiles(loc.bucket, manifest.files, Schema(manifest.fileSchema), flt, read);
  }
}
