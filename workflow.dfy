/** The package's batch workflow (garmin_uploader/workflow.py): the
    `Activity` objects built from the command line and from CSV list
    files, and the `Workflow` that lists them, logs in and uploads them one
    by one under its own rate limit.

    `GarminAPI.upload_activity` and `set_activity_info` are not modelled:
    garmin_uploader/api.py in this revision defines only `UploadGarmin`,
    not `GarminAPI`; what they answer is a parameter. */
module Package {
  import opened Base
  import opened Paths
  import opened Files
  import opened Garmin
  import opened Credentials
  import opened Users

  /** What `upload_activity` does: raise `GarminAPIException`, or return
      the activity id and whether the file was new to Garmin Connect. */
  datatype UploadAnswer = Rejected | Accepted(id: int, uploaded: bool)

  /** `repr(activity)`: the name, or the file name when the name is empty,
      prefixed by the id once there is one. */
  function ReprOf(id: Option<int>, name: Option<string>, filename: string): string {
    var shown := if Truthy(name) then name.value else filename;
    if id.None? then shown else Decimal(id.value) + " : " + shown
  }

  /** An upload only ever adds the `<id> : ` prefix. */
  lemma ReprAfterUpload(id: int, name: Option<string>, filename: string)
    ensures ReprOf(Some(id), name, filename) == Decimal(id) + " : " + ReprOf(None, name, filename)
    ensures Truthy(name) ==> ReprOf(None, name, filename) == name.value
    ensures !Truthy(name) ==> ReprOf(None, name, filename) == filename
  {
  }

  class Activity {
    var id: Option<int>       // provided on upload
    const path: string
    const name: Option<string>
    const kind: Option<string>
    const notes: Option<string>

    constructor (path: string, name: Option<string>, kind: Option<string>, notes: Option<string>)
      ensures id.None?
      ensures this.path == path && this.name == name && this.kind == kind && this.notes == notes
    {
      id := None;
      this.path, this.name, this.kind, this.notes := path, name, kind, notes;
    }

    function Repr(): string
      reads this
    {
      ReprOf(id, name, Filename())
    }

    /** The `filename` property: the base name, made ASCII for the
        multipart header by dropping what does not encode. */
    function Filename(): (r: string)
      ensures IsAscii(r) && IsSubsequence(r, Basename(path))
      ensures r == Basename(path) <==> IsAscii(Basename(path))
    {
      AsciiNameSound(Basename(path));
      AsciiName(Basename(path))
    }

    /** The `extension` property: the lower-cased extension, or the
        "Invalid File Extension" exception. */
    function Extension(): (r: Result<string, GateError>)
      ensures r.Ok? <==> LowerExtension(path) in ValidExtensions
      ensures r.Ok? ==> r.value == LowerExtension(path)
    {
      var e := LowerExtension(path);
      if e !in ValidExtensions then Err(InvalidFileExtension) else Ok(e)
    }

    /** The mode `open` uses: bytes exactly for `.fit`; an invalid
        extension raises before the file is opened. */
    function OpenMode(): (r: Result<Mode, GateError>)
      ensures r.Ok? <==> Extension().Ok?
      ensures r.Ok? ==> (r.value == ReadBinary <==> LowerExtension(path) == ".fit")
    {
      var e :- Extension();
      Ok(if e in BinaryFormats then ReadBinary else ReadText)
    }

    /** `upload`: a rejected upload leaves the id alone and returns False.
        Otherwise the id is taken from the answer, the info update is sent
        only for a new upload with a name, type or notes, and True is
        returned whether or not that update raised. */
    method Upload(user: User, answer: UploadAnswer) returns (ok: bool, infoSent: bool)
      requires user.session.Some?
      modifies this
      ensures answer.Rejected? ==> !ok && !infoSent && id == old(id)
      ensures answer.Accepted? ==> ok && id == Some(answer.id)
      ensures answer.Accepted? ==> (infoSent <==> answer.uploaded && (Truthy(name) || Truthy(kind) || Truthy(notes)))
    {
      if answer.Rejected? {
        return false, false;
      }
      id := Some(answer.id);
      infoSent := false;
      if answer.uploaded {
        if Truthy(name) || Truthy(kind) || Truthy(notes) {
          // an exception from the update is only logged, so it changes nothing here
          infoSent := true;
        }
      }
      ok := true;
    }
  }

  /** What an `Activity` is built from. */
  datatype Entry = Entry(path: string, name: Option<string>, kind: Option<string>, notes: Option<string>)

  predicate Holds(a: Activity, e: Entry) {
    a.path == e.path && a.name == e.name && a.kind == e.kind && a.notes == e.notes
  }

  predicate Describe(acts: seq<Activity>, entries: seq<Entry>) {
    |acts| == |entries| && forall i :: 0 <= i < |acts| ==> Holds(acts[i], entries[i])
  }

  predicate Distinct(acts: seq<Activity>) {
    forall i, j :: 0 <= i < j < |acts| ==> acts[i] != acts[j]
  }

  datatype LoadError = KeyError(column: string) | NoValidFiles

  /** A CSV row as `load_activities` reads it: `row['filename']` first (for
      `is_activity`), then, for an activity file, the name, type and notes
      columns. A missing column raises KeyError. */
  function RowEntryAsWritten(fs: FileSystem, row: Row): (r: Result<Option<Entry>, LoadError>)
    ensures r.Ok? && r.value.Some? ==> IsActivity(fs, r.value.value.path) && r.value.value.notes.Some?
    ensures r == Err(KeyError("notes")) <==>
      "filename" in row && IsActivity(fs, row["filename"]) && "name" in row && "type" in row && "notes" !in row
  {
    if "filename" !in row then Err(KeyError("filename"))
    else if !IsActivity(fs, row["filename"]) then Ok(None)
    else if "name" !in row then Err(KeyError("name"))
    else if "type" !in row then Err(KeyError("type"))
    else if "notes" !in row then Err(KeyError("notes"))
    else Ok(Some(Entry(row["filename"], Some(row["name"]), Some(row["type"]), Some(row["notes"]))))
  }

  /** The same with the notes column optional, as the list files the
      package's own tests write have no such column. */
  function RowEntry(fs: FileSystem, row: Row): (r: Result<Option<Entry>, LoadError>)
    ensures r.Ok? && r.value.Some? ==> IsActivity(fs, r.value.value.path)
  {
    if "filename" !in row then Err(KeyError("filename"))
    else if !IsActivity(fs, row["filename"]) then Ok(None)
    else if "name" !in row then Err(KeyError("name"))
    else if "type" !in row then Err(KeyError("type"))
    else
      var notes := if "notes" in row then Some(row["notes"]) else None;
      Ok(Some(Entry(row["filename"], Some(row["name"]), Some(row["type"]), notes)))
  }

  /** A row raises exactly when it has no `filename`, or names an
      activity file and lacks `name` or `type`; it lists nothing exactly
      when its file is not an activity file; otherwise it lists its own
      file, name and type, and its notes when that column exists. */
  lemma RowEntryReads(fs: FileSystem, row: Row)
    ensures var r := RowEntry(fs, row);
      r.Err? <==> "filename" !in row || (IsActivity(fs, row["filename"]) && ("name" !in row || "type" !in row))
    ensures RowEntry(fs, row) == Ok(None) <==> "filename" in row && !IsActivity(fs, row["filename"])
    ensures var r := RowEntry(fs, row);
      r.Ok? && r.value.Some? ==>
        var e := r.value.value;
        && e.path == row["filename"] && e.name == Some(row["name"]) && e.kind == Some(row["type"])
        && (e.notes.Some? <==> "notes" in row) && (e.notes.Some? ==> e.notes.value == row["notes"])
  {
  }

  /** The two agree on every row that has a notes column. */
  lemma RowEntryAgreesWithNotes(fs: FileSystem, row: Row)
    requires "notes" in row
    ensures RowEntry(fs, row) == RowEntryAsWritten(fs, row)
  {
  }

  /** What each row of a list file reads to, in row order. */
  function RowResults(fs: FileSystem, rows: seq<Row>): seq<Result<Option<Entry>, LoadError>> {
    seq(|rows|, i requires 0 <= i < |rows| => RowEntry(fs, rows[i]))
  }

  /** Row results taken in order: the first error raises; otherwise the
      entries of the rows that list one. */
  function Gather(rs: seq<Result<Option<Entry>, LoadError>>): Result<seq<Entry>, LoadError>
    decreases |rs|
  {
    if rs == [] then Ok([])
    else
      var before :- Gather(rs[..|rs| - 1]);
      var e :- rs[|rs| - 1];
      Ok(before + if e.Some? then [e.value] else [])
  }

  /** The activities listed by the rows of one list file, in row order;
      the first failing row raises. */
  function RowsEntries(fs: FileSystem, rows: seq<Row>): Result<seq<Entry>, LoadError> {
    Gather(RowResults(fs, rows))
  }

  /** Gathering succeeds exactly when every result does. */
  lemma {:induction false} GatherOk(rs: seq<Result<Option<Entry>, LoadError>>)
    ensures Gather(rs).Ok? <==> forall i :: 0 <= i < |rs| ==> rs[i].Ok?
    decreases |rs|
  {
    if rs != [] {
      var init := rs[..|rs| - 1];
      GatherOk(init);
      assert forall i :: 0 <= i < |init| ==> init[i] == rs[i];
    }
  }

  /** Result `i` is the first error of `rs`, and the one gathering raises. */
  predicate FirstError(rs: seq<Result<Option<Entry>, LoadError>>, i: nat)
    requires i < |rs|
  {
    && rs[i].Err?
    && Gather(rs).Err? && Gather(rs).error == rs[i].error
    && forall j :: 0 <= j < i ==> rs[j].Ok?
  }

  /** A failed gathering raises the first error. */
  lemma {:induction false} GatherFirstError(rs: seq<Result<Option<Entry>, LoadError>>)
    ensures Gather(rs).Err? ==> exists i :: 0 <= i < |rs| && FirstError(rs, i)
    decreases |rs|
  {
    if rs != [] {
      var init := rs[..|rs| - 1];
      GatherFirstError(init);
      if Gather(init).Err? {
        var i :| 0 <= i < |init| && FirstError(init, i);
        assert forall j :: 0 <= j <= i ==> init[j] == rs[j];
        assert FirstError(rs, i);
      } else if rs[|rs| - 1].Err? {
        GatherOk(init);
        assert forall j :: 0 <= j < |init| ==> init[j] == rs[j];
        assert FirstError(rs, |rs| - 1);
      }
    }
  }

  /** A successful gathering, one result shorter, followed by the last entry. */
  lemma GatherLast(rs: seq<Result<Option<Entry>, LoadError>>)
    requires rs != [] && Gather(rs).Ok?
    ensures Gather(rs[..|rs| - 1]).Ok? && rs[|rs| - 1].Ok?
    ensures var e := rs[|rs| - 1].value;
      Gather(rs).value == Gather(rs[..|rs| - 1]).value + if e.Some? then [e.value] else []
  {
  }

  /** Every gathered entry is the entry of some result. */
  lemma {:induction false} GatherListed(rs: seq<Result<Option<Entry>, LoadError>>)
    ensures Gather(rs).Ok? ==> forall e :: e in Gather(rs).value ==>
      exists i :: 0 <= i < |rs| && rs[i] == Ok(Some(e))
    decreases |rs|
  {
    if rs != [] && Gather(rs).Ok? {
      var init := rs[..|rs| - 1];
      GatherLast(rs);
      GatherListed(init);
      forall x | x in Gather(rs).value
        ensures exists i :: 0 <= i < |rs| && rs[i] == Ok(Some(x))
      {
        if x in Gather(init).value {
          var i :| 0 <= i < |init| && init[i] == Ok(Some(x));
          assert rs[i] == init[i];
        } else {
          assert rs[|rs| - 1] == Ok(Some(x));
        }
      }
    }
  }

  /** The entry of every result that lists one is gathered. */
  lemma {:induction false} GatherComplete(rs: seq<Result<Option<Entry>, LoadError>>, i: nat)
    requires i < |rs| && Gather(rs).Ok? && rs[i].Ok? && rs[i].value.Some?
    ensures rs[i].value.value in Gather(rs).value
    decreases |rs|
  {
    var init := rs[..|rs| - 1];
    GatherLast(rs);
    if i < |init| {
      assert rs[i] == init[i];
      GatherComplete(init, i);
    }
  }

  /** Reading the rows of a list file succeeds exactly when every row
      does; the first failing row gives the error; and the activities are
      exactly those of the rows naming activity files. */
  lemma RowsEntriesFilter(fs: FileSystem, rows: seq<Row>)
    ensures RowsEntries(fs, rows).Ok? <==> forall i :: 0 <= i < |rows| ==> RowEntry(fs, rows[i]).Ok?
    ensures RowsEntries(fs, rows).Err? ==> exists i :: 0 <= i < |rows| && FirstRowError(fs, rows, i)
    ensures RowsEntries(fs, rows).Ok? ==> forall e :: e in RowsEntries(fs, rows).value <==>
      exists i :: 0 <= i < |rows| && RowEntry(fs, rows[i]) == Ok(Some(e))
  {
    var rs := RowResults(fs, rows);
    assert forall j :: 0 <= j < |rows| ==> rs[j] == RowEntry(fs, rows[j]);
    GatherOk(rs);
    GatherFirstError(rs);
    GatherListed(rs);
    if Gather(rs).Err? {
      var i :| 0 <= i < |rs| && FirstError(rs, i);
      assert FirstRowError(fs, rows, i);
    }
    forall e, i | 0 <= i < |rows| && Gather(rs).Ok? && RowEntry(fs, rows[i]) == Ok(Some(e))
      ensures e in Gather(rs).value
    {
      GatherComplete(rs, i);
    }
  }

  /** Row `i` is the first row of `rows` whose reading raises. */
  predicate FirstRowError(fs: FileSystem, rows: seq<Row>, i: nat)
    requires i < |rows|
  {
    && RowEntry(fs, rows[i]).Err?
    && RowsEntries(fs, rows).Err? && RowsEntries(fs, rows).error == RowEntry(fs, rows[i]).error
    && forall j :: 0 <= j < i ==> RowEntry(fs, rows[j]).Ok?
  }

  /** The activities of all list files, file after file. */
  function CsvEntries(fs: FileSystem, csvs: seq<string>): Result<seq<Entry>, LoadError>
    decreases |csvs|
  {
    if csvs == [] then Ok([])
    else
      var before :- CsvEntries(fs, csvs[..|csvs| - 1]);
      var rows :- RowsEntries(fs, CsvRows(fs, csvs[|csvs| - 1]));
      Ok(before + rows)
  }

  /** `[Activity(p, name, type) for p in valid_paths]`. */
  function DirectEntries(paths: seq<string>, name: Option<string>, kind: Option<string>): (r: seq<Entry>)
    ensures |r| == |paths|
    ensures forall i :: 0 <= i < |r| ==> r[i] == Entry(paths[i], name, kind, None)
  {
    seq(|paths|, i requires 0 <= i < |paths| => Entry(paths[i], name, kind, None))
  }

  /** What `load_activities` returns: the activities of the direct paths,
      carrying the command-line name (kept only for a single path) and
      type, followed by those of the list files. */
  function Listing(fs: FileSystem, paths: seq<string>, name: Option<string>, kind: Option<string>): Result<seq<Entry>, LoadError> {
    var (valid, csvs) := WorkflowPaths(fs, paths);
    Assemble(DirectEntries(valid, KeptName(|valid|, name), kind), CsvEntries(fs, csvs))
  }

  /** The direct activities followed by the listed ones, unless listing
      raised or there is none at all. */
  function Assemble(direct: seq<Entry>, listed: Result<seq<Entry>, LoadError>): Result<seq<Entry>, LoadError> {
    if listed.Err? then Err(listed.error)
    else if |direct + listed.value| == 0 then Err(NoValidFiles)
    else Ok(direct + listed.value)
  }

  lemma DescribeConcat(a: seq<Activity>, e: seq<Entry>, a': seq<Activity>, e': seq<Entry>)
    requires Describe(a, e) && Describe(a', e')
    ensures Describe(a + a', e + e')
  {
  }

  lemma RowsEntriesAreActivities(fs: FileSystem, rows: seq<Row>)
    ensures RowsEntries(fs, rows).Ok? ==>
      forall e :: e in RowsEntries(fs, rows).value ==> IsActivity(fs, e.path)
  {
    GatherListed(RowResults(fs, rows));
  }

  lemma {:induction false} CsvEntriesAreActivities(fs: FileSystem, csvs: seq<string>)
    ensures CsvEntries(fs, csvs).Ok? ==>
      forall e :: e in CsvEntries(fs, csvs).value ==> IsActivity(fs, e.path)
    decreases |csvs|
  {
    if csvs != [] {
      CsvEntriesAreActivities(fs, csvs[..|csvs| - 1]);
      RowsEntriesAreActivities(fs, CsvRows(fs, csvs[|csvs| - 1]));
    }
  }

  /** Every listed activity is an existing file with a whitelisted
      extension; the direct paths come first, in order, with the kept name
      and the command-line type, and the list files' rows follow them; and
      an empty listing raises. */
  lemma ListingProperties(fs: FileSystem, paths: seq<string>, name: Option<string>, kind: Option<string>)
    ensures var r := Listing(fs, paths, name, kind);
      r.Ok? ==> forall e :: e in r.value ==> IsActivity(fs, e.path)
    ensures var r := Listing(fs, paths, name, kind); var valid := WorkflowPaths(fs, paths).0;
      r.Ok? ==> |valid| <= |r.value|
    ensures var r := Listing(fs, paths, name, kind); var valid := WorkflowPaths(fs, paths).0;
      r.Ok? ==> forall i :: 0 <= i < |valid| ==> r.value[i] == Entry(valid[i], KeptName(|valid|, name), kind, None)
    ensures var r := Listing(fs, paths, name, kind); var valid := WorkflowPaths(fs, paths).0;
      r.Ok? ==> r.value[|valid|..] == CsvEntries(fs, WorkflowPaths(fs, paths).1).value
    ensures var r := Listing(fs, paths, name, kind);
      r.Ok? <==> CsvEntries(fs, WorkflowPaths(fs, paths).1).Ok? && |WorkflowPaths(fs, paths).0| + |CsvEntries(fs, WorkflowPaths(fs, paths).1).value| > 0
  {
    WorkflowPathsSound(fs, paths);
    CsvEntriesAreActivities(fs, WorkflowPaths(fs, paths).1);
  }

  /** One more list file whose rows read: its activities follow the
      earlier ones. */
  lemma CsvEntriesStep(fs: FileSystem, csvs: seq<string>, c: nat)
    requires c < |csvs| && CsvEntries(fs, csvs[..c]).Ok? && RowsEntries(fs, CsvRows(fs, csvs[c])).Ok?
    ensures CsvEntries(fs, csvs[..c + 1]) ==
      Ok(CsvEntries(fs, csvs[..c]).value + RowsEntries(fs, CsvRows(fs, csvs[c])).value)
  {
    assert csvs[..c + 1][..c] == csvs[..c];
  }

  /** Once a prefix of the list files raises, the whole listing raises the
      same error. */
  lemma {:induction false} CsvErrorSticks(fs: FileSystem, csvs: seq<string>, c: nat)
    requires c <= |csvs| && CsvEntries(fs, csvs[..c]).Err?
    ensures CsvEntries(fs, csvs) == CsvEntries(fs, csvs[..c])
    decreases |csvs| - c
  {
    if c < |csvs| {
      assert csvs[..c + 1][..c] == csvs[..c];
      CsvErrorSticks(fs, csvs, c + 1);
    } else {
      assert csvs[..c] == csvs;
    }
  }

  /** The path loop of `load_activities`. */
  method CollectPaths(fs: FileSystem, paths: seq<string>) returns (validPaths: seq<string>, csvFiles: seq<string>)
    ensures (validPaths, csvFiles) == WorkflowPaths(fs, paths)
  {
    validPaths, csvFiles := [], [];
    var i := 0;
    while i < |paths|
      invariant 0 <= i <= |paths|
      invariant (validPaths, csvFiles) == WorkflowPaths(fs, paths[..i])
    {
      var path := paths[i];
      assert paths[..i + 1][..i] == paths[..i];
      if IsActivity(fs, path) {
        validPaths := validPaths + [path];
      } else if IsCsv(fs, path) {
        csvFiles := csvFiles + [path];
      } else if path in fs.dirs {
        validPaths := validPaths + Activities(fs, Glob(fs, Join(path, "*")));
      }
      i := i + 1;
    }
    assert paths[..i] == paths;
  }

  /** One new `Activity` per entry. */
  method MakeActivities(entries: seq<Entry>) returns (acts: seq<Activity>)
    ensures Describe(acts, entries) && Distinct(acts)
    ensures forall i :: 0 <= i < |acts| ==> fresh(acts[i]) && acts[i].id.None?
  {
    acts := [];
    var i := 0;
    while i < |entries|
      invariant 0 <= i <= |entries|
      invariant Describe(acts, entries[..i]) && Distinct(acts)
      invariant forall k :: 0 <= k < |acts| ==> fresh(acts[k]) && acts[k].id.None?
    {
      var e := entries[i];
      var a := new Activity(e.path, e.name, e.kind, e.notes);
      acts := acts + [a];
      i := i + 1;
    }
    assert entries[..i] == entries;
  }

  /** The list-file loop of `load_activities`: the activities of each
      file's rows, file after file; the first failing row raises. */
  method LoadListFiles(fs: FileSystem, csvFiles: seq<string>) returns (r: Result<seq<Activity>, LoadError>)
    ensures r.Ok? <==> CsvEntries(fs, csvFiles).Ok?
    ensures r.Err? ==> r.error == CsvEntries(fs, csvFiles).error
    ensures r.Ok? ==> Describe(r.value, CsvEntries(fs, csvFiles).value) && Distinct(r.value)
    ensures r.Ok? ==> forall i :: 0 <= i < |r.value| ==> fresh(r.value[i]) && r.value[i].id.None?
  {
    var acts: seq<Activity> := [];
    var c := 0;
    while c < |csvFiles|
      invariant 0 <= c <= |csvFiles|
      invariant CsvEntries(fs, csvFiles[..c]).Ok?
      invariant Describe(acts, CsvEntries(fs, csvFiles[..c]).value) && Distinct(acts)
      invariant forall k :: 0 <= k < |acts| ==> fresh(acts[k]) && acts[k].id.None?
    {
      var listed := RowsEntries(fs, CsvRows(fs, csvFiles[c]));
      if listed.Err? {
        assert csvFiles[..c + 1][..c] == csvFiles[..c];
        CsvErrorSticks(fs, csvFiles, c + 1);
        return Err(listed.error);
      }
      CsvEntriesStep(fs, csvFiles, c);
      var made := MakeActivities(listed.value);
      DescribeConcat(acts, CsvEntries(fs, csvFiles[..c]).value, made, listed.value);
      acts := acts + made;
      c := c + 1;
    }
    assert csvFiles[..c] == csvFiles;
    return Ok(acts);
  }

  datatype RunError = AuthRaised(cause: UserError) | InvalidCredentials

  class Workflow {
    var lastRequest: Option<real>
    var activityType: Option<string>
    var activityName: Option<string>
    var activities: seq<Activity>
    var user: User?

    constructor (activityType: Option<string>, activityName: Option<string>)
      ensures lastRequest.None? && this.activityType == activityType && this.activityName == activityName
      ensures activities == [] && user == null
    {
      lastRequest := None;
      this.activityType, this.activityName := activityType, activityName;
      activities, user := [], null;
    }

    /** `load_activities`: list the paths, drop the name unless exactly
        one activity path was found, then build the activities of the
        direct paths and of every list file's rows. */
    method LoadActivities(fs: FileSystem, paths: seq<string>) returns (r: Result<seq<Activity>, LoadError>)
      modifies this
      ensures activityName == KeptName(|WorkflowPaths(fs, paths).0|, old(activityName))
      ensures activityType == old(activityType) && lastRequest == old(lastRequest)
      ensures activities == old(activities) && user == old(user)
      ensures var spec := Listing(fs, paths, old(activityName), activityType);
        && (r.Ok? <==> spec.Ok?)
        && (r.Err? ==> r.error == spec.error)
        && (r.Ok? ==> Describe(r.value, spec.value) && Distinct(r.value))
      ensures r.Ok? ==> forall i :: 0 <= i < |r.value| ==> fresh(r.value[i]) && r.value[i].id.None?
    {
      var validPaths, csvFiles := CollectPaths(fs, paths);
      if |validPaths| != 1 && Truthy(activityName) {
        activityName := None;
      }
      ghost var spec := Assemble(DirectEntries(validPaths, activityName, activityType), CsvEntries(fs, csvFiles));
      assert Listing(fs, paths, old(activityName), activityType) == spec;
      var direct := MakeActivities(DirectEntries(validPaths, activityName, activityType));
      var listed := LoadListFiles(fs, csvFiles);
      if listed.Err? {
        return Err(listed.error);
      }
      var acts := direct + listed.value;
      DescribeConcat(direct, DirectEntries(validPaths, activityName, activityType), listed.value, CsvEntries(fs, csvFiles).value);
      assert Distinct(acts) by {
        forall i, j | 0 <= i < j < |acts|
          ensures acts[i] != acts[j]
        {
          if j >= |direct| && i < |direct| {
            assert acts[i] == direct[i] && acts[j] == listed.value[j - |direct|];
          }
        }
      }
      if |acts| == 0 {
        return Err(NoValidFiles);
      }
      return Ok(acts);
    }

    /** `rate_limit`: an unset `last_request` becomes 0.0; the time is
        recorded only after an actual wait. */
    method RateLimit(tick: Tick) returns (wait: real)
      modifies this
      ensures (wait, lastRequest) == WorkflowLimit(old(lastRequest), tick.now, tick.overrun)
      ensures activities == old(activities) && user == old(user)
      ensures activityName == old(activityName) && activityType == old(activityType)
    {
      if lastRequest.None? || lastRequest.value == 0.0 {
        lastRequest := Some(0.0);
      }
      wait := 1.0 - (tick.now - lastRequest.value);
      if wait < 0.0 {
        wait := 0.0;
      }
      if wait <= 0.0 {
        return;
      }
      lastRequest := Some(tick.now + wait + tick.overrun);
    }

    /** `run` as written: `User.authenticate` returns None on success, so
        `not self.user.authenticate()` always holds and the run raises
        before any upload. */
    method RunAsWritten(answer: Option<ApiSession>) returns (r: Result<(), RunError>)
      requires user != null
      modifies user
      ensures user.session == answer
      ensures r.Err?
      ensures answer.Some? ==> r == Err(InvalidCredentials)
    {
      var authenticated := user.Authenticate(answer);
      if authenticated.Err? {
        return Err(AuthRaised(authenticated.error));
      }
      // the returned value is None, which is falsy
      return Err(InvalidCredentials);
    }

    /** `run` as intended: log in (a failed login raises), then for each
        activity in order one `rate_limit` and one `upload`. */
    method Run(answer: Option<ApiSession>, answers: seq<UploadAnswer>, ticks: seq<Tick>)
      returns (r: Result<seq<bool>, RunError>, waits: seq<real>)
      requires user != null && Distinct(activities)
      requires |answers| == |activities| && |ticks| == |activities|
      modifies this, user, activities
      ensures activities == old(activities) && user == old(user) && user.session == answer
      ensures activityName == old(activityName) && activityType == old(activityType)
      ensures user.username == old(user.username) && user.password == old(user.password)
      ensures answer.Some? ==> lastRequest == WorkflowLast(old(lastRequest), ticks)
      ensures answer.None? ==> r == Err(AuthRaised(LoginFailed)) && waits == [] && lastRequest == old(lastRequest)
      ensures answer.None? ==> forall i :: 0 <= i < |activities| ==> activities[i].id == old(activities[i].id)
      ensures answer.Some? ==> r.Ok? && |r.value| == |activities| && waits == WorkflowWaits(old(lastRequest), ticks)
      ensures answer.Some? ==> forall i :: 0 <= i < |activities| ==>
        r.value[i] == answers[i].Accepted? &&
        activities[i].id == (if answers[i].Accepted? then Some(answers[i].id) else old(activities[i].id))
    {
      var authenticated := user.Authenticate(answer);
      if authenticated.Err? {
        return Err(AuthRaised(authenticated.error)), [];
      }
      var results: seq<bool> := [];
      waits := [];
      var i := 0;
      while i < |activities|
        invariant 0 <= i <= |activities| && |results| == i
        invariant activities == old(activities) && user == old(user) && user.session == answer
        invariant activityName == old(activityName) && activityType == old(activityType)
        invariant user.username == old(user.username) && user.password == old(user.password)
        invariant waits + WorkflowWaits(lastRequest, ticks[i..]) == WorkflowWaits(old(lastRequest), ticks)
        invariant WorkflowLast(lastRequest, ticks[i..]) == WorkflowLast(old(lastRequest), ticks)
        invariant forall k :: 0 <= k < i ==>
          results[k] == answers[k].Accepted? &&
          activities[k].id == (if answers[k].Accepted? then Some(answers[k].id) else old(activities[k].id))
        invariant forall k :: i <= k < |activities| ==> activities[k].id == old(activities[k].id)
      {
        ghost var before := lastRequest;
        var wait := RateLimit(ticks[i]);
        assert WorkflowWaits(before, ticks[i..]) == [wait] + WorkflowWaits(lastRequest, ticks[i + 1..]) &&
               WorkflowLast(before, ticks[i..]) == WorkflowLast(lastRequest, ticks[i + 1..]) by {
          assert ticks[i..][1..] == ticks[i + 1..];
        }
        var ok, _ := activities[i].Upload(user, answers[i]);
        results := results + [ok];
        waits := waits + [wait];
        i := i + 1;
      }
      assert ticks[i..] == [];
      return Ok(results), waits;
    }
  }

  /** `Workflow(paths, username, password, activity_type, activity_name)`:
      the activities are listed first, then the user is loaded; either
      step may raise. */
  datatype SetupError = ListingFailed(listingError: LoadError) | UserFailed(userError: UserError)

  method NewWorkflow(fs: FileSystem, paths: seq<string>, username: Option<string>, password: Option<string>,
                     activityType: Option<string>, activityName: Option<string>, configs: Configs)
    returns (r: Result<Workflow, SetupError>)
    ensures Listing(fs, paths, activityName, activityType).Err? ==>
      r == Err(ListingFailed(Listing(fs, paths, activityName, activityType).error))
    ensures Listing(fs, paths, activityName, activityType).Ok? && Choose(username, password, configs).Err? ==>
      r == Err(UserFailed(NoCredentials(Choose(username, password, configs).error)))
    ensures r.Ok? ==> fresh(r.value) && r.value.user != null && fresh(r.value.user)
    ensures r.Ok? ==> r.value.user.session.None? && r.value.lastRequest.None? && Distinct(r.value.activities)
    ensures r.Ok? <==> Listing(fs, paths, activityName, activityType).Ok? && Choose(username, password, configs).Ok?
    ensures r.Ok? ==> Describe(r.value.activities, Listing(fs, paths, activityName, activityType).value)
    ensures r.Ok? ==> Credentials(r.value.user.username, r.value.user.password) == Choose(username, password, configs).value
    ensures r.Ok? ==> r.value.activityName == KeptName(|WorkflowPaths(fs, paths).0|, activityName)
    ensures r.Ok? ==> r.value.activityType == activityType
  {
    var w := new Workflow(activityType, activityName);
    var listed := w.LoadActivities(fs, paths);
    if listed.Err? {
      return Err(ListingFailed(listed.error));
    }
    w.activities := listed.value;
    var user := NewUser(username, password, configs);
    if user.Err? {
      return Err(UserFailed(user.error));
    }
    w.user := user.value;
    return Ok(w);
  }
}
