/** The listings the package's own tests look for (tests/test_workflow.py
    and the `activities_dir` fixture of tests/conftest.py), worked out on
    the model. */
module PackageTests {
  import opened Base
  import opened Paths
  import opened Files
  import opened Package

  /** The activities directory the tests build: a list file, a FIT and a
      TCX file, and a text file. The list file has the header
      `filename,name,type` and two rows, the second naming a file that
      does not exist. */
  const TestDir: FileSystem := FileSystem(
    {"/w/list.csv", "/w/a.fit", "/w/a.tcx", "/w/invalid.txt"},
    {"/w"},
    map["/w/*" := ["/w/a.fit", "/w/a.tcx", "/w/invalid.txt", "/w/list.csv"]],
    map["/w/list.csv" := [
      map["filename" := "/w/a.fit", "name" := "AAAA", "type" := "running"],
      map["filename" := "nope.fit", "name" := "nope", "type" := "nope"]]])

  /** A lower-case suffix after an ordinary file name is the lower-cased
      extension. */
  lemma LowerExtensionOf(stem: string, suffix: string)
    requires |stem| > 0 && stem[|stem| - 1] != '/' && stem[|stem| - 1] != '.'
    requires forall i :: 0 <= i < |suffix| ==> suffix[i] != '.' && suffix[i] != '/' && !('A' <= suffix[i] <= 'Z')
    ensures LowerExtension(stem + "." + suffix) == "." + suffix
  {
    ExtensionOfAppended(stem, suffix);
    assert stem + "." + suffix == stem + ("." + suffix);
    var e := "." + suffix;
    assert forall i :: 0 <= i < |e| ==> !('A' <= e[i] <= 'Z') by {
      assert forall i :: 1 <= i < |e| ==> e[i] == suffix[i - 1];
    }
    assert Lower(e) == e;
  }

  /** An existing file `stem.suffix` whose extension is whitelisted is
      an activity file. */
  lemma NamedActivity(fs: FileSystem, stem: string, suffix: string, p: string)
    requires |stem| > 0 && stem[|stem| - 1] != '/' && stem[|stem| - 1] != '.'
    requires forall i :: 0 <= i < |suffix| ==> suffix[i] != '.' && suffix[i] != '/' && !('A' <= suffix[i] <= 'Z')
    requires p == stem + "." + suffix && p in fs.files
    requires "." + suffix in ValidExtensions
    ensures KindOf(fs, p) == ActivityFile
  {
    LowerExtensionOf(stem, suffix);
  }

  lemma FitFile()
    ensures KindOf(TestDir, "/w/a.fit") == ActivityFile
  {
    assert "/w/a.fit" in TestDir.files;
    assert "/w/a" + "." + "fit" == "/w/a.fit";
    assert "." + "fit" == ValidExtensions[1];
    NamedActivity(TestDir, "/w/a", "fit", "/w/a.fit");
  }

  lemma TcxFile()
    ensures KindOf(TestDir, "/w/a.tcx") == ActivityFile
  {
    assert "/w/a.tcx" in TestDir.files;
    assert "/w/a" + "." + "tcx" == "/w/a.tcx";
    assert "." + "tcx" == ValidExtensions[0];
    NamedActivity(TestDir, "/w/a", "tcx", "/w/a.tcx");
  }

  lemma CsvFile()
    ensures KindOf(TestDir, "/w/list.csv") == ListFile
  {
    LowerExtensionOf("/w/list", "csv");
    assert "/w/list" + "." + "csv" == "/w/list.csv" && "." + "csv" == ".csv";
    ListFileIsNeverActivity(TestDir, "/w/list.csv");
  }

  lemma TextFile()
    ensures !IsActivity(TestDir, "/w/invalid.txt")
  {
    LowerExtensionOf("/w/invalid", "txt");
    assert "/w/invalid" + "." + "txt" == "/w/invalid.txt" && "." + "txt" == ".txt";
  }

  lemma DirectoryPath()
    ensures KindOf(TestDir, "/w") == Directory
  {
    assert "/w" !in TestDir.files;
  }

  /** The list file as written raises KeyError on its first row: the file
      has no `notes` column. */
  lemma TestListFileAsWritten()
    ensures RowEntryAsWritten(TestDir, TestDir.rows["/w/list.csv"][0]) == Err(KeyError("notes"))
  {
    FitFile();
    ThreeColumnRow(TestDir, "/w/a.fit", "AAAA", "running");
  }

  /** One path on its own is listed by its kind. */
  lemma OnePath(fs: FileSystem, p: string)
    ensures KindOf(fs, p) == ActivityFile ==> WorkflowPaths(fs, [p]) == ([p], [])
    ensures KindOf(fs, p) == ListFile ==> WorkflowPaths(fs, [p]) == ([], [p])
    ensures KindOf(fs, p) == Directory ==> WorkflowPaths(fs, [p]) == (DirectoryEntries(fs, p), [])
  {
    assert [p][..0] == [];
    assert WorkflowPaths(fs, []) == ([], []);
    var e: seq<string> := [];
    assert e + [p] == [p] && e + DirectoryEntries(fs, p) == DirectoryEntries(fs, p);
  }

  /** The rows of one list file, the first kept and the second skipped. */
  lemma TwoRows(fs: FileSystem, rows: seq<Row>, e: Entry)
    requires |rows| == 2 && RowEntry(fs, rows[0]) == Ok(Some(e)) && RowEntry(fs, rows[1]) == Ok(None)
    ensures RowsEntries(fs, rows) == Ok([e])
  {
    var none: seq<Entry> := [];
    var rs := RowResults(fs, rows);
    assert rs[..1][..0] == [];
    assert Gather(rs[..1][..0]) == Ok([]);
    assert none + [e] == [e] && [e] + none == [e];
    assert Gather(rs[..1]) == Ok([e]);
    assert rs[..|rs| - 1] == rs[..1];
  }

  /** One list file on its own. */
  lemma OneListFile(fs: FileSystem, p: string)
    ensures CsvEntries(fs, [p]) == RowsEntries(fs, CsvRows(fs, p))
  {
    var none: seq<Entry> := [];
    assert [p][..0] == [];
    assert CsvEntries(fs, []) == Ok([]);
    var rows := RowsEntries(fs, CsvRows(fs, p));
    assert rows.Ok? ==> none + rows.value == rows.value;
  }

  /** Four globbed names of which only the first two are activity files. */
  lemma FirstTwoOfFour(fs: FileSystem, g: seq<string>)
    requires |g| == 4 && IsActivity(fs, g[0]) && IsActivity(fs, g[1])
    requires !IsActivity(fs, g[2]) && !IsActivity(fs, g[3])
    ensures Activities(fs, g) == g[..2]
  {
    assert g[3..][1..] == [];
    assert Activities(fs, g[3..]) == [];
    assert g[2..][1..] == g[3..];
    assert Activities(fs, g[2..]) == [];
    assert g[1..][1..] == g[2..];
    assert Activities(fs, g[1..]) == [g[1]];
    assert g[..2] == [g[0]] + [g[1]];
  }

  /** A row of a three-column list file naming an activity file. */
  lemma ThreeColumnRow(fs: FileSystem, f: string, n: string, t: string)
    requires IsActivity(fs, f)
    ensures RowEntry(fs, map["filename" := f, "name" := n, "type" := t]) == Ok(Some(Entry(f, Some(n), Some(t), None)))
    ensures RowEntryAsWritten(fs, map["filename" := f, "name" := n, "type" := t]) == Err(KeyError("notes"))
  {
    var row := map["filename" := f, "name" := n, "type" := t];
    assert "notes" !in row by {
      assert row.Keys == {"filename", "name", "type"};
      assert |"notes"| == 5 && |"filename"| == 8 && |"type"| == 4;
      assert "notes"[1] != "name"[1];
    }
  }

  /** The listing put together from its two parts. */
  lemma ListingOf(fs: FileSystem, paths: seq<string>, name: Option<string>, kind: Option<string>,
                  valid: seq<string>, csvs: seq<string>, listed: seq<Entry>)
    requires WorkflowPaths(fs, paths) == (valid, csvs) && CsvEntries(fs, csvs) == Ok(listed)
    requires |valid| + |listed| > 0
    ensures Listing(fs, paths, name, kind) == Ok(DirectEntries(valid, KeptName(|valid|, name), kind) + listed)
  {
  }

  /** The first row of the list file names the FIT file. */
  lemma FirstRow()
    ensures RowEntry(TestDir, CsvRows(TestDir, "/w/list.csv")[0]) ==
      Ok(Some(Entry("/w/a.fit", Some("AAAA"), Some("running"), None)))
  {
    FitFile();
    ThreeColumnRow(TestDir, "/w/a.fit", "AAAA", "running");
  }

  /** The second row names a file that does not exist. */
  lemma SecondRow()
    ensures RowEntry(TestDir, CsvRows(TestDir, "/w/list.csv")[1]) == Ok(None)
  {
    assert "nope.fit" !in TestDir.files;
  }

  lemma ListFileEntries()
    ensures CsvEntries(TestDir, ["/w/list.csv"]) == Ok([Entry("/w/a.fit", Some("AAAA"), Some("running"), None)])
  {
    FirstRow();
    SecondRow();
    TwoRows(TestDir, CsvRows(TestDir, "/w/list.csv"), Entry("/w/a.fit", Some("AAAA"), Some("running"), None));
    OneListFile(TestDir, "/w/list.csv");
  }

  lemma ListFilePaths()
    ensures WorkflowPaths(TestDir, ["/w/list.csv"]) == ([], ["/w/list.csv"])
  {
    CsvFile();
    OnePath(TestDir, "/w/list.csv");
  }

  /** With the notes column optional, the list file yields the one existing
      activity, with its name and type, and skips the missing file. */
  lemma TestListFile()
    ensures Listing(TestDir, ["/w/list.csv"], None, None) == Ok([Entry("/w/a.fit", Some("AAAA"), Some("running"), None)])
  {
    var a := Entry("/w/a.fit", Some("AAAA"), Some("running"), None);
    ListFileEntries();
    ListFilePaths();
    ListingOf(TestDir, ["/w/list.csv"], None, None, [], ["/w/list.csv"], [a]);
    var d := DirectEntries([], KeptName(0, None), None);
    assert d == [];
    assert d + [a] == [a];
  }

  /** The directory's own entries: the activity files, in glob order. */
  lemma TestDirectoryEntries()
    ensures DirectoryEntries(TestDir, "/w") == ["/w/a.fit", "/w/a.tcx"]
  {
    GlobOfDirectory();
    FitFile();
    TcxFile();
    TextFile();
    CsvFile();
    EntriesOfFour(TestDir, "/w/a.fit", "/w/a.tcx", "/w/invalid.txt", "/w/list.csv");
  }

  lemma GlobOfDirectory()
    ensures Glob(TestDir, "/w/*") == ["/w/a.fit", "/w/a.tcx", "/w/invalid.txt", "/w/list.csv"]
  {
  }

  /** A directory whose glob lists two activity files, then a file that is
      not one, then a list file. */
  lemma EntriesOfFour(fs: FileSystem, a: string, b: string, c: string, d: string)
    requires Glob(fs, "/w/*") == [a, b, c, d]
    requires KindOf(fs, a) == ActivityFile && KindOf(fs, b) == ActivityFile
    requires !IsActivity(fs, c) && KindOf(fs, d) == ListFile
    ensures DirectoryEntries(fs, "/w") == [a, b]
  {
    assert Join("/w", "*") == "/w/*";
    var g := [a, b, c, d];
    assert g[0] == a && g[1] == b && g[2] == c && g[3] == d;
    FirstTwoOfFour(fs, g);
  }

  /** The directory yields its two activity files, in glob order, and
      neither the text file nor the list file. */
  lemma TestDirectory()
    ensures Listing(TestDir, ["/w"], None, None) ==
      Ok([Entry("/w/a.fit", None, None, None), Entry("/w/a.tcx", None, None, None)])
  {
    var valid := ["/w/a.fit", "/w/a.tcx"];
    TestDirectoryEntries();
    DirectoryPath();
    OnePath(TestDir, "/w");
    assert CsvEntries(TestDir, []) == Ok([]);
    ListingOf(TestDir, ["/w"], None, None, valid, [], []);
    var d := DirectEntries(valid, KeptName(2, None), None);
    assert d == [Entry("/w/a.fit", None, None, None), Entry("/w/a.tcx", None, None, None)];
    assert d + [] == d;
  }

  /** A single file keeps the command-line name and type. */
  lemma TestSingleFile()
    ensures Listing(TestDir, ["/w/a.tcx"], Some("Test TCX"), Some("cycling")) ==
      Ok([Entry("/w/a.tcx", Some("Test TCX"), Some("cycling"), None)])
  {
    TcxFile();
    OnePath(TestDir, "/w/a.tcx");
    assert CsvEntries(TestDir, []) == Ok([]);
    ListingOf(TestDir, ["/w/a.tcx"], Some("Test TCX"), Some("cycling"), ["/w/a.tcx"], [], []);
    var d := DirectEntries(["/w/a.tcx"], KeptName(1, Some("Test TCX")), Some("cycling"));
    assert d == [Entry("/w/a.tcx", Some("Test TCX"), Some("cycling"), None)];
    assert d + [] == d;
  }

  /** Two activity files are listed as given. */
  lemma TwoActivities(fs: FileSystem, a: string, b: string)
    requires KindOf(fs, a) == ActivityFile && KindOf(fs, b) == ActivityFile
    ensures WorkflowPaths(fs, [a, b]) == ([a, b], [])
  {
    OnePath(fs, a);
    WorkflowAppendsActivity(fs, [a], b);
    assert [a] + [b] == [a, b];
  }

  /** Paths that are all listed directly, with no list file among them. */
  lemma DirectOnly(fs: FileSystem, paths: seq<string>, name: Option<string>, kind: Option<string>)
    requires paths != [] && WorkflowPaths(fs, paths) == (paths, [])
    ensures Listing(fs, paths, name, kind) == Ok(DirectEntries(paths, KeptName(|paths|, name), kind))
  {
    assert CsvEntries(fs, []) == Ok([]);
    var d := DirectEntries(paths, KeptName(|paths|, name), kind);
    assert d + [] == d;
  }

  /** Two files drop the name and keep the type. */
  lemma TestTwoFiles()
    ensures Listing(TestDir, ["/w/a.tcx", "/w/a.fit"], Some("Test 2 files"), Some("cycling")) ==
      Ok([Entry("/w/a.tcx", None, Some("cycling"), None), Entry("/w/a.fit", None, Some("cycling"), None)])
  {
    TcxFile();
    FitFile();
    TwoActivities(TestDir, "/w/a.tcx", "/w/a.fit");
    DirectOnly(TestDir, ["/w/a.tcx", "/w/a.fit"], Some("Test 2 files"), Some("cycling"));
    var d := DirectEntries(["/w/a.tcx", "/w/a.fit"], KeptName(2, Some("Test 2 files")), Some("cycling"));
    assert d == [Entry("/w/a.tcx", None, Some("cycling"), None), Entry("/w/a.fit", None, Some("cycling"), None)];
  }
}
