/** How the command-line front ends sort the paths they are given into
    activity files, list files and directories (the `is_activity` and
    `is_csv` helpers of garmin_uploader/workflow.py, garmin_uploader/cli.py
    and lib/cli.py, and `checkFile` of gupload.py).

    The file system is a record of what the code asks of it: which paths
    are files, which are directories, what each `glob.glob` pattern
    returns, and the rows `csv.DictReader` reads from each list file.
    Paths are taken as already resolved by `os.path.realpath`. */
module Files {
  import opened Base
  import opened Paths

  /** A `csv.DictReader` row: header name to cell. */
  type Row = map<string, string>

  datatype FileSystem = FileSystem(
    files: set<string>,                // os.path.isfile
    dirs: set<string>,                 // os.path.isdir
    globs: map<string, seq<string>>,   // glob.glob(pattern), in its order
    rows: map<string, seq<Row>>)       // csv.DictReader(open(path))

  function Glob(fs: FileSystem, pattern: string): seq<string> {
    if pattern in fs.globs then fs.globs[pattern] else []
  }

  function CsvRows(fs: FileSystem, path: string): seq<Row> {
    if path in fs.rows then fs.rows[path] else []
  }

  /** `os.path.join(dir, name)` for a relative `name`. */
  function Join(dir: string, name: string): (r: string)
    ensures |dir| + |name| <= |r| <= |dir| + |name| + 1
    ensures r[..|dir|] == dir && r[|r| - |name|..] == name
  {
    if dir == [] || dir[|dir| - 1] == '/' then dir + name else dir + "/" + name
  }

  /** `is_activity` / `checkFile`: the path is an existing file whose
      lower-cased extension is `.tcx`, `.fit` or `.gpx`. */
  predicate IsActivity(fs: FileSystem, p: string) {
    p in fs.files && IsValidExtension(LowerExtension(p))
  }

  /** `is_csv`: the lower-cased extension is `.csv` and the file exists. */
  predicate IsCsv(fs: FileSystem, p: string) {
    LowerExtension(p) == ".csv" && p in fs.files
  }

  /** No path is both: the two tests never compete for a file. */
  lemma ListFileIsNeverActivity(fs: FileSystem, p: string)
    ensures IsCsv(fs, p) ==> !IsActivity(fs, p)
  {
    if IsCsv(fs, p) {
      var e := LowerExtension(p);
      assert e[1] == 'c' && e[2] == 's';
      assert ".tcx"[2] == 'c' && ".fit"[1] == 'f' && ".gpx"[1] == 'g';
    }
  }

  /** `[f for f in ps if is_activity(f)]`. */
  function Activities(fs: FileSystem, ps: seq<string>): seq<string>
    decreases |ps|
  {
    if ps == [] then []
    else if IsActivity(fs, ps[0]) then [ps[0]] + Activities(fs, ps[1..])
    else Activities(fs, ps[1..])
  }

  /** The filter keeps exactly the activity files, in their order. */
  lemma {:induction false} ActivitiesFilter(fs: FileSystem, ps: seq<string>)
    ensures IsSubsequence(Activities(fs, ps), ps)
    ensures forall f :: f in Activities(fs, ps) <==> f in ps && IsActivity(fs, f)
    decreases |ps|
  {
    if ps != [] {
      var rest := Activities(fs, ps[1..]);
      ActivitiesFilter(fs, ps[1..]);
      assert forall f :: f in ps <==> f == ps[0] || f in ps[1..];
      if IsActivity(fs, ps[0]) {
        assert ([ps[0]] + rest)[1..] == rest;
      } else {
        assert rest != [] ==> rest[0] in rest && rest[0] != ps[0];
      }
    }
  }

  /** Filtering a longer list filters the new last element on its own. */
  lemma {:induction false} ActivitiesAppend(fs: FileSystem, ps: seq<string>, p: string)
    ensures Activities(fs, ps + [p]) == Activities(fs, ps) + (if IsActivity(fs, p) then [p] else [])
    decreases |ps|
  {
    if ps == [] {
      assert [p][1..] == [];
    } else {
      assert (ps + [p])[1..] == ps[1..] + [p];
      ActivitiesAppend(fs, ps[1..], p);
    }
  }

  /** The activity files of a directory, not descending into
      sub-directories and not picking up list files. */
  function DirectoryEntries(fs: FileSystem, dir: string): seq<string> {
    Activities(fs, Glob(fs, Join(dir, "*")))
  }

  /** The rule for the command-line activity name: with other than
      exactly one file listed, a name that is set is dropped. */
  function KeptName(count: nat, name: Option<string>): (r: Option<string>)
    ensures count == 1 ==> r == name
    ensures count != 1 ==> !Truthy(r)
    ensures !Truthy(name) ==> r == name
  {
    if count != 1 && Truthy(name) then None else name
  }

  /** The branch a path takes in the listing loops: the tests run in this
      order, and a path that passes none is skipped. */
  datatype PathKind = ActivityFile | ListFile | Directory | Skipped

  function KindOf(fs: FileSystem, p: string): PathKind {
    if IsActivity(fs, p) then ActivityFile
    else if IsCsv(fs, p) then ListFile
    else if p in fs.dirs then Directory
    else Skipped
  }

  /** garmin_uploader/workflow.py: the activity paths (`valid_paths`) and
      the list files (`csv_files`) found among `paths`. */
  function WorkflowPaths(fs: FileSystem, paths: seq<string>): (seq<string>, seq<string>)
    decreases |paths|
  {
    if paths == [] then ([], [])
    else
      var (valid, lists) := WorkflowPaths(fs, paths[..|paths| - 1]);
      var p := paths[|paths| - 1];
      match KindOf(fs, p)
      case ActivityFile => (valid + [p], lists)
      case ListFile => (valid, lists + [p])
      case Directory => (valid + DirectoryEntries(fs, p), lists)
      case Skipped => (valid, lists)
  }

  /** garmin_uploader/cli.py and lib/cli.py: `filenames`, where a list
      file is appended as if it were an activity file. */
  function CliFilenames(fs: FileSystem, paths: seq<string>): seq<string>
    decreases |paths|
  {
    if paths == [] then []
    else
      var before := CliFilenames(fs, paths[..|paths| - 1]);
      var p := paths[|paths| - 1];
      match KindOf(fs, p)
      case ActivityFile => before + [p]
      case ListFile => before + [p]
      case Directory => before + DirectoryEntries(fs, p)
      case Skipped => before
  }

  /** The package's listing holds only activity files, and its list
      files are exactly the given paths that pass `is_csv`. */
  lemma {:induction false} WorkflowPathsSound(fs: FileSystem, paths: seq<string>)
    ensures forall f :: f in WorkflowPaths(fs, paths).0 ==> IsActivity(fs, f)
    ensures forall f :: f in WorkflowPaths(fs, paths).1 <==> f in paths && IsCsv(fs, f)
    decreases |paths|
  {
    if paths != [] {
      var init, p := paths[..|paths| - 1], paths[|paths| - 1];
      WorkflowPathsSound(fs, init);
      ListFileIsNeverActivity(fs, p);
      if KindOf(fs, p) == Directory {
        ActivitiesFilter(fs, Glob(fs, Join(p, "*")));
      }
      SplitLast(paths);
    }
  }

  /** The older front ends' listing holds activity files and the list
      files given on the command line, and drops none of the given paths
      that pass either test. */
  lemma {:induction false} CliFilenamesSound(fs: FileSystem, paths: seq<string>)
    ensures forall f :: f in CliFilenames(fs, paths) ==> IsActivity(fs, f) || (IsCsv(fs, f) && f in paths)
    ensures forall f :: f in paths && (IsActivity(fs, f) || IsCsv(fs, f)) ==> f in CliFilenames(fs, paths)
    decreases |paths|
  {
    if paths != [] {
      var init, p := paths[..|paths| - 1], paths[|paths| - 1];
      CliFilenamesSound(fs, init);
      if KindOf(fs, p) == Directory {
        ActivitiesFilter(fs, Glob(fs, Join(p, "*")));
      }
      SplitLast(paths);
    }
  }

  /** Paths that are all activity files are kept as given, in order, by
      both listings. */
  lemma {:induction false} FilesKeptInOrder(fs: FileSystem, paths: seq<string>)
    requires forall i :: 0 <= i < |paths| ==> IsActivity(fs, paths[i])
    ensures WorkflowPaths(fs, paths) == (paths, [])
    decreases |paths|
  {
    if paths != [] {
      var init, p := paths[..|paths| - 1], paths[|paths| - 1];
      assert forall i :: 0 <= i < |init| ==> IsActivity(fs, init[i]) by {
        assert forall i :: 0 <= i < |init| ==> init[i] == paths[i];
      }
      FilesKeptInOrder(fs, init);
      SplitLast(paths);
      WorkflowAppendsActivity(fs, init, p);
    }
  }

  /** A non-empty list is its front followed by its last element. */
  lemma SplitLast<T>(s: seq<T>)
    requires s != []
    ensures s[..|s| - 1] + [s[|s| - 1]] == s
  {
  }

  lemma WorkflowAppendsActivity(fs: FileSystem, init: seq<string>, p: string)
    requires IsActivity(fs, p)
    ensures WorkflowPaths(fs, init + [p]) == (WorkflowPaths(fs, init).0 + [p], WorkflowPaths(fs, init).1)
  {
    assert (init + [p])[..|init|] == init;
  }

  lemma {:induction false} CliFilesKeptInOrder(fs: FileSystem, paths: seq<string>)
    requires forall i :: 0 <= i < |paths| ==> IsActivity(fs, paths[i])
    ensures CliFilenames(fs, paths) == paths
    decreases |paths|
  {
    if paths != [] {
      var init, p := paths[..|paths| - 1], paths[|paths| - 1];
      CliFilesKeptInOrder(fs, init);
      CliAppendsActivity(fs, init, p);
      SplitLast(paths);
    }
  }

  lemma CliAppendsActivity(fs: FileSystem, init: seq<string>, p: string)
    requires IsActivity(fs, p)
    ensures CliFilenames(fs, init + [p]) == CliFilenames(fs, init) + [p]
  {
    assert (init + [p])[..|init|] == init;
  }

  /** The two revisions part on a list file: the package keeps it apart
      to read its rows, the older front ends treat it as one more file to
      upload. */
  lemma ListFileRoutes(fs: FileSystem, p: string)
    requires IsCsv(fs, p)
    ensures WorkflowPaths(fs, [p]) == ([], [p])
    ensures CliFilenames(fs, [p]) == [p]
  {
    ListFileIsNeverActivity(fs, p);
    assert KindOf(fs, p) == ListFile;
    assert [p][..0] == [];
    assert WorkflowPaths(fs, []) == ([], []);
    assert CliFilenames(fs, []) == [];
    assert WorkflowPaths(fs, [p]) == ([] , [] + [p]);
    assert CliFilenames(fs, [p]) == [] + [p];
    assert [] + [p] == [p];
  }

  /** The listing loop that garmin_uploader/cli.py and lib/cli.py share:
      each path in turn is appended, or its directory's activity files are. */
  method ListFilenames(fs: FileSystem, paths: seq<string>) returns (filenames: seq<string>)
    ensures filenames == CliFilenames(fs, paths)
  {
    filenames := [];
    var i := 0;
    while i < |paths|
      invariant 0 <= i <= |paths|
      invariant filenames == CliFilenames(fs, paths[..i])
    {
      var path := paths[i];
      assert paths[..i + 1][..i] == paths[..i];
      if IsActivity(fs, path) {
        filenames := filenames + [path];
      } else if IsCsv(fs, path) {
        filenames := filenames + [path];
      } else if path in fs.dirs {
        filenames := filenames + Activities(fs, Glob(fs, Join(path, "*")));
      }
      i := i + 1;
    }
    assert paths[..i] == paths;
  }
}
