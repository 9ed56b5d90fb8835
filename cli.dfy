/** The package's command-line front end (garmin_uploader/cli.py) and the
    listing it shares with the older one (lib/cli.py): every path is
    appended, a list file included, or its directory's activity files are;
    the command-line name survives only for a single file; the type goes
    to every workout.

    Both listings declare a `listfiles` list that nothing fills, so the
    loop over list-file rows never runs; it is left out of the model. The
    `uploader` module the front ends import is not modelled: no such
    module is defined beside them, and garmin_uploader/api.py in this
    revision defines only `UploadGarmin`. Whether it logs in, and what it
    answers for each workout, are parameters. */
module Cli {
  import opened Base
  import opened Paths
  import opened Files
  import opened Credentials
  import opened Users
  import opened Batch

  datatype CliError =
    | NoValidFiles                        // IOError('No valid files.')
    | AttributeError(attribute: string)   // reading an attribute that was never set
    | LoginRejected                       // IOError('LOGIN FAILED - …')
    | UploadAborted                       // whatever `upload_file` raised
    | CredentialsMissing(cause: CredentialError)

  /** One workout per file name, all with the same name and type. */
  function Workouts(filenames: seq<string>, name: Option<string>, kind: Option<string>): seq<Workout> {
    seq(|filenames|, i requires 0 <= i < |filenames| => Workout(filenames[i], name, kind))
  }

  /** What `load_activities` returns: the workouts of the listed file names,
      or the error when there is none. */
  function CliListing(fs: FileSystem, paths: seq<string>, name: Option<string>, kind: Option<string>): Result<seq<Workout>, CliError> {
    var filenames := CliFilenames(fs, paths);
    if |filenames| == 0 then Err(NoValidFiles)
    else Ok(Workouts(filenames, KeptName(|filenames|, name), kind))
  }

  /** The listing raises only when no path is an activity file, a list
      file or a directory holding activity files; otherwise every workout
      carries the command-line type, the name only when it is the single
      workout, and a file that is an activity file or a list file given on
      the command line; and every such path given is among them. */
  lemma CliListingProperties(fs: FileSystem, paths: seq<string>, name: Option<string>, kind: Option<string>)
    ensures var r := CliListing(fs, paths, name, kind);
      r.Err? ==> r.error == NoValidFiles && forall p :: p in paths ==> !IsActivity(fs, p) && !IsCsv(fs, p)
    ensures var r := CliListing(fs, paths, name, kind);
      r.Ok? ==> forall w :: w in r.value ==>
        w.kind == kind && (IsActivity(fs, w.filename) || (IsCsv(fs, w.filename) && w.filename in paths))
    ensures var r := CliListing(fs, paths, name, kind);
      r.Ok? && |r.value| == 1 ==> r.value[0].name == name
    ensures var r := CliListing(fs, paths, name, kind);
      r.Ok? && |r.value| != 1 ==> forall w :: w in r.value ==> !Truthy(w.name)
    ensures var r := CliListing(fs, paths, name, kind);
      forall p :: p in paths && (IsActivity(fs, p) || IsCsv(fs, p)) ==>
        r.Ok? && exists i :: 0 <= i < |r.value| && r.value[i].filename == p
  {
    CliFilenamesSound(fs, paths);
    var filenames := CliFilenames(fs, paths);
    var r := CliListing(fs, paths, name, kind);
    if r.Ok? {
      var ws := r.value;
      forall w | w in ws
        ensures w.filename in filenames
      {
        var i :| 0 <= i < |ws| && ws[i] == w;
      }
      forall p | p in paths && (IsActivity(fs, p) || IsCsv(fs, p))
        ensures exists i :: 0 <= i < |ws| && ws[i].filename == p
      {
        var i :| 0 <= i < |filenames| && filenames[i] == p;
        assert ws[i].filename == p;
      }
    }
  }

  /** A list file given on the command line becomes a workout of its own,
      and its upload is then refused on its extension. */
  lemma ListFileUploadedAsWorkout(fs: FileSystem, p: string, name: Option<string>, kind: Option<string>)
    requires IsCsv(fs, p)
    ensures CliListing(fs, [p], name, kind) == Ok([Workout(p, name, kind)])
    ensures UploadGate(p) == Err(InvalidFileExtension)
  {
    ListFileRoutes(fs, p);
    assert Workouts([p], name, kind) == [Workout(p, name, kind)];
    ListFileIsNeverActivity(fs, p);
  }

  /** Activity files alone are uploaded in the order given, named only
      when there is one of them. */
  lemma ActivitiesInOrder(fs: FileSystem, paths: seq<string>, name: Option<string>, kind: Option<string>)
    requires paths != [] && forall i :: 0 <= i < |paths| ==> IsActivity(fs, paths[i])
    ensures CliListing(fs, paths, name, kind) == Ok(Workouts(paths, KeptName(|paths|, name), kind))
  {
    CliFilesKeptInOrder(fs, paths);
  }

  /** The loop that builds one workout per file name. */
  method BuildWorkouts(filenames: seq<string>, name: Option<string>, kind: Option<string>) returns (workouts: seq<Workout>)
    ensures workouts == Workouts(filenames, name, kind)
  {
    workouts := [];
    var i := 0;
    while i < |filenames|
      invariant 0 <= i <= |filenames|
      invariant workouts == Workouts(filenames[..i], name, kind)
    {
      workouts := workouts + [Workout(filenames[i], name, kind)];
      i := i + 1;
    }
    assert filenames[..i] == filenames;
  }

  /** `load_activities` of both front ends: list the paths, drop the name
      unless exactly one file was found, build the workouts, and raise
      when there is none. The new value of the name field is returned. */
  method LoadWorkouts(fs: FileSystem, paths: seq<string>, name: Option<string>, kind: Option<string>)
    returns (keptName: Option<string>, r: Result<seq<Workout>, CliError>)
    ensures keptName == KeptName(|CliFilenames(fs, paths)|, name)
    ensures r == CliListing(fs, paths, name, kind)
  {
    var filenames := ListFilenames(fs, paths);
    keptName := name;
    if |filenames| != 1 && Truthy(keptName) {
      keptName := None;
    }
    var workouts := BuildWorkouts(filenames, keptName, kind);
    if |workouts| == 0 {
      return keptName, Err(NoValidFiles);
    }
    return keptName, Ok(workouts);
  }

  /** The `Workflow` of garmin_uploader/cli.py. */
  class Workflow {
    var activityType: Option<string>
    var activityName: Option<string>
    var activities: seq<Workout>
    var user: User?

    constructor (activityType: Option<string>, activityName: Option<string>)
      ensures this.activityType == activityType && this.activityName == activityName
      ensures activities == [] && user == null
    {
      this.activityType, this.activityName := activityType, activityName;
      activities, user := [], null;
    }

    method LoadActivities(fs: FileSystem, paths: seq<string>) returns (r: Result<seq<Workout>, CliError>)
      modifies this
      ensures activityName == KeptName(|CliFilenames(fs, paths)|, old(activityName))
      ensures r == CliListing(fs, paths, old(activityName), activityType)
      ensures activityType == old(activityType) && activities == old(activities) && user == old(user)
    {
      activityName, r := LoadWorkouts(fs, paths, activityName, activityType);
    }

    /** `run` as written: its first statement reads `self.username`, which
        this class never sets (it keeps a `User` in `self.user`), so every
        run raises before logging in. */
    method RunAsWritten(login: (string, string) -> bool, uploads: seq<Upload>)
      returns (r: Result<(), CliError>, lines: seq<StatusLine>, calls: seq<Call>)
      ensures r == Err(AttributeError("username"))
      ensures lines == [] && calls == []
    {
      return Err(AttributeError("username")), [], [];
    }

    /** `run` reading the credentials from the user. */
    method Run(login: (string, string) -> bool, uploads: seq<Upload>)
      returns (r: Result<(), CliError>, logged: string, lines: seq<StatusLine>, calls: seq<Call>)
      requires user != null && |uploads| == |activities|
      ensures logged == Masked(user.password)
      ensures !login(user.username, user.password) ==> r == Err(LoginRejected) && lines == [] && calls == []
      ensures login(user.username, user.password) ==>
        Reported(activities, uploads, lines, calls) &&
        (r.Ok? <==> |lines| == |activities|) && (r.Err? ==> r.error == UploadAborted)
    {
      r, logged, lines, calls := LoginAndReport(login, user.username, user.password, activities, uploads);
    }
  }

  /** The authenticated part both front ends share: the password is logged
      masked; a failed login raises before any upload; otherwise one
      status line per workout, in order, with the updates the report calls
      for, until an upload raises and the exception leaves the method. */
  method LoginAndReport(login: (string, string) -> bool, username: string, password: string,
                        workouts: seq<Workout>, uploads: seq<Upload>)
    returns (r: Result<(), CliError>, logged: string, lines: seq<StatusLine>, calls: seq<Call>)
    requires |uploads| == |workouts|
    ensures logged == Masked(password)
    ensures !login(username, password) ==> r == Err(LoginRejected) && lines == [] && calls == []
    ensures login(username, password) ==>
      Reported(workouts, uploads, lines, calls) &&
      (r.Ok? <==> |lines| == |workouts|) && (r.Err? ==> r.error == UploadAborted)
  {
    logged := Repeat('*', |password|);
    if !login(username, password) {
      return Err(LoginRejected), logged, [], [];
    }
    var raised;
    lines, calls, raised := UploadAll(workouts, uploads);
    r := if raised then Err(UploadAborted) else Ok(());
  }

  /** `Workflow(paths, username, password, activity_type, activity_name)`:
      the workouts are listed first, then the user is loaded. */
  method NewWorkflow(fs: FileSystem, paths: seq<string>, username: Option<string>, password: Option<string>,
                     activityType: Option<string>, activityName: Option<string>, configs: Configs)
    returns (r: Result<Workflow, CliError>)
    ensures CliListing(fs, paths, activityName, activityType).Err? ==> r == Err(NoValidFiles)
    ensures CliListing(fs, paths, activityName, activityType).Ok? && Choose(username, password, configs).Err? ==>
      r == Err(CredentialsMissing(Choose(username, password, configs).error))
    ensures r.Ok? ==> fresh(r.value) && r.value.user != null && fresh(r.value.user)
    ensures r.Ok? <==> CliListing(fs, paths, activityName, activityType).Ok? && Choose(username, password, configs).Ok?
    ensures r.Ok? ==> r.value.activityName == KeptName(|CliFilenames(fs, paths)|, activityName)
    ensures r.Ok? ==> r.value.activityType == activityType
    ensures r.Ok? ==> r.value.activities == CliListing(fs, paths, activityName, activityType).value
    ensures r.Ok? ==> Credentials(r.value.user.username, r.value.user.password) == Choose(username, password, configs).value
  {
    var w := new Workflow(activityType, activityName);
    var listed := w.LoadActivities(fs, paths);
    if listed.Err? {
      return Err(listed.error);
    }
    w.activities := listed.value;
    var user := NewUser(username, password, configs);
    if user.Err? {
      return Err(CredentialsMissing(user.error.cause));
    }
    w.user := user.value;
    return Ok(w);
  }
}
