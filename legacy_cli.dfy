/** The older command-line front end (lib/cli.py): the `gupload` object
    lists the workouts, then settles the credentials, then logs in and
    uploads. The listing and the status loop are those of the package's
    front end. */
module LegacyCli {
  import opened Base
  import opened Files
  import opened Credentials
  import opened Batch
  import opened Cli

  class Gupload {
    var activityType: Option<string>
    var activityName: Option<string>
    var workouts: seq<Workout>
    var username: string
    var password: string

    constructor (activityType: Option<string>, activityName: Option<string>)
      ensures this.activityType == activityType && this.activityName == activityName
      ensures workouts == [] && username == [] && password == []
    {
      this.activityType, this.activityName := activityType, activityName;
      workouts, username, password := [], [], [];
    }

    method LoadActivities(fs: FileSystem, paths: seq<string>) returns (r: Result<seq<Workout>, CliError>)
      modifies this
      ensures activityName == KeptName(|CliFilenames(fs, paths)|, old(activityName))
      ensures r == CliListing(fs, paths, old(activityName), activityType)
      ensures activityType == old(activityType) && workouts == old(workouts)
      ensures username == old(username) && password == old(password)
    {
      activityName, r := LoadWorkouts(fs, paths, activityName, activityType);
    }

    /** The credential part of `__init__`: a complete command-line pair,
        else the working-directory file, else the home-directory file;
        neither file raises. */
    method LoadCredentials(cliUsername: Option<string>, cliPassword: Option<string>, configs: Configs)
      returns (r: Result<(), CliError>)
      modifies this
      ensures var chosen := Choose(cliUsername, cliPassword, configs);
        && (r.Ok? <==> chosen.Ok?)
        && (r.Err? ==> r.error == CredentialsMissing(chosen.error))
        && (r.Ok? ==> Credentials(username, password) == chosen.value)
        && (r.Err? ==> username == old(username) && password == old(password))
      ensures activityType == old(activityType) && activityName == old(activityName) && workouts == old(workouts)
    {
      if Truthy(cliUsername) && Truthy(cliPassword) {
        username, password := cliUsername.value, cliPassword.value;
        return Ok(());
      }
      var fromFile := FromConfigs(configs);
      if fromFile.Err? {
        return Err(CredentialsMissing(fromFile.error));
      }
      username, password := fromFile.value.username, fromFile.value.password;
      return Ok(());
    }

    /** `gupload`: log the masked password, log in with the stored
        credentials, then upload and report on every workout until an
        upload raises. */
    method Upload(login: (string, string) -> bool, uploads: seq<Upload>)
      returns (r: Result<(), CliError>, logged: string, lines: seq<StatusLine>, calls: seq<Call>)
      requires |uploads| == |workouts|
      ensures logged == Masked(password)
      ensures !login(username, password) ==> r == Err(LoginRejected) && lines == [] && calls == []
      ensures login(username, password) ==>
        Reported(workouts, uploads, lines, calls) &&
        (r.Ok? <==> |lines| == |workouts|) && (r.Err? ==> r.error == UploadAborted)
    {
      r, logged, lines, calls := LoginAndReport(login, username, password, workouts, uploads);
    }
  }

  /** `gupload(options)`: the workouts are listed before the credentials
      are looked at, so an empty listing raises whatever the credentials. */
  method NewGupload(fs: FileSystem, paths: seq<string>, activityType: Option<string>, activityName: Option<string>,
                    cliUsername: Option<string>, cliPassword: Option<string>, configs: Configs)
    returns (r: Result<Gupload, CliError>)
    ensures CliListing(fs, paths, activityName, activityType).Err? ==> r == Err(NoValidFiles)
    ensures CliListing(fs, paths, activityName, activityType).Ok? && Choose(cliUsername, cliPassword, configs).Err? ==>
      r == Err(CredentialsMissing(Choose(cliUsername, cliPassword, configs).error))
    ensures r.Ok? ==> fresh(r.value)
    ensures r.Ok? <==> CliListing(fs, paths, activityName, activityType).Ok? && Choose(cliUsername, cliPassword, configs).Ok?
    ensures r.Ok? ==> r.value.activityName == KeptName(|CliFilenames(fs, paths)|, activityName)
    ensures r.Ok? ==> r.value.activityType == activityType
    ensures r.Ok? ==> r.value.workouts == CliListing(fs, paths, activityName, activityType).value
    ensures r.Ok? ==> Credentials(r.value.username, r.value.password) == Choose(cliUsername, cliPassword, configs).value
  {
    var g := new Gupload(activityType, activityName);
    var listed := g.LoadActivities(fs, paths);
    if listed.Err? {
      return Err(listed.error);
    }
    g.workouts := listed.value;
    var credentials := g.LoadCredentials(cliUsername, cliPassword, configs);
    if credentials.Err? {
      return Err(credentials.error);
    }
    return Ok(g);
  }
}
