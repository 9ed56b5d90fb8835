/** The Garmin Connect user of the package (garmin_uploader/user.py): the
    credentials chosen at construction, and the API session stored by
    `authenticate`. The API object's own calls (`GarminAPI.authenticate`,
    `upload_file`, `set_activity_name`, `set_activity_type`) are not
    modelled: garmin_uploader/api.py in this revision defines only
    `UploadGarmin`, not `GarminAPI`; their answers are parameters. */
module Users {
  import opened Base
  import opened Credentials
  import opened Batch

  /** An authenticated API session, as returned by `GarminAPI.authenticate`. */
  datatype ApiSession = ApiSession(token: nat)

  datatype UserError =
    | NoCredentials(cause: CredentialError)   // raised by `__init__`
    | LoginFailed                             // IOError('LOGIN FAILED - …')

  class User {
    var username: string
    var password: string
    var session: Option<ApiSession>

    constructor (credentials: Credentials)
      ensures username == credentials.username && password == credentials.password
      ensures session.None?
    {
      username := credentials.username;
      password := credentials.password;
      session := None;
    }

    /** The password as it appears in the debug log. */
    function LoggedPassword(): string
      reads this
    {
      Masked(password)
    }

    /** `authenticate`: the answer of the API is stored whatever it is; a
        missing session raises. On success nothing is returned (the
        method has no return statement). */
    method Authenticate(answer: Option<ApiSession>) returns (r: Result<(), UserError>)
      modifies this
      ensures session == answer
      ensures r.Err? <==> answer.None?
      ensures r.Err? ==> r.error == LoginFailed
      ensures username == old(username) && password == old(password)
    {
      session := answer;
      if session.None? {
        return Err(LoginFailed);
      }
      return Ok(());
    }

    /** `upload`: upload one activity and report on it; the name and type
        updates are sent only after `SUCCESS`. */
    method Upload(activity: Workout, outcome: Outcome) returns (line: StatusLine, calls: seq<Call>)
      requires session.Some?
      ensures line == Line(activity, outcome)
      ensures calls == Updates(activity, outcome)
      ensures outcome.status != "SUCCESS" ==> calls == [] && line.name == "N/A" && line.kind == "N/A"
    {
      line, calls := ReportOne(activity, outcome);
      if outcome.status != "SUCCESS" {
        NoUpdateUnlessSuccess(activity, outcome);
      }
    }
  }

  /** `User(username, password)`: the credentials are chosen by
      precedence, and the new user has no session. */
  method NewUser(username: Option<string>, password: Option<string>, configs: Configs)
    returns (r: Result<User, UserError>)
    ensures Choose(username, password, configs).Err? <==> r.Err?
    ensures r.Err? ==> r.error == NoCredentials(Choose(username, password, configs).error)
    ensures r.Ok? ==> fresh(r.value) && r.value.session.None?
    ensures r.Ok? ==> Credentials(r.value.username, r.value.password) == Choose(username, password, configs).value
  {
    var chosen := Choose(username, password, configs);
    if chosen.Err? {
      return Err(NoCredentials(chosen.error));
    }
    var user := new User(chosen.value);
    return Ok(user);
  }
}
