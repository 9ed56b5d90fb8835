/** The standalone upload script (gupload.py), a straight-line program:
    settle the credentials, log the obscured password, build the workout
    list from the file arguments, log in, upload every workout, and name
    and type the one workout of a single-file run.

    The client it drives (lib/UploadGarmin.py) is modelled on its own;
    here what `login` answers (True, or the exception of a failed
    handshake), what `upload_file` does for each workout, and what
    `name_workout` and `set_activity_type` answer (a verdict, or the
    exception they let through) are parameters. */
module Script {
  import opened Base
  import opened Files
  import opened Credentials
  import opened Batch
  import Garmin
  import Uploader

  /** How the script ends: `exit(code)`, or an exception it does not catch. */
  datatype ScriptEnd = Exited(code: int) | Raised(error: ScriptError)

  datatype ScriptError =
    | ConfigError   // ConfigParser.NoSectionError / NoOptionError from `config.get`
    | IndexError    // `obscurePassword('')` reads `password[0]`
    | LoginException(cause: Garmin.AuthError)   // raised inside `g.login`
    | UploadException                           // raised inside `g.upload_file`
    | UpdateException(problem: Uploader.UploadError)   // raised inside `g.name_workout` / `g.set_activity_type`

  /** `File: %s    ID: %s    Status: %s`. */
  datatype ScriptLine = ScriptLine(filename: string, id: string, status: string)

  /** The workouts one file argument contributes: the argument itself when
      it has no `*` and passes `checkFile`, otherwise the names its glob
      expands to that pass `checkFile`. */
  function ArgWorkouts(fs: FileSystem, arg: string): seq<string> {
    if '*' !in arg then (if IsActivity(fs, arg) then [arg] else [])
    else Activities(fs, Glob(fs, arg))
  }

  /** The workout list, argument after argument. */
  function ScriptWorkouts(fs: FileSystem, args: seq<string>): seq<string>
    decreases |args|
  {
    if args == [] then []
    else ScriptWorkouts(fs, args[..|args| - 1]) + ArgWorkouts(fs, args[|args| - 1])
  }

  /** Every workout passes `checkFile`; every argument without a wildcard
      that passes it is kept. */
  lemma {:induction false} ScriptWorkoutsSound(fs: FileSystem, args: seq<string>)
    ensures forall w :: w in ScriptWorkouts(fs, args) ==> IsActivity(fs, w)
    ensures forall a :: a in args && '*' !in a && IsActivity(fs, a) ==> a in ScriptWorkouts(fs, args)
    decreases |args|
  {
    if args != [] {
      var init, arg := args[..|args| - 1], args[|args| - 1];
      ScriptWorkoutsSound(fs, init);
      if '*' in arg {
        ActivitiesFilter(fs, Glob(fs, arg));
      }
      SplitLast(args);
    }
  }

  /** Without wildcards the list is the arguments that pass `checkFile`,
      in the order given. */
  lemma {:induction false} PlainArgumentsFiltered(fs: FileSystem, args: seq<string>)
    requires forall i :: 0 <= i < |args| ==> '*' !in args[i]
    ensures ScriptWorkouts(fs, args) == Activities(fs, args)
    decreases |args|
  {
    if args != [] {
      var init, arg := args[..|args| - 1], args[|args| - 1];
      PlainArgumentsFiltered(fs, init);
      ActivitiesAppend(fs, init, arg);
      SplitLast(args);
    }
  }

  /** The inner loop: append the candidates that pass `checkFile`. */
  method AppendChecked(fs: FileSystem, workouts: seq<string>, candidates: seq<string>) returns (r: seq<string>)
    ensures r == workouts + Activities(fs, candidates)
  {
    r := workouts;
    var i := 0;
    while i < |candidates|
      invariant 0 <= i <= |candidates|
      invariant r == workouts + Activities(fs, candidates[..i])
    {
      ActivitiesAppend(fs, candidates[..i], candidates[i]);
      assert candidates[..i + 1] == candidates[..i] + [candidates[i]];
      if IsActivity(fs, candidates[i]) {
        r := r + [candidates[i]];
      }
      i := i + 1;
    }
    assert candidates[..i] == candidates;
  }

  /** The loop over the file arguments. */
  method BuildWorkoutList(fs: FileSystem, args: seq<string>) returns (workouts: seq<string>)
    ensures workouts == ScriptWorkouts(fs, args)
  {
    workouts := [];
    var i := 0;
    while i < |args|
      invariant 0 <= i <= |args|
      invariant workouts == ScriptWorkouts(fs, args[..i])
    {
      var arg := args[i];
      assert args[..i + 1][..i] == args[..i];
      if '*' !in arg {
        if IsActivity(fs, arg) {
          workouts := workouts + [arg];
        }
      } else {
        workouts := AppendChecked(fs, workouts, Glob(fs, arg));
      }
      i := i + 1;
    }
    assert args[..i] == args;
  }

  /** The updates after a run: only a single-workout run whose upload
      returned `SUCCESS` is named and typed, each only when given. */
  function ScriptUpdates(workouts: seq<string>, name: Option<string>, kind: Option<string>, uploads: seq<Upload>): seq<Call>
    requires |uploads| == |workouts|
  {
    if |workouts| == 1 then UploadUpdates(Workout(workouts[0], name, kind), uploads[0]) else []
  }

  /** Only a single-workout run that reported `SUCCESS` sends any update,
      and then a rename exactly when `-a` gave a non-empty name. */
  lemma ScriptUpdatesOnlyForOne(workouts: seq<string>, name: Option<string>, kind: Option<string>, uploads: seq<Upload>)
    requires |uploads| == |workouts|
    ensures ScriptUpdates(workouts, name, kind, uploads) != [] ==>
      |workouts| == 1 && uploads[0].Returned? && uploads[0].outcome.status == "SUCCESS"
    ensures |workouts| == 1 && uploads[0].Returned? && uploads[0].outcome.status == "SUCCESS" && Truthy(name) ==>
      ScriptUpdates(workouts, name, kind, uploads)[0] == SetName(uploads[0].outcome.idMsg, name.value)
    ensures |workouts| == 1 && uploads[0].Returned? && uploads[0].outcome.status == "SUCCESS" && Truthy(kind) ==>
      SetType(uploads[0].outcome.idMsg, kind.value) in ScriptUpdates(workouts, name, kind, uploads)
  {
    if |workouts| == 1 && uploads[0].Returned? && uploads[0].outcome.status == "SUCCESS" {
      NameFieldMatchesCall(Workout(workouts[0], name, kind), uploads[0].outcome);
      TypeFieldMatchesCall(Workout(workouts[0], name, kind), uploads[0].outcome);
    }
  }

  /** What `name_workout` or `set_activity_type` answers once called: a
      verdict, which the script only logs, or an exception (a failed
      re-authentication, an answer without the echo), which it does not
      catch. */
  type Answer = Result<bool, Uploader.UploadError>

  function AnswerTo(c: Call, nameAnswer: Answer, typeAnswer: Answer): Answer {
    if c.SetName? then nameAnswer else typeAnswer
  }

  /** The updates the script actually sends, in order, and the exception
      that ends it: the first update that raises is the last one sent. */
  function Sent(planned: seq<Call>, nameAnswer: Answer, typeAnswer: Answer): (r: (seq<Call>, Option<Uploader.UploadError>))
    ensures |r.0| <= |planned| && r.0 == planned[..|r.0|]
    ensures r.1.None? <==> forall i :: 0 <= i < |planned| ==> AnswerTo(planned[i], nameAnswer, typeAnswer).Ok?
    ensures r.1.None? ==> r.0 == planned
    ensures r.1.Some? ==> |r.0| > 0 && AnswerTo(r.0[|r.0| - 1], nameAnswer, typeAnswer) == Err(r.1.value)
    ensures forall i :: 0 <= i < |r.0| - 1 ==> AnswerTo(r.0[i], nameAnswer, typeAnswer).Ok?
    decreases |planned|
  {
    if planned == [] then ([], None)
    else
      var answer := AnswerTo(planned[0], nameAnswer, typeAnswer);
      if answer.Err? then ([planned[0]], Some(answer.error))
      else
        var rest := Sent(planned[1..], nameAnswer, typeAnswer);
        assert forall i :: 1 <= i < |planned| ==> planned[i] == planned[1..][i - 1];
        ([planned[0]] + rest.0, rest.1)
  }

  /** A rename that raises stops the script before the retype. */
  lemma RaisingRenameSkipsRetype(id: string, name: string, kind: string, problem: Uploader.UploadError, typeAnswer: Answer)
    ensures Sent([SetName(id, name), SetType(id, kind)], Err(problem), typeAnswer) == ([SetName(id, name)], Some(problem))
  {
  }

  /** The script once logged in: one report line per workout, then the
      name and type of a single workout that uploaded with `SUCCESS`; an
      upload that raises ends the script there. */
  method UploadWorkouts(workouts: seq<string>, name: Option<string>, kind: Option<string>, uploads: seq<Upload>,
                        nameAnswer: Answer, typeAnswer: Answer)
    returns (lines: seq<ScriptLine>, calls: seq<Call>, raised: bool, updateError: Option<Uploader.UploadError>)
    requires workouts != [] && |uploads| == |workouts|
    ensures |lines| <= |workouts|
    ensures forall i :: 0 <= i < |lines| ==>
      uploads[i].Returned? && lines[i] == ScriptLine(workouts[i], uploads[i].outcome.idMsg, uploads[i].outcome.status)
    ensures raised <==> |lines| < |workouts|
    ensures raised ==> uploads[|lines|].UploadRaised? && calls == [] && updateError.None?
    ensures !raised ==> (calls, updateError) == Sent(ScriptUpdates(workouts, name, kind, uploads), nameAnswer, typeAnswer)
  {
    var activityName, activityType := None, None;
    if |workouts| == 1 {
      activityName := name;
      activityType := kind;
    }
    lines, calls, updateError := [], [], None;
    var status, idMsg := "", "";
    var i := 0;
    while i < |workouts| && uploads[i].Returned?
      invariant 0 <= i <= |workouts| && |lines| == i
      invariant forall k :: 0 <= k < i ==>
        uploads[k].Returned? && lines[k] == ScriptLine(workouts[k], uploads[k].outcome.idMsg, uploads[k].outcome.status)
      invariant i > 0 ==> status == uploads[i - 1].outcome.status && idMsg == uploads[i - 1].outcome.idMsg
    {
      status, idMsg := uploads[i].outcome.status, uploads[i].outcome.idMsg;
      lines := lines + [ScriptLine(workouts[i], idMsg, status)];
      i := i + 1;
    }
    raised := i < |workouts|;
    if raised {
      return;
    }
    ghost var renames := if Truthy(name) then [SetName(idMsg, name.value)] else [];
    ghost var retypes := if Truthy(kind) then [SetType(idMsg, kind.value)] else [];
    assert ScriptUpdates(workouts, name, kind, uploads) ==
      if |workouts| == 1 && status == "SUCCESS" then renames + retypes else [];
    SentAfterRename(idMsg, name, kind, nameAnswer, typeAnswer);
    if |workouts| == 1 && status == "SUCCESS" {
      if Truthy(activityName) {
        calls := calls + [SetName(idMsg, activityName.value)];
        assert calls == renames;
        if nameAnswer.Err? {
          updateError := Some(nameAnswer.error);
          return;
        }
      }
      if Truthy(activityType) {
        calls := calls + [SetType(idMsg, activityType.value)];
        assert calls == renames + retypes;
        if typeAnswer.Err? {
          updateError := Some(typeAnswer.error);
          return;
        }
      }
      assert calls == renames + retypes;
    }
  }

  /** Sending the rename a given name calls for, then the retype a given
      type calls for. */
  lemma SentAfterRename(id: string, name: Option<string>, kind: Option<string>, nameAnswer: Answer, typeAnswer: Answer)
    ensures var renames := if Truthy(name) then [SetName(id, name.value)] else [];
      var retypes := if Truthy(kind) then [SetType(id, kind.value)] else [];
      var sent := Sent(renames + retypes, nameAnswer, typeAnswer);
      && (renames != [] && nameAnswer.Err? ==> sent == (renames, Some(nameAnswer.error)))
      && ((renames == [] || nameAnswer.Ok?) && retypes != [] && typeAnswer.Err? ==> sent == (renames + retypes, Some(typeAnswer.error)))
      && ((renames == [] || nameAnswer.Ok?) && (retypes == [] || typeAnswer.Ok?) ==> sent == (renames + retypes, None))
  {
    var n, t := SetName(id, if Truthy(name) then name.value else []), SetType(id, if Truthy(kind) then kind.value else []);
    if Truthy(name) && Truthy(kind) {
      assert [n, t][1..] == [t];
      assert [t][1..] == [];
      assert [n] + [t] == [n, t];
    } else if Truthy(name) {
      assert [n][1..] == [];
      assert [n] + [] == [n];
    } else if Truthy(kind) {
      assert [t][1..] == [];
      assert [] + [t] == [t];
    }
  }

  /** How the login statement ends the script, as written: `None` when it
      goes on to the uploads. `if not g.login(...)` treats False as a
      refused login, but an exception from inside `login` is not caught. */
  function LoginEnd(login: Result<bool, Garmin.AuthError>): Option<ScriptEnd> {
    match login
    case Err(e) => Some(Raised(LoginException(e)))
    case Ok(b) => if b then None else Some(Exited(1))
  }

  /** `g = UploadGarmin(); g.login(username, password)` as the script runs
      them: the client answers True or raises, so a refused login ends the
      script with the exception and the `exit(1)` branch is never taken. */
  method ScriptLogin(username: string, password: string, sv: Garmin.Server, hierarchy: seq<Garmin.ActivityType>)
    returns (login: Result<bool, Garmin.AuthError>, end: Option<ScriptEnd>)
    ensures end == LoginEnd(login)
    ensures end != Some(Exited(1))
    ensures end.None? <==> login.Ok?
    ensures login.Err? ==> end == Some(Raised(LoginException(login.error)))
  {
    var g := new Uploader.UploadGarmin(hierarchy);
    login := g.Login(username, password, sv);
    end := LoginEnd(login);
  }

  /** The login statement as evidently intended: a failed login, refused
      or raised, logs `LOGIN FAILED` and exits with status 1. */
  function IntendedLoginEnd(login: Result<bool, Garmin.AuthError>): (end: Option<ScriptEnd>)
    ensures end.None? <==> login == Ok(true)
    ensures end.Some? ==> end == Some(Exited(1))
  {
    if login == Ok(true) then None else Some(Exited(1))
  }

  /** With the client's answers, the intended script exits 1 exactly when
      the handshake fails, where the script as written raises instead. */
  method IntendedScriptLogin(username: string, password: string, sv: Garmin.Server, hierarchy: seq<Garmin.ActivityType>)
    returns (login: Result<bool, Garmin.AuthError>, end: Option<ScriptEnd>)
    ensures end == IntendedLoginEnd(login)
    ensures end == Some(Exited(1)) <==> login.Err?
    ensures login.Err? ==> LoginEnd(login) != end
  {
    var g := new Uploader.UploadGarmin(hierarchy);
    login := g.Login(username, password, sv);
    end := IntendedLoginEnd(login);
  }

  /** The script from the credentials to `exit()`. `-l` is `pair`, `-a`
      is `name`, `-t` is `kind`, `login` is what `g.login` answers, and
      `nameAnswer` / `typeAnswer` are what the single-workout updates
      answer if they are sent. */
  method Gupload(fs: FileSystem, args: seq<string>, name: Option<string>, kind: Option<string>,
                 pair: Option<Credentials>, configs: Configs,
                 login: Result<bool, Garmin.AuthError>, uploads: seq<Upload>, nameAnswer: Answer, typeAnswer: Answer)
    returns (end: ScriptEnd, obscured: string, lines: seq<ScriptLine>, calls: seq<Call>, loggedIn: bool)
    requires |uploads| == |ScriptWorkouts(fs, args)|
    ensures var c := ChooseForScript(pair, configs);
      c.Err? ==> end == (if c.error == NoConfigFile then Exited(1) else Raised(ConfigError))
    ensures var c := ChooseForScript(pair, configs);
      c.Ok? && c.value.password == [] ==> end == Raised(IndexError)
    ensures var c := ChooseForScript(pair, configs);
      c.Ok? && c.value.password != [] ==> obscured == Obscured(c.value.password)
    ensures var c := ChooseForScript(pair, configs); var ws := ScriptWorkouts(fs, args);
      c.Ok? && c.value.password != [] && ws == [] ==> end == Exited(1) && !loggedIn
    ensures var c := ChooseForScript(pair, configs); var ws := ScriptWorkouts(fs, args);
      c.Ok? && c.value.password != [] && ws != [] ==>
        loggedIn == (login == Ok(true)) && (!loggedIn ==> LoginEnd(login) == Some(end))
    ensures loggedIn ==> var ws := ScriptWorkouts(fs, args);
      && |lines| <= |ws|
      && (forall i :: 0 <= i < |lines| ==>
            uploads[i].Returned? && lines[i] == ScriptLine(ws[i], uploads[i].outcome.idMsg, uploads[i].outcome.status))
      && (|lines| == |ws| ==> var sent := Sent(ScriptUpdates(ws, name, kind, uploads), nameAnswer, typeAnswer);
            calls == sent.0 && end == (if sent.1.None? then Exited(0) else Raised(UpdateException(sent.1.value))))
      && (|lines| < |ws| ==> end == Raised(UploadException) && uploads[|lines|].UploadRaised? && calls == [])
    ensures !loggedIn ==> lines == [] && calls == []
  {
    obscured, lines, calls, loggedIn := [], [], [], false;
    var credentials := ChooseForScript(pair, configs);
    if credentials.Err? {
      if credentials.error == NoConfigFile {
        return Exited(1), obscured, lines, calls, loggedIn;
      }
      return Raised(ConfigError), obscured, lines, calls, loggedIn;
    }
    var username, password := credentials.value.username, credentials.value.password;
    var shown := ObscurePassword(password);
    if shown.None? {
      return Raised(IndexError), obscured, lines, calls, loggedIn;
    }
    obscured := shown.value;
    var workouts := BuildWorkoutList(fs, args);
    if |workouts| == 0 {
      return Exited(1), obscured, lines, calls, loggedIn;
    }
    var stop := LoginEnd(login);
    if stop.Some? {
      return stop.value, obscured, lines, calls, loggedIn;
    }
    loggedIn := true;
    var raised, updateError;
    lines, calls, raised, updateError := UploadWorkouts(workouts, name, kind, uploads, nameAnswer, typeAnswer);
    end := if raised then Raised(UploadException)
           else if updateError.Some? then Raised(UpdateException(updateError.value))
           else Exited(0);
  }
}
