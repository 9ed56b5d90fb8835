/** The `UploadGarmin` client object, in both of its revisions
    (garmin_uploader/api.py and lib/UploadGarmin.py, whose method bodies
    are the same; the older one calls the name update `set_workout_name`
    and keeps `name_workout` as an alias).

    The network is the `Server` record each method is given; what the
    object sends is kept in `sent`, and the files it opens in `openedFiles`.
    The session's cookie jar is reduced to whether it is non-empty. The
    clock is the reading `now` taken when the rate limiter starts and the
    `overrun` by which `time.sleep` overshoots. */
module Uploader {
  import opened Base
  import opened Paths
  import opened Scrape
  import opened Garmin

  /** The exceptions `upload_file` and the update calls let through. */
  datatype UploadError =
    | InvalidExtension
    | FileNotFound                 // `open()` raises IOError
    | AuthFailed(cause: AuthError)
    | FailedToUpload(path: string)
    | Malformed(problem: ReplyError)

  /** The `requests.Session` the client talks through: the requests it
      has sent, in order, and whether its cookie jar is non-empty. */
  class Session {
    var sent: seq<Request>
    var hasCookies: bool

    constructor ()
      ensures sent == [] && !hasCookies
    {
      sent, hasCookies := [], false;
    }

    /** `session.get` / `session.post`: send `req` and receive `reply`,
        keeping whatever cookie the reply sets. */
    method Send<T>(req: Request, reply: Reply<T>) returns (resp: Reply<T>)
      modifies this
      ensures resp == reply
      ensures sent == old(sent) + [req]
      ensures hasCookies == (old(hasCookies) || reply.setsCookie)
    {
      sent := sent + [req];
      hasCookies := hasCookies || reply.setsCookie;
      resp := reply;
    }
  }

  class UploadGarmin {
    var hierarchy: seq<ActivityType>     // activityHierarchy
    var lastReqStart: Option<real>       // _last_req_start
    const session: Session
    var username: Option<string>
    var password: Option<string>
    var openedFiles: seq<(string, Mode)>

    /** A fresh client: empty credentials, a session without cookies, no
        request timed yet. The activity-type dictionary fetched over the
        network is passed in. */
    constructor (hierarchy: seq<ActivityType>)
      ensures this.hierarchy == hierarchy
      ensures lastReqStart.None? && fresh(session)
      ensures session.sent == [] && !session.hasCookies
      ensures username.None? && password.None? && openedFiles == []
    {
      this.hierarchy := hierarchy;
      lastReqStart := None;
      session := new Session();
      username, password := None, None;
      openedFiles := [];
    }

    /** `_rate_limit`: sleep so that a full second separates this start
        from the previous one, then record the time after the sleep. */
    method RateLimit(now: real, overrun: real) returns (wait: real)
      requires overrun >= 0.0
      modifies this
      ensures wait == Wait(old(lastReqStart), now)
      ensures lastReqStart == Some(now + wait + overrun)
      ensures lastReqStart.value >= LimiterBase(old(lastReqStart)) + 1.0
      ensures hierarchy == old(hierarchy) && username == old(username) && password == old(password)
      ensures openedFiles == old(openedFiles)
    {
      var base := 0.0;
      if lastReqStart.Some? && lastReqStart.value != 0.0 {
        base := lastReqStart.value;
      }
      wait := 1.0 - (now - base);
      if wait < 0.0 {
        wait := 0.0;
      }
      lastReqStart := Some(now + wait + overrun);
    }

    /** `authenticate`: nothing is sent when the session already holds
        cookies; otherwise the handshake runs, every reply it gets may add
        cookies, and the first failing step raises. */
    method Authenticate(sv: Server) returns (r: Result<bool, AuthError>)
      modifies session
      ensures var h := Authentication(old(session.hasCookies), sv, username, password);
        && session.sent == old(session.sent) + h.sent
        && session.hasCookies == (old(session.hasCookies) || h.setCookie)
        && (r.Ok? <==> h.result.Ok?) && (r.Ok? ==> r.value) && (r.Err? ==> r.error == h.result.error)
    {
      if session.hasCookies {
        return Ok(true);
      }
      var resp := session.Send(GetHostname, sv.hostname);
      if !IsOk(resp.status) {
        return Err(InvalidSsoStatus(resp.status));
      }
      if resp.body.None? {
        return Err(HostMissing);
      }
      var webhost := SsoHostname(resp.body.value);
      var form := session.Send(GetLoginForm(webhost), sv.loginForm);
      if form.status != 200 {
        return Err(NoLoginForm);
      }
      var lt := FindLoginTicket(form.body);
      if lt.None? {
        return Err(NoLoginTicket);
      }
      var creds := session.Send(PostCredentials(webhost, lt.value, username, password), sv.credentials);
      if creds.status != 200 {
        return Err(AuthenticationFailed);
      }
      var ticket := FindServiceTicket(creds.body);
      if ticket.None? {
        return Err(MissingServiceTicket);
      }
      var post := session.Send(GetPostLogin(ticket.value), sv.postLogin);
      if post.status != 200 && !post.history {
        return Err(SecondStepFailed);
      }
      var check := session.Send(GetCheckLogin, sv.checkLogin);
      if !Truthy(check.body) {
        return Err(LoginCheckFailed);
      }
      return Ok(true);
    }

    /** `login`: store the credentials, then authenticate with them. */
    method Login(user: string, pass: string, sv: Server) returns (r: Result<bool, AuthError>)
      modifies this, session
      ensures username == Some(user) && password == Some(pass)
      ensures var h := Authentication(old(session.hasCookies), sv, Some(user), Some(pass));
        && session.sent == old(session.sent) + h.sent
        && session.hasCookies == (old(session.hasCookies) || h.setCookie)
        && (r.Ok? <==> h.result.Ok?) && (r.Ok? ==> r.value) && (r.Err? ==> r.error == h.result.error)
      ensures hierarchy == old(hierarchy) && lastReqStart == old(lastReqStart) && openedFiles == old(openedFiles)
    {
      username := Some(user);
      password := Some(pass);
      r := Authenticate(sv);
    }

    /** `upload_file`: the extension gate and the read mode are settled,
        and the file opened, before anything goes over the network; then
        authenticate, wait for the rate limiter, POST the file under its
        ASCII name, and classify the import result. */
    method UploadFile(path: string, fileExists: bool, sv: Server, now: real, overrun: real)
      returns (r: Result<UploadStatus, UploadError>)
      requires overrun >= 0.0
      modifies this, session
      ensures UploadGate(path).Err? || !fileExists ==>
        r == (if UploadGate(path).Err? then Err(InvalidExtension) else Err(FileNotFound)) &&
        session.sent == old(session.sent) && session.hasCookies == old(session.hasCookies) &&
        openedFiles == old(openedFiles) && lastReqStart == old(lastReqStart)
      ensures UploadGate(path).Ok? && fileExists ==>
        openedFiles == old(openedFiles) + [(path, UploadGate(path).value.1)] &&
        var h := Authentication(old(session.hasCookies), sv, username, password);
        && (h.result.Err? ==>
              r == Err(AuthFailed(h.result.error)) && session.sent == old(session.sent) + h.sent &&
              session.hasCookies == (old(session.hasCookies) || h.setCookie) &&
              lastReqStart == old(lastReqStart))
        && (h.result.Ok? ==>
              session.sent == old(session.sent) + h.sent + [PostUpload(UploadGate(path).value.0, AsciiName(path))] &&
              session.hasCookies == (old(session.hasCookies) || h.setCookie || sv.upload.setsCookie) &&
              lastReqStart == Some(now + Wait(old(lastReqStart), now) + overrun))
        && (h.result.Ok? && !IsOk(sv.upload.status) ==> r == Err(FailedToUpload(path)))
        && (h.result.Ok? && IsOk(sv.upload.status) ==>
              (r.Ok? <==> Classify(sv.upload.body).Ok?) &&
              (r.Ok? ==> r.value == Classify(sv.upload.body).value) &&
              (r.Err? ==> r == Err(Malformed(Classify(sv.upload.body).error))))
      ensures hierarchy == old(hierarchy) && username == old(username) && password == old(password)
    {
      var gate := UploadGate(path);
      if gate.Err? {
        return Err(InvalidExtension);
      }
      var (extension, mode) := gate.value;
      var fileName := AsciiName(path);
      if !fileExists {
        return Err(FileNotFound);
      }
      openedFiles := openedFiles + [(path, mode)];
      assert session.sent == old(session.sent) && session.hasCookies == old(session.hasCookies);
      assert lastReqStart == old(lastReqStart) && username == old(username) && password == old(password);
      r := PostFile(path, extension, fileName, sv, now, overrun);
    }

    /** The network half of `upload_file`, once the file is open:
        authenticate, wait, POST, and classify the import result. */
    method PostFile(path: string, extension: string, fileName: string, sv: Server, now: real, overrun: real)
      returns (r: Result<UploadStatus, UploadError>)
      requires overrun >= 0.0
      modifies this, session
      ensures var h := Authentication(old(session.hasCookies), sv, username, password);
        && (h.result.Err? ==>
              r == Err(AuthFailed(h.result.error)) && session.sent == old(session.sent) + h.sent &&
              session.hasCookies == (old(session.hasCookies) || h.setCookie) &&
              lastReqStart == old(lastReqStart))
        && (h.result.Ok? ==>
              session.sent == old(session.sent) + h.sent + [PostUpload(extension, fileName)] &&
              session.hasCookies == (old(session.hasCookies) || h.setCookie || sv.upload.setsCookie) &&
              lastReqStart == Some(now + Wait(old(lastReqStart), now) + overrun))
        && (h.result.Ok? && !IsOk(sv.upload.status) ==> r == Err(FailedToUpload(path)))
        && (h.result.Ok? && IsOk(sv.upload.status) ==>
              (r.Ok? <==> Classify(sv.upload.body).Ok?) &&
              (r.Ok? ==> r.value == Classify(sv.upload.body).value) &&
              (r.Err? ==> r == Err(Malformed(Classify(sv.upload.body).error))))
      ensures hierarchy == old(hierarchy) && username == old(username) && password == old(password)
      ensures openedFiles == old(openedFiles)
    {
      var auth := Authenticate(sv);
      if auth.Err? {
        return Err(AuthFailed(auth.error));
      }
      var _ := RateLimit(now, overrun);
      var resp := session.Send(PostUpload(extension, fileName), sv.upload);
      if !IsOk(resp.status) {
        return Err(FailedToUpload(path));
      }
      var c := Classify(resp.body);
      if c.Err? {
        return Err(Malformed(c.error));
      }
      return Ok(c.value);
    }

    /** `set_activity_name` (`set_workout_name` in the older revision):
        authenticate, wait, POST the name, and report whether the echo is
        the name asked for; an answer without the echo raises. */
    method SetActivityName(activityId: int, name: string, sv: Server, now: real, overrun: real)
      returns (r: Result<bool, UploadError>)
      requires overrun >= 0.0
      modifies this, session
      ensures var h := Authentication(old(session.hasCookies), sv, username, password);
        && (h.result.Err? ==>
              r == Err(AuthFailed(h.result.error)) && session.sent == old(session.sent) + h.sent &&
              session.hasCookies == (old(session.hasCookies) || h.setCookie) &&
              lastReqStart == old(lastReqStart))
        && (h.result.Ok? ==>
              session.sent == old(session.sent) + h.sent + [PostName(activityId, name)] &&
              session.hasCookies == (old(session.hasCookies) || h.setCookie || sv.name.setsCookie) &&
              lastReqStart == Some(now + Wait(old(lastReqStart), now) + overrun) &&
              (r.Ok? ==> (r.value <==> sv.name.status == 200 && sv.name.body == Some(name))) &&
              (r.Err? <==> sv.name.status == 200 && sv.name.body.None?) &&
              (r.Err? ==> r == Err(Malformed(MissingNameEcho))))
      ensures hierarchy == old(hierarchy) && username == old(username) && password == old(password)
      ensures openedFiles == old(openedFiles)
    {
      var auth := Authenticate(sv);
      if auth.Err? {
        return Err(AuthFailed(auth.error));
      }
      var _ := RateLimit(now, overrun);
      var resp := session.Send(PostName(activityId, name), sv.name);
      var c := NameConfirmed(resp, name);
      if c.Err? {
        return Err(Malformed(c.error));
      }
      return Ok(c.value);
    }

    /** `name_workout`, the older revision's deprecated alias: the same
        request and the same answer as `set_workout_name`. */
    method NameWorkout(workoutId: int, name: string, sv: Server, now: real, overrun: real)
      returns (r: Result<bool, UploadError>)
      requires overrun >= 0.0
      modifies this, session
      ensures var h := Authentication(old(session.hasCookies), sv, username, password);
        && (h.result.Err? ==>
              r == Err(AuthFailed(h.result.error)) && session.sent == old(session.sent) + h.sent &&
              session.hasCookies == (old(session.hasCookies) || h.setCookie) &&
              lastReqStart == old(lastReqStart))
        && (h.result.Ok? ==>
              session.sent == old(session.sent) + h.sent + [PostName(workoutId, name)] &&
              session.hasCookies == (old(session.hasCookies) || h.setCookie || sv.name.setsCookie) &&
              lastReqStart == Some(now + Wait(old(lastReqStart), now) + overrun) &&
              (r.Ok? ==> (r.value <==> sv.name.status == 200 && sv.name.body == Some(name))) &&
              (r.Err? <==> sv.name.status == 200 && sv.name.body.None?) &&
              (r.Err? ==> r == Err(Malformed(MissingNameEcho))))
      ensures hierarchy == old(hierarchy) && username == old(username) && password == old(password)
      ensures openedFiles == old(openedFiles)
    {
      r := SetActivityName(workoutId, name, sv, now, overrun);
    }

    /** `_check_activity_type` over the stored dictionary. */
    function CheckActivityType(activityType: string): (r: Option<string>)
      reads this
      ensures r.None? <==> forall j :: 0 <= j < |hierarchy| ==> !TypeMatches(hierarchy[j], activityType)
      ensures r.Some? ==> exists j :: 0 <= j < |hierarchy| && TypeMatches(hierarchy[j], activityType) && r.value == hierarchy[j].key
    {
      FindActivityType(hierarchy, activityType)
    }

    /** `set_activity_type`. The early exit tests `is None`, which the
        lookup never returns (it returns False), so the POST goes out even
        for an unknown type, carrying False; the echo check then fails.
        An echoed `activityType` without a `key` raises. */
    method SetActivityType(activityId: int, activityType: string, sv: Server, now: real, overrun: real)
      returns (r: Result<bool, UploadError>)
      requires overrun >= 0.0
      modifies this, session
      ensures var h := Authentication(old(session.hasCookies), sv, username, password);
        var key := FindActivityType(old(hierarchy), activityType);
        && (h.result.Err? ==>
              r == Err(AuthFailed(h.result.error)) && session.sent == old(session.sent) + h.sent &&
              session.hasCookies == (old(session.hasCookies) || h.setCookie) &&
              lastReqStart == old(lastReqStart))
        && (h.result.Ok? ==>
              session.sent == old(session.sent) + h.sent + [PostType(activityId, key)] &&
              session.hasCookies == (old(session.hasCookies) || h.setCookie || sv.activityType.setsCookie) &&
              lastReqStart == Some(now + Wait(old(lastReqStart), now) + overrun) &&
              (r == Ok(true) <==>
                 sv.activityType.status == 200 && key.Some? && sv.activityType.body == TypeKeyEcho(key.value)) &&
              (r.Err? <==> sv.activityType.status == 200 && sv.activityType.body.KeylessTypeEcho?) &&
              (r.Err? ==> r == Err(Malformed(MissingTypeKey))))
      ensures hierarchy == old(hierarchy) && username == old(username) && password == old(password)
      ensures openedFiles == old(openedFiles)
    {
      var key := CheckActivityType(activityType);
      var auth := Authenticate(sv);
      if auth.Err? {
        return Err(AuthFailed(auth.error));
      }
      var _ := RateLimit(now, overrun);
      var resp := session.Send(PostType(activityId, key), sv.activityType);
      var c := TypeConfirmed(resp, key);
      if c.Err? {
        return Err(Malformed(c.error));
      }
      return Ok(c.value);
    }
  }

  /** A failed handshake can leave cookies behind; the next call to
      authenticate then sends nothing and reports success. */
  method RetryAfterFailedLogin(sv: Server) returns (first: Result<bool, AuthError>, second: Result<bool, AuthError>)
    requires !IsOk(sv.hostname.status) && sv.hostname.setsCookie
    ensures first == Err(InvalidSsoStatus(sv.hostname.status))
    ensures second == Ok(true)
  {
    var g := new UploadGarmin([]);
    first := g.Authenticate(sv);
    second := g.Authenticate(sv);
  }
}
