/** What the Garmin Connect client decides from the server's answers, with
    every answer an abstract record: the CAS login handshake as a linear
    step machine, the classification of an import result, the
    activity-type lookup, the checks on the name and type echoes, and the
    two rate-limit rules. */
module Garmin {
  import opened Base
  import opened Scrape

  // ---- Server answers ----

  /** One HTTP response as the client uses it: the status code, whether
      redirects were followed on the way (`history` non-empty), whether it
      put a cookie in the session jar, and the decoded part of the body the
      client reads. */
  datatype Reply<T> = Reply(status: int, history: bool, setsCookie: bool, body: T)

  /** `Response.ok`: `raise_for_status` raises exactly on 4xx and 5xx. */
  predicate IsOk(status: int) {
    !(400 <= status && status < 600)
  }

  datatype Message = Message(code: int, content: string)
  datatype Failure = Failure(internalId: int, messages: seq<Message>)
  /** `detailedImportResult`: the internal ids of the successes, and the
      failures with their messages. */
  datatype ImportResult = ImportResult(successes: seq<int>, failures: seq<Failure>)

  /** What each endpoint answers. `hostname.body` is the JSON `host` field,
      `checkLogin.body` the JSON `username` field, `name.body` the echoed
      `display.value` (None when the field is absent) and `activityType.body`
      the echoed `activityType` object; the three login pages are text. */
  datatype Server = Server(
    hostname: Reply<Option<string>>,
    loginForm: Reply<string>,
    credentials: Reply<string>,
    postLogin: Reply<string>,
    checkLogin: Reply<Option<string>>,
    upload: Reply<ImportResult>,
    name: Reply<Option<string>>,
    activityType: Reply<TypeEcho>)

  /** The `activityType` field of the answer to a type update: absent,
      present without a `key`, or present with its key. */
  datatype TypeEcho = NoTypeEcho | KeylessTypeEcho | TypeKeyEcho(key: string)

  /** The requests the client sends, with the data that matters. A type
      key of None is the `False` the lookup returns for an unknown type. */
  datatype Request =
    | GetHostname
    | GetLoginForm(webhost: string)
    | PostCredentials(webhost: string, lt: string, username: Option<string>, password: Option<string>)
    | GetPostLogin(ticket: string)
    | GetCheckLogin
    | PostUpload(extension: string, fileName: string)
    | PostName(activityId: int, name: string)
    | PostType(activityId: int, key: Option<string>)

  // ---- The login handshake ----

  /** The exception each step raises. */
  datatype AuthError =
    | InvalidSsoStatus(code: int)   // 'Invalid SSO first request status code'
    | HostMissing                   // `None.rstrip`: the reply has no host
    | NoLoginForm
    | NoLoginTicket
    | AuthenticationFailed
    | MissingServiceTicket
    | SecondStepFailed
    | LoginCheckFailed

  /** Position of a request in the fixed handshake order. */
  function Stage(r: Request): nat {
    match r
    case GetHostname => 0
    case GetLoginForm(_) => 1
    case PostCredentials(_, _, _, _) => 2
    case GetPostLogin(_) => 3
    case GetCheckLogin => 4
    case _ => 5
  }

  /** How many requests have gone out when a step raises `e`. */
  function RequestsBefore(e: AuthError): nat {
    match e
    case InvalidSsoStatus(_) => 1
    case HostMissing => 1
    case NoLoginForm => 2
    case NoLoginTicket => 2
    case AuthenticationFailed => 3
    case MissingServiceTicket => 3
    case SecondStepFailed => 4
    case LoginCheckFailed => 5
  }

  /** Whether the reply to the handshake request at stage `i` sets a cookie. */
  function StageSetsCookie(sv: Server, i: nat): bool {
    if i == 0 then sv.hostname.setsCookie
    else if i == 1 then sv.loginForm.setsCookie
    else if i == 2 then sv.credentials.setsCookie
    else if i == 3 then sv.postLogin.setsCookie
    else if i == 4 then sv.checkLogin.setsCookie
    else false
  }

  /** Whether one of the replies to the first `n` handshake requests set a
      cookie. */
  function CookiesBefore(sv: Server, n: nat): (b: bool)
    ensures b <==> exists i :: 0 <= i < n && StageSetsCookie(sv, i)
  {
    if n == 0 then false else CookiesBefore(sv, n - 1) || StageSetsCookie(sv, n - 1)
  }

  /** A run of the handshake: the requests sent, whether any reply set a
      cookie, and the outcome (Ok stands for `return True`). */
  datatype Handshake = Handshake(sent: seq<Request>, setCookie: bool, result: Result<(), AuthError>)

  /** What the client reads out of the replies' bodies: the trimmed SSO
      host (None when the hostname reply has no `host`), the login ticket
      and the service ticket (None when the page has none). The handshake
      below looks at each one only once the step that needs it is reached. */
  datatype Scraped = Scraped(webhost: Option<string>, lt: Option<string>, ticket: Option<string>)

  function ScrapeReplies(sv: Server): (sc: Scraped)
    ensures sc.webhost.Some? <==> sv.hostname.body.Some?
  {
    Scraped(
      if sv.hostname.body.Some? then Some(SsoHostname(sv.hostname.body.value)) else None,
      FindLoginTicket(sv.loginForm.body),
      FindServiceTicket(sv.credentials.body))
  }

  /** The handshake over the values scraped from the replies: the five
      requests go out in a fixed order, each reply may set a cookie, and
      the first failing step ends the run with its exception. */
  function HandshakeSteps(sv: Server, sc: Scraped, username: Option<string>, password: Option<string>): Handshake {
    var c0 := sv.hostname.setsCookie;
    if !IsOk(sv.hostname.status) then Handshake([GetHostname], c0, Err(InvalidSsoStatus(sv.hostname.status)))
    else if sc.webhost.None? then Handshake([GetHostname], c0, Err(HostMissing))
    else
      var form := GetLoginForm(sc.webhost.value);
      var c1 := c0 || sv.loginForm.setsCookie;
      if sv.loginForm.status != 200 then Handshake([GetHostname, form], c1, Err(NoLoginForm))
      else if sc.lt.None? then Handshake([GetHostname, form], c1, Err(NoLoginTicket))
      else
        var creds := PostCredentials(sc.webhost.value, sc.lt.value, username, password);
        var c2 := c1 || sv.credentials.setsCookie;
        if sv.credentials.status != 200 then Handshake([GetHostname, form, creds], c2, Err(AuthenticationFailed))
        else if sc.ticket.None? then Handshake([GetHostname, form, creds], c2, Err(MissingServiceTicket))
        else
          var post := GetPostLogin(sc.ticket.value);
          var c3 := c2 || sv.postLogin.setsCookie;
          if sv.postLogin.status != 200 && !sv.postLogin.history then
            Handshake([GetHostname, form, creds, post], c3, Err(SecondStepFailed))
          else
            var c4 := c3 || sv.checkLogin.setsCookie;
            var all := [GetHostname, form, creds, post, GetCheckLogin];
            if !Truthy(sv.checkLogin.body) then Handshake(all, c4, Err(LoginCheckFailed))
            else Handshake(all, c4, Ok(()))
  }

  /** The shape of every run: the requests follow the fixed order, a
      failure raised by a step leaves exactly the requests up to that step
      sent, the cookie flag says whether one of the answered requests set
      a cookie, and success requires the identity check and an accepted
      post-login answer. */
  lemma HandshakeShape(sv: Server, sc: Scraped, username: Option<string>, password: Option<string>)
    requires sc.webhost.Some? <==> sv.hostname.body.Some?
    ensures var h := HandshakeSteps(sv, sc, username, password);
      && 1 <= |h.sent| <= 5
      && (forall i :: 0 <= i < |h.sent| ==> Stage(h.sent[i]) == i)
      && (h.result.Ok? ==> |h.sent| == 5)
      && (h.result.Err? ==> |h.sent| == RequestsBefore(h.result.error))
      && h.setCookie == CookiesBefore(sv, |h.sent|)
      && (h.result.Ok? ==> Truthy(sv.checkLogin.body))
      && (h.result.Ok? ==> sv.postLogin.status == 200 || sv.postLogin.history)
      && (h.result == Err(SecondStepFailed) ==> sv.postLogin.status != 200 && !sv.postLogin.history)
  {
    var h := HandshakeSteps(sv, sc, username, password);
    assert CookiesBefore(sv, 1) == sv.hostname.setsCookie;
    assert CookiesBefore(sv, 2) == (CookiesBefore(sv, 1) || sv.loginForm.setsCookie);
    assert CookiesBefore(sv, 3) == (CookiesBefore(sv, 2) || sv.credentials.setsCookie);
    assert CookiesBefore(sv, 4) == (CookiesBefore(sv, 3) || sv.postLogin.setsCookie);
    assert CookiesBefore(sv, 5) == (CookiesBefore(sv, 4) || sv.checkLogin.setsCookie);
  }

  /** `authenticate` on a session without cookies, against server `sv`. */
  function RunHandshake(sv: Server, username: Option<string>, password: Option<string>): Handshake {
    HandshakeSteps(sv, ScrapeReplies(sv), username, password)
  }

  /** `authenticate` on a session whose cookie jar is non-empty exactly
      when `hasCookies`: "only try once" means nothing is sent and the call
      reports success. */
  function Authentication(hasCookies: bool, sv: Server, username: Option<string>, password: Option<string>): (h: Handshake)
    ensures hasCookies ==> h.sent == [] && h.result.Ok?
    ensures !hasCookies ==> h == RunHandshake(sv, username, password)
  {
    if hasCookies then Handshake([], false, Ok(())) else RunHandshake(sv, username, password)
  }

  /** On success the credentials carry the login ticket scraped from the
      form, and the post-login request carries the service ticket scraped
      from the credentials reply. */
  lemma HandshakeForwardsTickets(sv: Server, username: Option<string>, password: Option<string>)
    requires RunHandshake(sv, username, password).result.Ok?
    ensures sv.hostname.body.Some?
    ensures FindLoginTicket(sv.loginForm.body).Some? && FindServiceTicket(sv.credentials.body).Some?
    ensures RunHandshake(sv, username, password).sent ==
      [GetHostname,
       GetLoginForm(SsoHostname(sv.hostname.body.value)),
       PostCredentials(SsoHostname(sv.hostname.body.value), FindLoginTicket(sv.loginForm.body).value, username, password),
       GetPostLogin(FindServiceTicket(sv.credentials.body).value),
       GetCheckLogin]
  {
  }

  /** End to end: a login page carrying the hidden `lt` input and a
      credentials reply carrying the `response_url` script, with the
      statuses the client wants and a non-empty user name, log the user in,
      and the two tickets are the ones written into those pages. A
      post-login answer that is not 200 is accepted when it was reached
      through redirects. */
  lemma HandshakeSucceedsOnWellFormedPages(
    sv: Server, username: Option<string>, password: Option<string>,
    before: string, w1: string, w2: string, w3: string, w4: string, lt: string, rest: string,
    before2: string, w: string, url: string, ticket: string, rest2: string)
    requires IsOk(sv.hostname.status) && sv.hostname.body.Some?
    requires sv.loginForm.status == 200 && sv.credentials.status == 200
    requires sv.postLogin.status == 200 || sv.postLogin.history
    requires Truthy(sv.checkLogin.body)
    requires forall i :: 0 <= i < |before| ==> before[i] != '<'
    requires |w1| > 0 && |w2| > 0 && |w3| > 0 && |w4| > 0
    requires AllIn(w1, Space) && AllIn(w2, Space) && AllIn(w3, Space) && AllIn(w4, Space)
    requires |lt| > 0 && AllIn(lt, Word)
    requires sv.loginForm.body == before + LoginInput(w1, w2, w3, w4, lt, rest)
    requires forall i :: 0 <= i < |before2| ==> before2[i] != 'v'
    requires |w| > 0 && AllIn(w, Space)
    requires forall i :: 0 <= i < |url| ==> url[i] != '\n' && url[i] != '='
    requires |ticket| > 0 && AllIn(ticket, TicketChar)
    requires sv.credentials.body == before2 + RedirectScript(w, url, ticket, rest2)
    ensures var h := RunHandshake(sv, username, password);
      h.result.Ok? && |h.sent| == 5 && h.sent[2].lt == lt && h.sent[3].ticket == ticket
  {
    var sc := ScrapeReplies(sv);
    assert sc.lt == Some(lt) by {
      FindLoginTicketOfPage(before, w1, w2, w3, w4, lt, rest);
    }
    assert sc.ticket == Some(ticket) by {
      FindServiceTicketOfPage(before2, w, url, ticket, rest2);
    }
    HandshakeSucceedsWith(sv, sc, username, password);
  }

  /** With every status the client wants and all three values found, the
      handshake succeeds and forwards the two tickets. */
  lemma HandshakeSucceedsWith(sv: Server, sc: Scraped, username: Option<string>, password: Option<string>)
    requires IsOk(sv.hostname.status) && sv.loginForm.status == 200 && sv.credentials.status == 200
    requires sv.postLogin.status == 200 || sv.postLogin.history
    requires Truthy(sv.checkLogin.body)
    requires sc.webhost.Some? && sc.lt.Some? && sc.ticket.Some?
    ensures var h := HandshakeSteps(sv, sc, username, password);
      h.result.Ok? && |h.sent| == 5 && h.sent[2].lt == sc.lt.value && h.sent[3].ticket == sc.ticket.value
  {
  }

  /** Erase every cookie a reply would set. */
  function WithoutCookies(sv: Server): (r: Server)
    ensures forall i :: 0 <= i ==> !StageSetsCookie(r, i)
  {
    sv.(hostname := sv.hostname.(setsCookie := false),
        loginForm := sv.loginForm.(setsCookie := false),
        credentials := sv.credentials.(setsCookie := false),
        postLogin := sv.postLogin.(setsCookie := false),
        checkLogin := sv.checkLogin.(setsCookie := false))
  }

  /** No step looks at the cookie jar: the outcome and the requests of a
      handshake do not depend on which replies set cookies. */
  lemma HandshakeIgnoresCookies(sv: Server, username: Option<string>, password: Option<string>)
    ensures RunHandshake(WithoutCookies(sv), username, password).result == RunHandshake(sv, username, password).result
    ensures RunHandshake(WithoutCookies(sv), username, password).sent == RunHandshake(sv, username, password).sent
    ensures !RunHandshake(WithoutCookies(sv), username, password).setCookie
  {
  }

  // ---- Upload outcome ----

  /** The tri-state upload outcome; `UnknownError` is `['FAIL', 'Unknown error']`. */
  datatype UploadStatus = Success(id: int) | Exists(id: int) | Fail(messages: seq<Message>) | UnknownError

  /** `SUCCESS`, `EXISTS` or `FAIL`, the first element of the returned pair. */
  function StatusWord(s: UploadStatus): (w: string)
    ensures w == "SUCCESS" <==> s.Success?
    ensures w == "EXISTS" <==> s.Exists?
  {
    match s
    case Success(_) => "SUCCESS"
    case Exists(_) => "EXISTS"
    case _ => "FAIL"
  }

  /** An IndexError while reading the decoded result: the first failure
      carries no message. */
  datatype ReplyError = MissingMessage | MissingNameEcho | MissingTypeKey

  /** The branches of `upload_file` over `detailedImportResult`. */
  function Classify(r: ImportResult): (c: Result<UploadStatus, ReplyError>)
    ensures c.Ok? && c.value.Success? <==> |r.successes| > 0
    ensures c.Ok? && c.value.Success? ==> c.value.id == r.successes[0]
    ensures c.Ok? && c.value.Exists? <==>
      |r.successes| == 0 && |r.failures| > 0 && |r.failures[0].messages| > 0 && r.failures[0].messages[0].code == 202
    ensures c.Ok? && c.value.Exists? ==> c.value.id == r.failures[0].internalId
    ensures c.Ok? && c.value.Fail? <==>
      |r.successes| == 0 && |r.failures| > 0 && |r.failures[0].messages| > 0 && r.failures[0].messages[0].code != 202
    ensures c.Ok? && c.value.Fail? ==> c.value.messages == r.failures[0].messages
    ensures c == Ok(UnknownError) <==> |r.successes| == 0 && |r.failures| == 0
    ensures c.Err? <==> |r.successes| == 0 && |r.failures| > 0 && |r.failures[0].messages| == 0
  {
    if |r.successes| == 0 then
      if |r.failures| > 0 then
        if |r.failures[0].messages| == 0 then Err(MissingMessage)
        else if r.failures[0].messages[0].code == 202 then Ok(Exists(r.failures[0].internalId))
        else Ok(Fail(r.failures[0].messages))
      else Ok(UnknownError)
    else Ok(Success(r.successes[0]))
  }

  /** A success anywhere in the list wins over any failure, 202 or not. */
  lemma SuccessOutranksFailures(ids: seq<int>, failures: seq<Failure>)
    requires |ids| > 0
    ensures Classify(ImportResult(ids, failures)) == Ok(Success(ids[0]))
  {
  }

  // ---- Activity type lookup ----

  /** An entry of the activity-type dictionary. */
  datatype ActivityType = ActivityType(key: string, display: string)

  /** `activity_type.lower() in (key, display.lower())`: the key is compared
      as stored, the label after lower-casing. */
  predicate TypeMatches(t: ActivityType, input: string) {
    Lower(input) == t.key || Lower(input) == Lower(t.display)
  }

  /** Index of the first matching entry, `|h|` when there is none. */
  function FirstTypeMatch(h: seq<ActivityType>, input: string): (i: nat)
    ensures i <= |h|
    ensures i < |h| ==> TypeMatches(h[i], input)
    ensures forall j :: 0 <= j < i ==> !TypeMatches(h[j], input)
  {
    if h == [] then 0
    else if TypeMatches(h[0], input) then 0
    else 1 + FirstTypeMatch(h[1..], input)
  }

  /** `_check_activity_type`: the key of the first match; None is the
      `False` returned when nothing matches. */
  function FindActivityType(h: seq<ActivityType>, input: string): (r: Option<string>)
    ensures r.None? <==> forall j :: 0 <= j < |h| ==> !TypeMatches(h[j], input)
    ensures r.Some? ==> exists i :: 0 <= i < |h| && r.value == h[i].key && TypeMatches(h[i], input)
  {
    var i := FirstTypeMatch(h, input);
    if i < |h| then Some(h[i].key) else None
  }

  lemma {:induction false} FirstTypeMatchIgnoresCase(h: seq<ActivityType>, a: string, b: string)
    requires Lower(a) == Lower(b)
    ensures FirstTypeMatch(h, a) == FirstTypeMatch(h, b)
  {
    if h != [] {
      FirstTypeMatchIgnoresCase(h[1..], a, b);
    }
  }

  /** Inputs that differ only in letter case resolve to the same key. */
  lemma FindActivityTypeIgnoresCase(h: seq<ActivityType>, a: string, b: string)
    requires Lower(a) == Lower(b)
    ensures FindActivityType(h, a) == FindActivityType(h, b)
  {
    FirstTypeMatchIgnoresCase(h, a, b);
  }

  /** An input naming an entry's lower-case key, or its label in any case,
      resolves to some key, and to that entry's key when no earlier entry
      matches. */
  lemma FindActivityTypeOfEntry(h: seq<ActivityType>, i: nat, input: string)
    requires i < |h| && TypeMatches(h[i], input)
    requires forall j :: 0 <= j < i ==> !TypeMatches(h[j], input)
    ensures FindActivityType(h, input) == Some(h[i].key)
  {
  }

  // ---- Echo checks after a name or type update ----

  /** `set_activity_name`'s verdict on the reply: True iff 200 and the
      echoed value is the requested name; a 200 without the echo is a
      KeyError. */
  function NameConfirmed(reply: Reply<Option<string>>, name: string): (r: Result<bool, ReplyError>)
    ensures r == Ok(true) <==> reply.status == 200 && reply.body == Some(name)
    ensures r.Err? <==> reply.status == 200 && reply.body.None?
  {
    if reply.status == 200 then
      if reply.body.None? then Err(MissingNameEcho) else Ok(reply.body.value == name)
    else Ok(false)
  }

  /** `set_activity_type`'s verdict: True iff 200, `activityType` present
      and its key equal to the key sent; a 200 whose `activityType` has no
      `key` is a KeyError. A key sent as `False` never matches a string. */
  function TypeConfirmed(reply: Reply<TypeEcho>, sent: Option<string>): (r: Result<bool, ReplyError>)
    ensures r == Ok(true) <==> reply.status == 200 && sent.Some? && reply.body == TypeKeyEcho(sent.value)
    ensures r.Err? <==> reply.status == 200 && reply.body.KeylessTypeEcho?
    ensures r.Err? ==> r.error == MissingTypeKey
  {
    if reply.status != 200 then Ok(false)
    else match reply.body
      case NoTypeEcho => Ok(false)
      case KeylessTypeEcho => Err(MissingTypeKey)
      case TypeKeyEcho(k) => Ok(sent.Some? && k == sent.value)
  }

  // ---- Rate limiting ----

  /** `_last_req_start` after `if not last: last = 0.0`. */
  function LimiterBase(last: Option<real>): (b: real)
    ensures last.Some? ==> b == last.value
    ensures last.None? ==> b == 0.0
  {
    if last.None? || last.value == 0.0 then 0.0 else last.value
  }

  /** `max(0, min_period - (now - last))` with a one-second period. */
  function Wait(last: Option<real>, now: real): (w: real)
    ensures w >= 0.0
    ensures now + w >= LimiterBase(last) + 1.0
    ensures w == 0.0 || now + w == LimiterBase(last) + 1.0
  {
    var d := 1.0 - (now - LimiterBase(last));
    if d > 0.0 then d else 0.0
  }

  /** The wait is the least one that puts a full second after the base. */
  lemma WaitIsLeast(last: Option<real>, now: real, w: real)
    requires w >= 0.0 && now + w >= LimiterBase(last) + 1.0
    ensures Wait(last, now) <= w
  {
  }

  /** Under a clock that never runs backwards past the last start, the
      wait is at most one second. */
  lemma WaitAtMostOne(last: Option<real>, now: real)
    requires now >= LimiterBase(last)
    ensures Wait(last, now) <= 1.0
  {
  }

  /** One call of the limiter: read the clock (`now`), sleep the wait, and
      wake `overrun` later than asked. */
  datatype Tick = Tick(now: real, overrun: real)

  /** The start times `_rate_limit` records over a series of calls. */
  function Starts(last: Option<real>, ticks: seq<Tick>): (r: seq<real>)
    ensures |r| == |ticks|
    decreases |ticks|
  {
    if ticks == [] then []
    else
      var s := ticks[0].now + Wait(last, ticks[0].now) + ticks[0].overrun;
      [s] + Starts(Some(s), ticks[1..])
  }

  /** Recorded starts, hence the requests sent right after them, are at
      least a second apart, whatever the clock readings. */
  lemma {:induction false} StartsSpaced(last: Option<real>, ticks: seq<Tick>)
    requires forall i :: 0 <= i < |ticks| ==> ticks[i].overrun >= 0.0
    ensures |ticks| > 0 ==> Starts(last, ticks)[0] >= LimiterBase(last) + 1.0
    ensures forall i :: 0 < i < |ticks| ==> Starts(last, ticks)[i] >= Starts(last, ticks)[i - 1] + 1.0
    decreases |ticks|
  {
    if ticks != [] {
      var s := ticks[0].now + Wait(last, ticks[0].now) + ticks[0].overrun;
      StartsSpaced(Some(s), ticks[1..]);
      var r := Starts(last, ticks);
      assert r == [s] + Starts(Some(s), ticks[1..]);
      forall i | 0 < i < |ticks|
        ensures r[i] >= r[i - 1] + 1.0
      {
        if i > 1 {
          assert r[i] == Starts(Some(s), ticks[1..])[i - 1];
          assert r[i - 1] == Starts(Some(s), ticks[1..])[i - 2];
        }
      }
    }
  }

  /** `Workflow.rate_limit`: the wait and the new `last_request`. An
      unset value becomes 0.0; the time is recorded only after an actual
      wait. */
  function WorkflowLimit(last: Option<real>, now: real, overrun: real): (r: (real, Option<real>))
    ensures r.0 == Wait(last, now)
    ensures r.0 <= 0.0 ==> r.1 == Some(LimiterBase(last))
    ensures r.0 > 0.0 ==> r.1 == Some(now + r.0 + overrun)
  {
    var base := LimiterBase(last);
    var w := Wait(last, now);
    if w <= 0.0 then (w, Some(base)) else (w, Some(now + w + overrun))
  }

  /** The waits `Workflow.rate_limit` sleeps over a series of calls. */
  function WorkflowWaits(last: Option<real>, ticks: seq<Tick>): (r: seq<real>)
    ensures |r| == |ticks|
    decreases |ticks|
  {
    if ticks == [] then []
    else
      var step := WorkflowLimit(last, ticks[0].now, ticks[0].overrun);
      [step.0] + WorkflowWaits(step.1, ticks[1..])
  }

  /** The `last_request` the workflow holds after a series of calls. */
  function WorkflowLast(last: Option<real>, ticks: seq<Tick>): Option<real>
    decreases |ticks|
  {
    if ticks == [] then last
    else WorkflowLast(WorkflowLimit(last, ticks[0].now, ticks[0].overrun).1, ticks[1..])
  }

  /** Since the unset value counts as time 0.0 and is then kept, a clock
      already past one second never makes the workflow wait, however close
      together the calls come. */
  lemma {:induction false} WorkflowNeverWaitsAfterFirstSecond(last: Option<real>, ticks: seq<Tick>)
    requires LimiterBase(last) == 0.0
    requires forall i :: 0 <= i < |ticks| ==> ticks[i].now >= 1.0
    ensures forall i :: 0 <= i < |ticks| ==> WorkflowWaits(last, ticks)[i] == 0.0
    decreases |ticks|
  {
    if ticks != [] {
      var step := WorkflowLimit(last, ticks[0].now, ticks[0].overrun);
      assert step.1 == Some(0.0);
      WorkflowNeverWaitsAfterFirstSecond(step.1, ticks[1..]);
      var r := WorkflowWaits(last, ticks);
      forall i | 0 <= i < |ticks|
        ensures r[i] == 0.0
      {
        if i > 0 {
          assert r[i] == WorkflowWaits(step.1, ticks[1..])[i - 1];
        }
      }
    }
  }

  /** Two calls half a second apart, on a clock past its first second:
      neither waits, since the unset value 0.0 is kept. */
  lemma WorkflowLetsCloseCallsThrough()
    ensures WorkflowWaits(None, [Tick(5.0, 0.0), Tick(5.5, 0.0)]) == [0.0, 0.0]
  {
    var ticks := [Tick(5.0, 0.0), Tick(5.5, 0.0)];
    assert WorkflowLimit(None, 5.0, 0.0) == (0.0, Some(0.0));
    assert ticks[1..] == [Tick(5.5, 0.0)] && ticks[1..][1..] == [];
  }

  /** `Workflow.rate_limit` as evidently intended: the time is recorded
      after every call, waiting or not, as the client's own `_rate_limit`
      does, so the next call waits out the rest of the second. */
  function IntendedWorkflowLimit(last: Option<real>, now: real, overrun: real): (r: (real, Option<real>))
    requires overrun >= 0.0
    ensures r.0 == Wait(last, now)
    ensures r.1.Some? && r.1.value >= LimiterBase(last) + 1.0
  {
    var w := Wait(last, now);
    (w, Some(now + w + overrun))
  }

  /** The times the intended limiter records over a series of calls. */
  function IntendedWorkflowRecords(last: Option<real>, ticks: seq<Tick>): (r: seq<real>)
    requires forall i :: 0 <= i < |ticks| ==> ticks[i].overrun >= 0.0
    ensures |r| == |ticks|
    decreases |ticks|
  {
    if ticks == [] then []
    else
      var step := IntendedWorkflowLimit(last, ticks[0].now, ticks[0].overrun);
      [step.1.value] + IntendedWorkflowRecords(step.1, ticks[1..])
  }

  /** The intended limiter records exactly the client's request starts,
      so its calls are at least a second apart. */
  lemma {:induction false} IntendedWorkflowSpaced(last: Option<real>, ticks: seq<Tick>)
    requires forall i :: 0 <= i < |ticks| ==> ticks[i].overrun >= 0.0
    ensures IntendedWorkflowRecords(last, ticks) == Starts(last, ticks)
    ensures forall i :: 0 < i < |ticks| ==>
      IntendedWorkflowRecords(last, ticks)[i] >= IntendedWorkflowRecords(last, ticks)[i - 1] + 1.0
    decreases |ticks|
  {
    if ticks != [] {
      var step := IntendedWorkflowLimit(last, ticks[0].now, ticks[0].overrun);
      IntendedWorkflowSpaced(step.1, ticks[1..]);
    }
    StartsSpaced(last, ticks);
  }

  /** On the same two calls the intended limiter makes the second wait
      half a second. */
  lemma IntendedWorkflowWaitsForCloseCalls()
    ensures IntendedWorkflowRecords(None, [Tick(5.0, 0.0), Tick(5.5, 0.0)]) == [5.0, 6.0]
  {
    var ticks := [Tick(5.0, 0.0), Tick(5.5, 0.0)];
    assert IntendedWorkflowLimit(None, 5.0, 0.0) == (0.0, Some(5.0));
    assert IntendedWorkflowLimit(Some(5.0), 5.5, 0.0) == (0.5, Some(6.0));
    assert ticks[1..] == [Tick(5.5, 0.0)] && ticks[1..][1..] == [];
  }
}
