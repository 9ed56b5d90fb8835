/** The per-activity status report shared by garmin_uploader/cli.py,
    lib/cli.py and garmin_uploader/user.py: after each upload, the name and
    the type are set only when the upload reported `SUCCESS` and a value
    was given, and the printed line says `N/A`, the value, or `FAIL!`. */
module Batch {
  import opened Base

  /** The `Activity` / `workoutTuple` namedtuple of the older front ends. */
  datatype Workout = Workout(filename: string, name: Option<string>, kind: Option<string>)

  /** What the client answered for one workout: the `(status, id_msg)`
      pair of `upload_file`, and whether the name and type updates would be
      accepted if they were sent. */
  datatype Outcome = Outcome(status: string, idMsg: string, nameAccepted: bool, typeAccepted: bool)

  /** One call of `upload_file`: it returned an outcome, or it raised (a
      refused extension, a missing file, a failed login or upload, an
      unreadable answer), which ends the loop it is in. */
  datatype Upload = Returned(outcome: Outcome) | UploadRaised

  /** An update sent after an upload. */
  datatype Call = SetName(id: string, name: string) | SetType(id: string, kind: string)

  /** The fields of `File: %s    ID: %s    Status: %s    Name: %s    Type: %s`. */
  datatype StatusLine = StatusLine(filename: string, id: string, status: string, name: string, kind: string)

  /** `nstat` / `tstat` for a requested value and the answer to its update. */
  function FieldStatus(status: string, requested: Option<string>, accepted: bool): string {
    if status == "SUCCESS" && Truthy(requested) then
      if accepted then requested.value else "FAIL!"
    else "N/A"
  }

  /** The updates sent after one upload, name first. */
  function Updates(w: Workout, o: Outcome): seq<Call> {
    if o.status != "SUCCESS" then []
    else
      (if Truthy(w.name) then [SetName(o.idMsg, w.name.value)] else []) +
      (if Truthy(w.kind) then [SetType(o.idMsg, w.kind.value)] else [])
  }

  function Line(w: Workout, o: Outcome): StatusLine {
    StatusLine(w.filename, o.idMsg, o.status,
               FieldStatus(o.status, w.name, o.nameAccepted),
               FieldStatus(o.status, w.kind, o.typeAccepted))
  }

  /** An upload that did not report `SUCCESS` (an `EXISTS` included) is
      neither renamed nor retyped, and both fields read `N/A`. */
  lemma NoUpdateUnlessSuccess(w: Workout, o: Outcome)
    requires o.status != "SUCCESS"
    ensures Updates(w, o) == []
    ensures Line(w, o).name == "N/A" && Line(w, o).kind == "N/A"
  {
  }

  /** The name field tells whether a rename was sent and how it went: a
      rename goes out exactly when the upload succeeded and a name was
      given, and the field then holds the name or `FAIL!`. */
  lemma NameFieldMatchesCall(w: Workout, o: Outcome)
    ensures (exists n :: SetName(o.idMsg, n) in Updates(w, o)) <==> o.status == "SUCCESS" && Truthy(w.name)
    ensures o.status == "SUCCESS" && Truthy(w.name) ==>
      SetName(o.idMsg, w.name.value) in Updates(w, o) &&
      Line(w, o).name == (if o.nameAccepted then w.name.value else "FAIL!")
    ensures !(o.status == "SUCCESS" && Truthy(w.name)) ==> Line(w, o).name == "N/A"
  {
    if o.status == "SUCCESS" && Truthy(w.name) {
      assert Updates(w, o)[0] == SetName(o.idMsg, w.name.value);
    }
  }

  /** The same for the type field and the retype. */
  lemma TypeFieldMatchesCall(w: Workout, o: Outcome)
    ensures (exists k :: SetType(o.idMsg, k) in Updates(w, o)) <==> o.status == "SUCCESS" && Truthy(w.kind)
    ensures o.status == "SUCCESS" && Truthy(w.kind) ==>
      SetType(o.idMsg, w.kind.value) in Updates(w, o) &&
      Line(w, o).kind == (if o.typeAccepted then w.kind.value else "FAIL!")
    ensures !(o.status == "SUCCESS" && Truthy(w.kind)) ==> Line(w, o).kind == "N/A"
  {
    if o.status == "SUCCESS" && Truthy(w.kind) {
      var u := Updates(w, o);
      assert u[|u| - 1] == SetType(o.idMsg, w.kind.value);
    }
  }

  /** The updates sent for one upload; a raising upload sends none. */
  function UploadUpdates(w: Workout, u: Upload): seq<Call> {
    if u.Returned? then Updates(w, u.outcome) else []
  }

  /** The updates of the first `n` workouts, workout after workout. */
  function UpdatesUpTo(ws: seq<Workout>, us: seq<Upload>, n: nat): seq<Call>
    requires |us| == |ws| && n <= |ws|
    decreases n
  {
    if n == 0 then [] else UpdatesUpTo(ws, us, n - 1) + UploadUpdates(ws[n - 1], us[n - 1])
  }

  /** Every update of a batch targets an upload that returned and
      reported `SUCCESS`. */
  lemma {:induction false} UpdatesOnlyAfterSuccess(ws: seq<Workout>, us: seq<Upload>, n: nat)
    requires |us| == |ws| && n <= |ws|
    ensures forall c :: c in UpdatesUpTo(ws, us, n) ==>
      exists i :: 0 <= i < n && us[i].Returned? && us[i].outcome.status == "SUCCESS" && c.id == us[i].outcome.idMsg
    decreases n
  {
    if n > 0 {
      UpdatesOnlyAfterSuccess(ws, us, n - 1);
      var prev, last := UpdatesUpTo(ws, us, n - 1), UploadUpdates(ws[n - 1], us[n - 1]);
      if us[n - 1].Returned? {
        UpdatesTargetUpload(ws[n - 1], us[n - 1].outcome);
      }
      forall c: Call | c in prev + last
        ensures exists i :: 0 <= i < n && us[i].Returned? && us[i].outcome.status == "SUCCESS" && c.id == us[i].outcome.idMsg
      {
        if c in last {
          assert us[n - 1].Returned? && us[n - 1].outcome.status == "SUCCESS" && c.id == us[n - 1].outcome.idMsg;
        } else {
          var i :| 0 <= i < n - 1 && us[i].Returned? && us[i].outcome.status == "SUCCESS" && c.id == us[i].outcome.idMsg;
          assert 0 <= i < n;
        }
      }
    }
  }

  /** Each update after one upload targets that upload, and only after `SUCCESS`. */
  lemma UpdatesTargetUpload(w: Workout, o: Outcome)
    ensures forall c :: c in Updates(w, o) ==> o.status == "SUCCESS" && c.id == o.idMsg
  {
  }

  /** The status computation after one upload: send the updates the
      report calls for, and fill in the fields. */
  method ReportOne(workout: Workout, outcome: Outcome) returns (line: StatusLine, calls: seq<Call>)
    ensures line == Line(workout, outcome)
    ensures calls == Updates(workout, outcome)
  {
    calls := [];
    var nstat, tstat := "N/A", "N/A";
    if outcome.status == "SUCCESS" {
      if Truthy(workout.name) {
        calls := calls + [SetName(outcome.idMsg, workout.name.value)];
        nstat := if outcome.nameAccepted then workout.name.value else "FAIL!";
      }
      if Truthy(workout.kind) {
        calls := calls + [SetType(outcome.idMsg, workout.kind.value)];
        tstat := if outcome.typeAccepted then workout.kind.value else "FAIL!";
      }
    }
    line := StatusLine(workout.filename, outcome.idMsg, outcome.status, nstat, tstat);
  }

  /** The status lines of the first `n` workouts whose uploads returned. */
  function LinesUpTo(ws: seq<Workout>, us: seq<Upload>, n: nat): seq<StatusLine>
    requires |us| == |ws| && n <= |ws|
    decreases n
  {
    if n == 0 then []
    else LinesUpTo(ws, us, n - 1) + if us[n - 1].Returned? then [Line(ws[n - 1], us[n - 1].outcome)] else []
  }

  /** When every upload returned, one line per workout, each the line of
      its own workout. */
  lemma {:induction false} LinesUpToPointwise(ws: seq<Workout>, us: seq<Upload>, n: nat)
    requires |us| == |ws| && n <= |ws|
    requires forall j :: 0 <= j < n ==> us[j].Returned?
    ensures |LinesUpTo(ws, us, n)| == n
    ensures forall i :: 0 <= i < n ==> LinesUpTo(ws, us, n)[i] == Line(ws[i], us[i].outcome)
    decreases n
  {
    if n > 0 {
      LinesUpToPointwise(ws, us, n - 1);
    }
  }

  /** One more upload that returned adds its line and its updates. */
  lemma ReportStep(ws: seq<Workout>, us: seq<Upload>, i: nat)
    requires |us| == |ws| && i < |ws| && us[i].Returned?
    ensures LinesUpTo(ws, us, i + 1) == LinesUpTo(ws, us, i) + [Line(ws[i], us[i].outcome)]
    ensures UpdatesUpTo(ws, us, i + 1) == UpdatesUpTo(ws, us, i) + Updates(ws[i], us[i].outcome)
  {
  }

  /** What the loop has printed and sent once it stops: the lines of the
      uploads that returned, in order, up to the first one that raised,
      and the updates of those uploads. */
  predicate Reported(ws: seq<Workout>, us: seq<Upload>, lines: seq<StatusLine>, calls: seq<Call>)
    requires |us| == |ws|
  {
    && |lines| <= |ws|
    && (forall i :: 0 <= i < |lines| ==> us[i].Returned? && lines[i] == Line(ws[i], us[i].outcome))
    && (|lines| < |ws| ==> us[|lines|].UploadRaised?)
    && calls == UpdatesUpTo(ws, us, |lines|)
  }

  /** The upload loop after login: one status line per workout, in list
      order, with the updates sent as the report says, until an upload
      raises; the exception then leaves the loop. */
  method UploadAll(workouts: seq<Workout>, uploads: seq<Upload>)
    returns (lines: seq<StatusLine>, calls: seq<Call>, raised: bool)
    requires |uploads| == |workouts|
    ensures |lines| <= |workouts|
    ensures forall i :: 0 <= i < |lines| ==> uploads[i].Returned? && lines[i] == Line(workouts[i], uploads[i].outcome)
    ensures raised <==> |lines| < |workouts|
    ensures raised ==> uploads[|lines|].UploadRaised?
    ensures calls == UpdatesUpTo(workouts, uploads, |lines|)
  {
    lines, calls := [], [];
    var i := 0;
    while i < |workouts| && uploads[i].Returned?
      invariant 0 <= i <= |workouts|
      invariant forall j :: 0 <= j < i ==> uploads[j].Returned?
      invariant lines == LinesUpTo(workouts, uploads, i)
      invariant calls == UpdatesUpTo(workouts, uploads, i)
    {
      var line, updates := ReportOne(workouts[i], uploads[i].outcome);
      ReportStep(workouts, uploads, i);
      lines, calls := lines + [line], calls + updates;
      i := i + 1;
    }
    LinesUpToPointwise(workouts, uploads, i);
    raised := i < |workouts|;
  }
}
