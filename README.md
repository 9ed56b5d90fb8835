# garmin-uploader, modelled in Dafny

garmin-uploader uploads fitness files (`.tcx`, `.fit`, `.gpx`) to Garmin
Connect. Two revisions live side by side. The older one is the standalone
script `gupload.py`, the `gupload` front end in `lib/cli.py`, and the client
`lib/UploadGarmin.py`. The newer one is the `garmin_uploader` package: the client
`api.py`, the batch `workflow.py`, its `user.py`, and a `cli.py` front end. This
project models the decisions these files make. The network, the file system
and the clock are abstract inputs. It also proves what those decisions guarantee.

Modules, in dependency order:

- `Base` (base.dfy): Option and Result, Python truthiness of an optional
  string, ASCII lower-casing, and the ASCII filter used for multipart file names.
- `Paths` (paths.dfy): `posixpath.splitext`/`basename`, the extension
  whitelist, the read mode (bytes only for `.fit`) and the ASCII file name.
- `Files` (files.dfy): an abstract file system. It holds the existing files and
  directories, the `glob` results and the CSV rows. On top of it sit
  `is_activity`/`checkFile`, `is_csv`, and the two path listings: the
  package's, which keeps list files apart, and the front ends', which append
  them to the file names.
- `Scrape` (scrape.dfy): the two regular expressions of the CAS login
  exchange (the hidden `lt` input of section 3.5 of the CAS Protocol 2.0,
  the service ticket of section 3.1 in a `var response_url` script) as token
  matchers under a leftmost `re.search`, and `str.rstrip`.
- `Garmin` (garmin.dfy): the server's answers as records. It covers the
  login handshake as a linear step machine, the classification of
  `detailedImportResult`, the activity-type lookup, the name and type echo
  checks, and the two rate-limit rules.
- `Uploader` (uploader.dfy): the `UploadGarmin` client class of both
  revisions. It has a `requests.Session` object that records what is sent and
  whether its cookie jar is non-empty.
- `Credentials` (credentials.dfy): where the login comes from (the command
  line, then the working directory's configuration file, then the home
  directory's), the masked password, and `obscurePassword`.
- `Batch` (report.dfy): the per-workout status line (`nstat`/`tstat`) and the
  name and type updates sent after an upload.
- `Users` (user.dfy): the package's `User`.
- `Package` (workflow.dfy): `Activity` and `Workflow` of the package.
- `PackageTests` (workflow_tests.dfy): the listings the package's tests
  look for, on a file system holding their fixture directory.
- `Cli` (cli.dfy): the `Workflow` of `garmin_uploader/cli.py`, and the listing
  and login-and-report steps it shares with `lib/cli.py`.
- `LegacyCli` (legacy_cli.dfy): the `gupload` object of `lib/cli.py`.
- `Script` (gupload.dfy): the straight-line script `gupload.py`, from
  reading the credentials to `exit()`.

Each method that changes state is proved against a function of its inputs
and its old state (`Listing`, `CliListing`, `WorkflowPaths`,
`CliFilenames`, `ScriptWorkouts`, `Authentication`, `Wait`,
`WorkflowLimit`, `Line`/`Updates`/`UpdatesUpTo`, `Choose`). The lemmas state
what the source promises about those functions.

`garmin_uploader/workflow.py:6-8` imports `VALID_GARMIN_FILE_EXTENSIONS` and
`BINARY_FILE_FORMATS` from `garmin_uploader/__init__.py`, which defines
neither of them. The front ends read the same names from an `uploader`
module that is not part of this model. Everywhere, the model uses the values of
`lib/UploadGarmin.py:44-45`: `('.tcx', '.fit', '.gpx')` and `('.fit',)`.
These are also the values `gupload.py:175` writes out.

## Model

| member | source | states |
|---|---|---|
| Paths.ExtensionShape | garmin_uploader/api.py:191 | the extension is empty or starts at the last dot of the last path component, holds no `/` and no further dot, and is a suffix of the path |
| Paths.Basename | garmin_uploader/workflow.py:58 | the base name is the suffix of the path after its last `/` |
| Paths.ModeFor | lib/UploadGarmin.py:264-267 | the file is opened `rb` exactly for `.fit` |
| Paths.UploadGateDecides | garmin_uploader/api.py:191-200 | the upload goes ahead exactly when the lower-cased extension is `.tcx`, `.fit` or `.gpx`; it then carries that extension and the binary mode exactly for `.fit` |
| Paths.GateAcceptsGpxAsText | garmin_uploader/api.py:191-200 | `x.gpx` passes and is read as text |
| Paths.GateAcceptsUpperFitAsBinary | garmin_uploader/api.py:191-200 | `X.FIT` passes, since the test is on the lower-cased extension, and is read as bytes |
| Paths.GateRejects | garmin_uploader/api.py:191-195 | `x.jpg` is refused, and so is `.fit`, whose only dot is leading |
| Paths.AsciiNameSound | garmin_uploader/api.py:212-215 | the multipart name is ASCII and a subsequence of the path; it equals the path exactly when the path is ASCII |
| Scrape.SearchFindsLeftmost | lib/UploadGarmin.py:204 | `re.search` finds nothing exactly when no position matches, and otherwise answers the match at the leftmost matching position |
| Scrape.MatchCaptures | lib/UploadGarmin.py:203-207 | a match at one position captures only characters of the group's class, and at least one |
| Scrape.SearchCaptures | lib/UploadGarmin.py:203-207 | the same holds for the leftmost match |
| Scrape.TicketsInClass | lib/UploadGarmin.py:203-233 | a login ticket found is a non-empty `\w` run and a service ticket found is a non-empty `[\w\-]` run |
| Scrape.LoginTicketOfInput | lib/UploadGarmin.py:203 | the hidden `lt` input, with any non-empty blank runs, matches and yields its value |
| Scrape.FindLoginTicketOfPage | lib/UploadGarmin.py:203-207 | a page whose only `<` before the input is the input's own yields that input's ticket |
| Scrape.NoTicketWithoutEquals | lib/UploadGarmin.py:228 | `ticket=` cannot match where the seventh character is not `=` |
| Scrape.ServiceTicketOfScript | lib/UploadGarmin.py:228 | the `var response_url = '…ticket=…'` line yields its ticket when the URL before it has no newline and no `=` |
| Scrape.FindServiceTicketOfPage | lib/UploadGarmin.py:228-233 | a body with no `v` before that script yields the script's ticket |
| Scrape.NewlineStopsLazy | lib/UploadGarmin.py:228 | a newline before `ticket=` stops the lazy `.*?`, so that ticket is not found |
| Scrape.RStrip | lib/UploadGarmin.py:169 | `rstrip` gives a prefix that does not end in the character set, and only characters of the set are removed |
| Scrape.RStripUnique | lib/UploadGarmin.py:169 | any prefix with those properties is the result of `rstrip` |
| Scrape.SsoHostnameStripsCharacters | lib/UploadGarmin.py:169 | `rstrip('.garmin.com')` removes a character set: `sso.garmin.com` becomes `ss` and `connect.garmin.com` becomes `connect` |
| Garmin.HandshakeShape | garmin_uploader/api.py:91-186 | the requests go out in the fixed order; the first failing step raises with exactly the requests up to it sent; the cookie flag says whether an answered request set one; success needs a truthy `username` and a post-login answer that is 200 or redirected |
| Garmin.Authentication | garmin_uploader/api.py:92-94 | with cookies in the session, nothing is sent and the call succeeds; otherwise the handshake runs |
| Garmin.HandshakeForwardsTickets | garmin_uploader/api.py:131-180 | on success the five requests carry the trimmed host, the scraped login ticket and the scraped service ticket |
| Garmin.HandshakeSucceedsWith | garmin_uploader/api.py:96-186 | with every status the client wants and all three values found, the handshake succeeds and forwards both tickets |
| Garmin.HandshakeSucceedsOnWellFormedPages | garmin_uploader/api.py:96-186 | well-formed login and credential pages log in, and the tickets sent are those written into the pages |
| Garmin.HandshakeIgnoresCookies | garmin_uploader/api.py:96-186 | no step looks at the cookie jar: the outcome and the requests do not depend on which replies set cookies |
| Garmin.StatusWord | garmin_uploader/api.py:226-236 | the status word is `SUCCESS` or `EXISTS` exactly for those outcomes |
| Garmin.Classify | garmin_uploader/api.py:224-236 | non-empty successes give SUCCESS with the first id; otherwise a first failure whose first message has code 202 gives EXISTS with its id; another code gives FAIL with its messages; no failures gives the unknown error; a first failure without messages raises |
| Garmin.SuccessOutranksFailures | garmin_uploader/api.py:226-236 | any success wins over any failure |
| Garmin.FirstTypeMatch | garmin_uploader/api.py:265-268 | the index found is the first whose key equals the lower-cased input or whose lower-cased label does |
| Garmin.FindActivityType | garmin_uploader/api.py:259-270 | the lookup fails (`False`) exactly when no entry matches; otherwise it answers the key of a matching entry |
| Garmin.FindActivityTypeOfEntry | garmin_uploader/api.py:265-268 | an entry that matches with no earlier match yields its own key |
| Garmin.FirstTypeMatchIgnoresCase | garmin_uploader/api.py:266 | inputs equal after lower-casing stop at the same entry |
| Garmin.FindActivityTypeIgnoresCase | garmin_uploader/api.py:266 | inputs differing only in case resolve to the same key |
| Garmin.NameConfirmed | garmin_uploader/api.py:246-256 | True exactly for a 200 answer echoing the requested name; a 200 answer without the echo raises |
| Garmin.TypeConfirmed | garmin_uploader/api.py:283-292 | True exactly for a 200 answer whose `activityType.key` is the key sent; a key sent as `False` never matches; a 200 answer whose `activityType` has no `key` raises KeyError, and nothing else raises |
| Garmin.LimiterBase | garmin_uploader/api.py:76-77 | an unset or zero last start counts as 0.0 |
| Garmin.Wait | garmin_uploader/api.py:79 | the wait is non-negative and puts a full second after the last start, or is zero |
| Garmin.WaitIsLeast | garmin_uploader/api.py:79 | no shorter wait would do |
| Garmin.WaitAtMostOne | garmin_uploader/api.py:79 | under a clock not behind the last start, the wait is at most one second |
| Garmin.StartsSpaced | garmin_uploader/api.py:74-83 | the starts recorded over a series of calls are at least one second apart, whatever the clock reads |
| Garmin.WorkflowLimit | garmin_uploader/workflow.py:229-240 | the workflow waits as the client does, but records the time only after a positive wait, and otherwise keeps the base |
| Garmin.WorkflowNeverWaitsAfterFirstSecond | garmin_uploader/workflow.py:229-240 | with no last request and a clock past one second, the workflow never waits, however close together the calls come |
| Garmin.WorkflowLetsCloseCallsThrough | garmin_uploader/workflow.py:229-240 | two calls half a second apart at clock 5.0 and 5.5 both go through without waiting |
| Garmin.IntendedWorkflowLimit | garmin_uploader/workflow.py:229-240 | the corrected rule waits as the client does and always records a start at least one second after the previous base |
| Garmin.IntendedWorkflowSpaced | garmin_uploader/workflow.py:229-240 | the corrected rule records exactly the client's starts, so the recorded starts are at least one second apart |
| Garmin.IntendedWorkflowWaitsForCloseCalls | garmin_uploader/workflow.py:229-240 | on the same two calls the corrected rule makes the second start at 6.0 |
| Uploader.UploadGarmin.constructor | garmin_uploader/api.py:60-72 | a new client has no credentials, a session with no cookies that has sent nothing, and no timed request |
| Uploader.UploadGarmin.RateLimit | garmin_uploader/api.py:74-83 | sleeps `Wait` and records the post-sleep time, which is at least one second after the previous base; nothing else changes |
| Uploader.UploadGarmin.Authenticate | garmin_uploader/api.py:91-186 | sends exactly the requests of `Authentication`, keeps the cookies they set, and returns True or raises that run's error |
| Uploader.UploadGarmin.Login | garmin_uploader/api.py:86-89 | stores the credentials, then authenticates with them |
| Uploader.UploadGarmin.UploadFile | garmin_uploader/api.py:189-236 | a bad extension or a missing file raises before anything is sent or timed; otherwise the file is opened in the mode of its extension and the handshake runs; a failed handshake raises with only its requests sent and its cookies kept; after the rate limit the POST carries the extension and the ASCII name; a non-ok answer raises; otherwise the outcome is `Classify`'s; in every branch the cookie flag and the last start are stated |
| Uploader.UploadGarmin.SetActivityName | garmin_uploader/api.py:238-256 | authenticates, waits, POSTs the name, and answers True exactly when the echo is the name; an answer with no echo raises; a failed authentication raises with nothing timed; every branch states the requests sent, the cookie flag and the last start |
| Uploader.UploadGarmin.NameWorkout | lib/UploadGarmin.py:326-328 | the alias has the same contract as `set_workout_name`: the same requests, cookie flag, last start and answer |
| Uploader.UploadGarmin.CheckActivityType | garmin_uploader/api.py:259-270 | the lookup over the stored hierarchy: `False` exactly when nothing matches, otherwise a matching key |
| Uploader.UploadGarmin.SetActivityType | garmin_uploader/api.py:272-292 | never takes the `is None` exit: the POST goes out even for an unknown type and carries `False`; the answer is True exactly for a 200 echo of a found key; a 200 answer with no `key` raises KeyError; a failed authentication raises with nothing timed; every branch states the cookie flag and the last start |
| Uploader.RetryAfterFailedLogin | garmin_uploader/api.py:92-100 | a failed first step that set a cookie makes the next authenticate send nothing and report success |
| Files.ListFileIsNeverActivity | garmin_uploader/workflow.py:138-165 | no path passes both `is_csv` and `is_activity` |
| Files.ActivitiesFilter | garmin_uploader/workflow.py:183-186 | the filter keeps exactly the activity files, in their order |
| Files.KeptName | garmin_uploader/workflow.py:190-192 | the name survives a count of one; otherwise it becomes falsy; a falsy name is left alone |
| Files.WorkflowPathsSound | garmin_uploader/workflow.py:167-186 | the package's direct paths are all activity files, and its list files are exactly the CSV paths given |
| Files.FilesKeptInOrder | garmin_uploader/workflow.py:167-186 | activity paths alone are kept as given, in order, with no list files |
| Files.CliFilenamesSound | garmin_uploader/cli.py:100-116 | the front ends' file names are activity files or CSV paths given; every activity or CSV path given is among them |
| Files.CliFilesKeptInOrder | garmin_uploader/cli.py:100-116 | activity paths alone are kept as given, in order |
| Files.CliAppendsActivity | garmin_uploader/cli.py:103-105 | an activity path is appended after the names of the earlier paths |
| Files.ListFileRoutes | garmin_uploader/workflow.py:174-177 | a CSV path goes to the package's list files, while the front ends (garmin_uploader/cli.py:107-110) append it to the file names |
| Files.ListFilenames | garmin_uploader/cli.py:100-116 | the listing loop of both front ends (also lib/cli.py:130-146) computes `CliFilenames` |
| Credentials.CommandLineOverridesConfigs | garmin_uploader/user.py:26-29 | a pair of non-empty command-line values is used whatever the configuration files hold, by the package, by lib/cli.py and by gupload.py |
| Credentials.WorkingDirectoryBeforeHome | garmin_uploader/user.py:30-47 | without a complete pair, an existing working-directory file decides and the home file is not read; the home file is read only when that one is absent; with neither, credentials are missing |
| Credentials.EmptyPairDiffers | gupload.py:122-125 | the package ignores an empty or half-given pair, while gupload.py uses even an empty `-l` pair |
| Credentials.Masked | garmin_uploader/user.py:55 | the logged password is one `*` per character |
| Credentials.ObscuredShape | gupload.py:144-155 | the obscured password has the password's length and only `*` inside it; at length 3 or more it shows the first and last characters; at length 1 or 2 it ends in `*` |
| Credentials.ObscurePassword | gupload.py:144-155 | the loop computes `Obscured`; an empty password is the IndexError |
| Batch.NoUpdateUnlessSuccess | garmin_uploader/user.py:74-88 | an upload that is not `SUCCESS`, `EXISTS` included, sends no update, and both fields stay `N/A` |
| Batch.NameFieldMatchesCall | garmin_uploader/user.py:76-82 | a rename is sent exactly after `SUCCESS` with a truthy name; the field then shows the name or `FAIL!`, as the update was accepted or not, and `N/A` otherwise |
| Batch.TypeFieldMatchesCall | garmin_uploader/user.py:83-88 | the same for the type field and the retype |
| Batch.UpdatesOnlyAfterSuccess | garmin_uploader/cli.py:166-185 | every update sent for the first n workouts targets the id of one of them whose upload returned `SUCCESS` |
| Batch.ReportOne | garmin_uploader/user.py:73-91 | one upload's status line and updates are `Line` and `Updates` |
| Batch.UploadAll | garmin_uploader/cli.py:166-185 | one status line per workout, in order, up to the first upload that raises, which ends the loop; the updates are those of the workouts reported; the loop raised exactly when some workout has no line |
| Users.User.constructor | garmin_uploader/user.py:12-14 | a new user holds the chosen credentials and no session |
| Users.User.Authenticate | garmin_uploader/user.py:49-64 | the API's answer is stored whatever it is; a missing session raises the login failure |
| Users.User.Upload | garmin_uploader/user.py:66-91 | needs a session; the status line and updates are those of `Batch`, with no update and `N/A` fields unless `SUCCESS` |
| Users.NewUser | garmin_uploader/user.py:12-47 | building a user fails exactly when no credential source applies, with that cause; otherwise the user holds the chosen credentials and no session |
| Package.ReprAfterUpload | garmin_uploader/workflow.py:24-28 | `repr` is the name, or the file name when the name is falsy, and an upload only adds the `<id> : ` prefix |
| Package.Activity.constructor | garmin_uploader/workflow.py:17-22 | a new activity has no id and keeps its path, name, type and notes |
| Package.Activity.Filename | garmin_uploader/workflow.py:44-64 | the file name is the base name made ASCII by dropping what does not encode |
| Package.Activity.Extension | garmin_uploader/workflow.py:34-42 | the lower-cased extension when it is whitelisted; otherwise the "Invalid File Extension" exception |
| Package.Activity.OpenMode | garmin_uploader/workflow.py:66-71 | raises exactly when `extension` does; otherwise `rb` exactly for `.fit` |
| Package.Activity.Upload | garmin_uploader/workflow.py:73-100 | a rejected upload keeps the id and returns False; an accepted one sets the id and returns True; the info update is sent exactly for a new upload with a truthy name, type or notes |
| Package.RowEntryAsWritten | garmin_uploader/workflow.py:204-207 | a row naming an activity file yields an activity with notes; such a row without a `notes` column raises KeyError('notes') |
| Package.RowEntry | garmin_uploader/workflow.py:204-207 | a row yields an activity only for an activity file |
| Package.RowEntryReads | garmin_uploader/workflow.py:204-207 | a row raises exactly when it has no `filename`, or names an activity file and lacks `name` or `type`; it is skipped exactly when its file is not an activity; an entry carries the row's filename, name and type, and its notes exactly when the column is there |
| Package.RowEntryAgreesWithNotes | garmin_uploader/workflow.py:205 | on rows that have a `notes` column, the corrected reading agrees with the code as written |
| Package.DirectEntries | garmin_uploader/workflow.py:195-198 | one activity per direct path, in order, all with the same name and type and no notes |
| Package.RowsEntriesAreActivities | garmin_uploader/workflow.py:204-207 | every activity listed by a file's rows is an activity file |
| Package.RowsEntriesFilter | garmin_uploader/workflow.py:204-207 | a file's rows read exactly when every row reads; a failure is the first row's error; the activities listed are exactly the entries of the rows that yield one |
| Package.CsvEntriesAreActivities | garmin_uploader/workflow.py:200-208 | every activity listed by the list files is an activity file |
| Package.CsvErrorSticks | garmin_uploader/workflow.py:200-208 | once one list file raises, the whole listing raises that error |
| Package.ListingProperties | garmin_uploader/workflow.py:126-213 | with the corrected row reading `RowEntry` of the workflow.py:205 Findings row: every activity listed is an activity file; the direct paths come first, in order, with the kept name and the type, and the rest are exactly `CsvEntries` of the list files; the listing succeeds exactly when the list files read and something was found |
| Package.CollectPaths | garmin_uploader/workflow.py:167-186 | the path loop computes `WorkflowPaths` |
| Package.MakeActivities | garmin_uploader/workflow.py:195-198 | one new, distinct activity per entry, with no id |
| Package.LoadListFiles | garmin_uploader/workflow.py:200-208 | with the corrected row reading `RowEntry`: the list-file loop yields new, distinct activities for `CsvEntries`, or raises its first error |
| Package.Workflow.constructor | garmin_uploader/workflow.py:112-118 | a new workflow keeps the command-line name and type, with no last request |
| Package.Workflow.LoadActivities | garmin_uploader/workflow.py:126-213 | with the corrected row reading `RowEntry`: the name field becomes `KeptName` of the direct paths' count; the new activities describe `Listing`, or its error is raised |
| Package.Workflow.RateLimit | garmin_uploader/workflow.py:229-240 | the wait and the new last request are `WorkflowLimit`'s; nothing else changes |
| Package.Workflow.RunAsWritten | garmin_uploader/workflow.py:215-221 | the run always raises: a failed login raises from `authenticate`, and a successful one returns None, which fails the test |
| Package.Workflow.Run | garmin_uploader/workflow.py:215-240 | a failed login raises with no upload and no wait; otherwise each activity in order gets one `rate_limit` (the waits are `WorkflowWaits`, the final last request `WorkflowLast`) and one upload, whose id and result follow the answer; the name, the type and the user's credentials are unchanged |
| Package.NewWorkflow | garmin_uploader/workflow.py:112-124 | with the corrected row reading `RowEntry`: the activities are listed before the user is built; either step's error is raised, and the workflow is built exactly when both succeed; it then holds activities describing `Listing`, the kept name, the type, and a user with the chosen credentials and no session |
| PackageTests.TestListFileAsWritten | tests/test_workflow.py:14-21 | the fixture's three-column list file makes the code as written raise KeyError('notes') on its first row |
| PackageTests.ThreeColumnRow | tests/conftest.py:34-40 | a `filename,name,type` row for an activity file lists it without notes when notes are optional, and raises as written |
| PackageTests.TestListFile | tests/test_workflow.py:14-21 | with notes optional, the list file yields the one existing file, named `AAAA` of type `running`, and skips `nope.fit` |
| PackageTests.TestDirectoryEntries | tests/conftest.py:26-58 | the fixture directory's activity files are `a.fit` and `a.tcx`, in glob order, without `invalid.txt` or `list.csv` |
| PackageTests.TestDirectory | tests/test_workflow.py:7-12 | the directory lists `a.fit` and `a.tcx`, and not `invalid.txt` |
| PackageTests.TestSingleFile | tests/test_workflow.py:23-28 | a single file keeps the name `Test TCX` and the type `cycling` |
| PackageTests.TestTwoFiles | tests/test_workflow.py:30-44 | two files drop the name and keep the type `cycling` |
| Cli.CliListingProperties | garmin_uploader/cli.py:60-143 | the listing raises only when no path is an activity file, a list file or a directory with activity files; every workout has the type and is an activity file or a CSV path given; the name survives only for a single workout; every such path given is listed |
| Cli.ListFileUploadedAsWorkout | garmin_uploader/cli.py:107-110 | a CSV path becomes a workout of its own, and its upload is then refused on its extension |
| Cli.ActivitiesInOrder | garmin_uploader/cli.py:100-128 | activity files alone become workouts in the order given, named only when there is one |
| Cli.BuildWorkouts | garmin_uploader/cli.py:124-128 | one workout per file name, in order, with the kept name and the type |
| Cli.LoadWorkouts | garmin_uploader/cli.py:60-143 | the new name field is `KeptName` of the count found, and the result is `CliListing` |
| Cli.Workflow.constructor | garmin_uploader/cli.py:47-51 | a new workflow keeps the command-line name and type |
| Cli.Workflow.LoadActivities | garmin_uploader/cli.py:60-143 | the name field becomes `KeptName`, and the result is `CliListing` |
| Cli.Workflow.RunAsWritten | garmin_uploader/cli.py:146-151 | `run` raises AttributeError on `self.username` before logging in or uploading |
| Cli.Workflow.Run | garmin_uploader/cli.py:146-185 | with the user's credentials: the masked password is logged; a failed login raises before any upload; otherwise the lines and updates are `Reported`: one line per workout in order until an upload raises, which ends the run with that error |
| Cli.LoginAndReport | garmin_uploader/cli.py:150-185 | the login-then-report step shared by both front ends: a refused login raises with nothing uploaded; otherwise `Reported`, and the step succeeds exactly when every workout got its line |
| Cli.NewWorkflow | garmin_uploader/cli.py:47-57 | the workouts are listed before the user is built; a failed listing raises `No valid files.`; otherwise missing credentials raise; the workflow is built exactly when both succeed, and holds the listing, the kept name, the type and the chosen credentials |
| LegacyCli.Gupload.constructor | lib/cli.py:45-51 | a new front end keeps the command-line name and type |
| LegacyCli.Gupload.LoadActivities | lib/cli.py:90-173 | the name field becomes `KeptName` of the count found, and the result is `CliListing` |
| LegacyCli.Gupload.LoadCredentials | lib/cli.py:64-88 | the stored credentials are those `Choose` picks; when none applies, the error is raised and nothing changes |
| LegacyCli.Gupload.Upload | lib/cli.py:176-216 | the masked password is logged; a failed login raises before any upload; otherwise the lines and updates are `Reported`, and an upload that raises ends the loop with that error |
| LegacyCli.NewGupload | lib/cli.py:45-88 | the workouts are listed before the credentials are read; either error is raised, and the object is built exactly when both succeed; it holds the listing, the kept name, the type and the chosen credentials |
| Script.ScriptWorkoutsSound | gupload.py:185-198 | every workout passes `checkFile`, and every argument without `*` that passes it is a workout |
| Script.PlainArgumentsFiltered | gupload.py:187-191 | without wildcards, the workouts are the arguments that pass `checkFile`, in order |
| Script.AppendChecked | gupload.py:195-198 | the wildcard loop appends the expansions that pass `checkFile`, in glob order |
| Script.BuildWorkoutList | gupload.py:185-198 | the argument loop computes `ScriptWorkouts` |
| Script.ScriptUpdatesOnlyForOne | gupload.py:232-245 | an update is sent only for a single workout whose upload reported `SUCCESS`; it is sent then for a truthy name and a truthy type |
| Script.Sent | gupload.py:234-245 | the updates sent are a prefix of those planned; all are sent with no exception exactly when every answer returns; otherwise the last one sent is the first that raised, with its exception |
| Script.SentAfterRename | gupload.py:234-245 | a raising rename is the only update sent and ends the script; a raising retype ends it after the rename; otherwise both planned updates are sent |
| Script.RaisingRenameSkipsRetype | gupload.py:234-245 | a rename that raises (a failed re-authentication, an answer without the name echo) is the last update sent: the retype is never sent |
| Script.UploadWorkouts | gupload.py:228-245 | one line per workout, in order, until an upload raises, which sends no update; otherwise the single-workout updates are `Sent`: the first that raises is the last sent and ends the script with its exception |
| Script.ScriptLogin | gupload.py:216-223 | the client's login answers True or raises, so the script goes on exactly when the login returns, raises its exception otherwise, and never reaches `exit(1)` |
| Script.IntendedLoginEnd | gupload.py:216-223 | the intended ending goes on exactly after a True login and otherwise exits 1 |
| Script.IntendedScriptLogin | gupload.py:216-223 | with the client's answers, the intended script exits 1 exactly when the login raises, which is where the script as written differs |
| Script.Gupload | gupload.py:122-247 | a configuration error raises or exits 1; an empty password raises IndexError; no workouts exits 1 before logging in; a login that raises ends the script with that exception, and one answering False would exit 1; otherwise one line per workout, in order, until an upload raises and ends the script; with all uploaded, the single-workout updates are `Sent`, and the script exits 0 unless one of them raises, which ends it with that exception |

## Left out

- The HTTP transport is left out. `requests` and JSON decoding are not modelled: each reply is a record of status, redirect history, cookie flag and the decoded field the client reads. The fixed SSO query parameters and the headers are left out too.
- The constructor's download of the activity-type dictionary (garmin_uploader/api.py:61-62) is not modelled; the dictionary is a constructor argument.
- `os.path.realpath` is left out: paths are taken as already absolute and canonical.
- `ConfigParser` is reduced to "file absent", "both options present" or "an option missing"; its parsing and its exception types are left out.
- `csv.DictReader` is reduced to the rows as maps. Short rows that fill missing cells with None are not modelled.
- Logging, log levels (`-v`), handlers and `print` formatting beyond the status-line fields are left out.
- Time is an abstract real clock. The reading before the sleep and the amount the sleep overshoots are parameters. Float rounding is not modelled.
- Paths.AsciiNameSound, Package.Activity.Filename: the name is made ASCII by dropping the characters that do not encode, as the comments at garmin_uploader/api.py:202-211, lib/UploadGarmin.py:269-278 and garmin_uploader/workflow.py:47-57 say it should. Under Python 2, which the package targets (garmin_uploader/user.py uses the `print` statement), the code does not do that: on a non-ASCII byte string, `encode('ascii')` first decodes it implicitly as ASCII and raises UnicodeDecodeError, which `except UnicodeEncodeError` does not catch; on a non-ASCII unicode name, the UnicodeEncodeError of `encode('ascii')` is caught, but the fallback `decode('ascii', 'ignore')` first encodes the name implicitly as strict ASCII and raises UnicodeEncodeError, uncaught. The model does not raise there. Names are sequences of code points, and the other Python 2/3 Unicode distinctions are left out.
- `GarminAPI`, `upload_activity`, `set_activity_info` and `GarminAPIException` are not part of this model. Their answers (a session or none, an upload answer) are parameters.
- The `uploader` module that garmin_uploader/cli.py and lib/cli.py call is not part of this model. Whether the login succeeds is a function parameter, and each workout's upload is given: an outcome, or an exception that ends the loop.
- Batch.UploadAll, Cli.Workflow.Run, LegacyCli.Gupload.Upload: these front ends drive the `uploader` module; an exception from `set_activity_name` or `set_activity_type` after a successful upload is not modelled; the update's answer is taken as given (True or False).
- Users.User.Upload: takes the outcome `upload_file` returned; a raising `upload_file` is modelled in the loops that call it (Batch.UploadAll), not in this method.
- Package.Activity.Upload: what `set_activity_info` sends is not modelled, only whether it is called; an exception from it is only logged, so it changes nothing the model observes.
- The list-file loops of garmin_uploader/cli.py:131-136 and lib/cli.py:161-166 are not modelled: `listfiles` is never filled, so they never run.
- The `argparse` set-up and the `main` functions of the front ends are left out; the parsed values are parameters.
- Platform-dependent configuration file names are left out: the two files are "the working directory's" and "the home directory's".
- The `__main__` block of lib/UploadGarmin.py (a manual smoke run calling a method that does not exist) is left out.
- Scrape.Search: only the two regular expressions the client uses are modelled, as token sequences, and not general regular expressions.
- The live-account tests (tests/test_user.py, tests/test_api.py and the account fixture of tests/conftest.py) are left out; they need the remote service.

## Findings

| source | as written | input that shows it | evidently intended | confidence | as-written member | corrected member |
|---|---|---|---|---|---|---|
| garmin_uploader/workflow.py:220 | `if not self.user.authenticate()` tests the return value of `User.authenticate`, which has no return statement (garmin_uploader/user.py:49-64), so a successful login yields None and `run` raises 'Invalid credentials' | any login the API accepts (`answer` = Some session) | raise only when the login fails, then upload every activity | not executed | Package.Workflow.RunAsWritten | Package.Workflow.Run |
| garmin_uploader/cli.py:150 | `run` reads `self.username` and `self.password`, which this `Workflow` never sets (it keeps a `User` in `self.user`) | any workflow whose listing and credentials succeeded | log in with `self.user.username` and `self.user.password` | not executed | Cli.Workflow.RunAsWritten | Cli.Workflow.Run |
| garmin_uploader/workflow.py:205 | every row naming an existing activity file reads `row['notes']`, so a list file without a `notes` column raises KeyError | the three-column list file `filename,name,type` of tests/conftest.py:34-40, whose first row names `a.fit` (PackageTests.TestListFileAsWritten) | notes optional, as the package's own test looks for the `AAAA` activity (PackageTests.TestListFile) | not executed | Package.RowEntryAsWritten | Package.RowEntry |
| gupload.py:219-221 | `if not g.login(...)` exits 1 on a False answer, but `login` (lib/UploadGarmin.py:153-253) returns True or raises, so a refused login ends the script with the client's exception and `exit(1)` is dead code | a first SSO request answered with a status of 400 or more, which raises at lib/UploadGarmin.py:167 | log `LOGIN FAILED` and exit 1 on any failed login | not executed | Script.ScriptLogin | Script.IntendedScriptLogin |
| garmin_uploader/workflow.py:229-240 | `if not self.last_request: self.last_request = 0.0` keeps 0.0, and the time is recorded only after a positive wait, so once the clock is past its first second no call ever waits | two calls at clock 5.0 and 5.5 (Garmin.WorkflowLetsCloseCallsThrough) | record the start after every call, as the client's `_rate_limit` does, so calls are a second apart | not executed | Garmin.WorkflowNeverWaitsAfterFirstSecond | Garmin.IntendedWorkflowSpaced |
