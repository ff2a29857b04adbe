# GCP free-tier guard and two-user chat: a Dafny model

This project models the decision logic of a small repository with two parts.

The first part is a chat server. Its process-wide `users` set admits at most
two names to `main_room`. A join is announced to the room, and every message
is relayed to that room as it came.

The second part is a tool that keeps a Google Cloud project inside the free
tier. It has four pieces:
- **The gcloud-CLI monitor.** It classifies the instance and bucket records
  the CLI lists, counts violations for the report, decides whether a
  monitoring run succeeds, and picks which emergency procedures to start
  (stop instances, empty buckets).
- **The client-library monitor.** It applies the same rules through the Google
  Cloud client objects. It keeps a `violations` list that every run extends.
- **A cross-check of the two engines.** It proves they find the same running
  instances and the same violations on well-formed zones, and names where
  they differ.
- **The Jenkins stage gate.** It runs the CLI monitor before or after a
  deployment and warns about heavy Dockerfiles. It writes a `KEY=VALUE`
  properties file and turns the stage's result into the job's exit code.

All cloud, subprocess, file and socket calls are outside the model. What they
return enters as input values:
- listings that may have failed;
- how each `gcloud`, `gsutil` or client call ended;
- the Dockerfile text;
- the `date` output;
- the monitor's return code.

Modules, one file each:
- `PyText` (`pytext.dfy`): the Python `str` operations the code relies on.
  These are `split`, `join`, `split(c)[-1]`, `rsplit(c, 1)`, `in`, `strip()`
  and `str(int)`. Each comes with its laws.
- `FreeTier` (`freetier.dfy`): what the two monitors share.
  - The limits.
  - The violation and result values.
  - The per-instance, count and bucket-location rules.
  - `all_violations` and the report total.
- `SimpleMonitor` (`simple_monitor.dfy`): `gcp_free_tier_monitor_simple.py`.
- `ClientMonitor` (`client_monitor.dfy`): `gcp_free_tier_monitor.py`. The
  monitor object is the class `Monitor`, with its `violations` field.
- `EngineAgreement` (`engine_agreement.dfy`): the two compute engines compared.
- `JenkinsGate` (`jenkins_gate.dfy`): `jenkins_gcp_monitor.py`.
- `ChatRoom` (`chat_room.dfy`): `app.py`. The module state is the class
  `ChatServer`.

Where the code builds a list in a loop, or updates a flag or a field, the model
is a method with that loop. The method is proved against a specification
function, and the properties are lemmas about that function.

Violations are modelled as structured values, not as the source's f-strings,
because the two monitors word them differently. A structured value keeps
exactly the fields the messages show, except the floating-point sizes (see Left out
below).

## Model

| member | source | states |
|---|---|---|
| PyText.SplitPieces | gcp_free_tier_monitor_simple.py:91-93 | `s.split(c)` has one piece more than `s` has separators, and no piece contains the separator |
| PyText.JoinSplit | gcp_free_tier_monitor_simple.py:93 | `c.join(s.split(c)) == s` |
| PyText.SplitAround | gcp_free_tier_monitor_simple.py:93 | splitting `a + c + b` at `c` gives the pieces of `a` followed by the pieces of `b` |
| PyText.LastSegment | gcp_free_tier_monitor_simple.py:91-92 | `s.split('/')[-1]` is the suffix of `s` after its last '/', or all of `s` when it has none, and holds no '/' |
| PyText.DropLastPartIsPrefix | gcp_free_tier_monitor_simple.py:93 | `'-'.join(z.split('-')[:-1])` is `z` up to its last '-', and "" when `z` has no '-' |
| PyText.LastIndexOf | gcp_free_tier_monitor.py:129 | the index of the last occurrence, or -1 exactly when the character does not occur |
| PyText.Contains | jenkins_gcp_monitor.py:123 | `p in s` holds exactly when `p` occurs in `s` at some index |
| PyText.CountChar | jenkins_gcp_monitor.py:129 | the count is 0 exactly when the character is absent, and never exceeds the length |
| PyText.Strip | jenkins_gcp_monitor.py:153 | `strip()` gives a contiguous part of the text with only whitespace (every character `str.isspace()` accepts) before and after it, and no whitespace at either of its own ends |
| PyText.StripAround | jenkins_gcp_monitor.py:153 | any whitespace around a text without whitespace at its ends is removed exactly, so `strip()` of the `date` line is the line without its newline |
| PyText.StripRemovesSeparatorControls | jenkins_gcp_monitor.py:153 | the controls 0x1C-0x1F count as whitespace: `"\x1fMon".strip()` is `"Mon"` |
| PyText.NatToString | app.py:20 | `str(n)` of a natural number is a non-empty run of decimal digits, without a leading zero unless `n` is 0 |
| PyText.IntToString | app.py:20 | `str(i)` is non-empty and starts with '-' exactly when `i` is negative |
| PyText.IntToStringRoundTrip | app.py:20 | reading `str(i)` back as a decimal number gives `i` |
| FreeTier.TypeViolationIff | gcp_free_tier_monitor_simple.py:105-107 | a running instance gets a type violation iff its machine type is not `f1-micro` |
| FreeTier.RegionViolationIff | gcp_free_tier_monitor_simple.py:109-111 | a running instance gets a region violation iff its region is not `us-west1`, `us-central1` or `us-east1` |
| FreeTier.PerInstanceViolationKinds | gcp_free_tier_monitor_simple.py:105-111 | the per-instance rules raise only type and region violations |
| FreeTier.PerInstanceViolationCount | gcp_free_tier_monitor_simple.py:105-111 | the per-instance violations number type mismatches plus region mismatches |
| FreeTier.PerInstanceViolationsStep | gcp_free_tier_monitor_simple.py:103-111 | one more running instance appends exactly its own violations, type first |
| FreeTier.LocationViolationIff | gcp_free_tier_monitor_simple.py:167-169 | a bucket gets a location violation iff its location is not exactly one of `US-WEST1`, `US-CENTRAL1`, `US-EAST1`, `US`; only location violations arise, at most one per bucket |
| FreeTier.LocationViolationsStep | gcp_free_tier_monitor.py:190-192 | one more bucket record appends its own location violation, if any |
| FreeTier.LocationRuleIsCaseSensitive | gcp_free_tier_monitor_simple.py:168 | `us-west1` is a violation and `US-WEST1` is not |
| FreeTier.ClassifyInstance | gcp_free_tier_monitor_simple.py:105-111 | the two checks on one running instance give exactly that instance's violations, type first |
| FreeTier.EmergencyPlanActs | gcp_free_tier_monitor_simple.py:366-376 | instances are stopped iff the compute result has violations and instances; buckets are emptied iff the storage result has violations and buckets; no bucket is ever deleted; the stop comes first |
| FreeTier.StartEmergencyProcedures | gcp_free_tier_monitor.py:407-417 | the two guarded emergency calls issue exactly the plan that `EmergencyPlanActs` describes |
| FreeTier.GatherViolations | gcp_free_tier_monitor_simple.py:352-358 | the loop over the results collects every result's violations in result order, and its flag is set iff anything was collected |
| FreeTier.AllViolationsOfTwo | gcp_free_tier_monitor_simple.py:352-358 | `all_violations` of the compute and storage results is their two lists concatenated in that order |
| FreeTier.AllViolationsEmptyIff | gcp_free_tier_monitor_simple.py:352-360 | there is no violation at all exactly when every result's list is empty |
| FreeTier.ReportTotalCountsAllViolations | gcp_free_tier_monitor_simple.py:277-288 | when error results carry no violations, the report total equals the number of collected violations |
| SimpleMonitor.CheckComputeInstances | gcp_free_tier_monitor_simple.py:78-125 | a failed listing gives the error result with no violations; otherwise the RUNNING records described in order, their violations with the count violation last, `usage` their number and `limit` 1 |
| SimpleMonitor.CheckStorageBuckets | gcp_free_tier_monitor_simple.py:127-183 | a failed listing gives the error result; an exception the size probe's handler does not catch escapes the check, from the first bucket where it occurs; otherwise one record per bucket, the location violations in bucket order, then the storage-limit violation when over the limit |
| SimpleMonitor.FirstEscape | gcp_free_tier_monitor_simple.py:143-156 | the first bucket whose size probe raised past the handler, every earlier probe having taken a size; -1 exactly when no probe raised |
| SimpleMonitor.EmergencyShutdownInstances | gcp_free_tier_monitor_simple.py:185-214 | True iff every instance has a name and its stop exited with 0 (no timeout, no exception); every named instance gets a stop and nothing else does, with no early exit |
| SimpleMonitor.EmergencyCleanupStorage | gcp_free_tier_monitor_simple.py:216-243 | one `gsutil rm` per bucket in order; False iff some call timed out or raised, and a non-zero exit code does not count as a failure |
| SimpleMonitor.GenerateReportTotal | gcp_free_tier_monitor_simple.py:277-288 | the total sums the violation lists of the results without an error, and equals the collected violations' count when errors carry none |
| SimpleMonitor.RunMonitoring | gcp_free_tier_monitor_simple.py:352-387 | True iff neither result has violations; the alert carries compute then storage violations; in emergency mode exactly the emergency plan is started (see `FreeTier.EmergencyPlanActs`), otherwise nothing |
| SimpleMonitor.SingleRun | gcp_free_tier_monitor_simple.py:423-425 | a single run exits with 1 and no alert or emergency action when the storage check raised; otherwise with 0 iff neither result has violations, alerting iff it exits with 1, and starting the emergency plan only in emergency mode |
| SimpleMonitor.RunningInstancesSelects | gcp_free_tier_monitor_simple.py:89-102 | an instance record is kept iff its status is exactly `RUNNING`, described from that record; no more records are kept than listed |
| SimpleMonitor.RegionOfZoneCases | gcp_free_tier_monitor_simple.py:93 | region is "unknown" only for an empty zone, "" for a zone without '-', and the zone up to its last '-' otherwise |
| SimpleMonitor.RegionOfUsCentral1a | gcp_free_tier_monitor_simple.py:93 | zone `us-central1-a` lies in region `us-central1` |
| SimpleMonitor.ComputeViolationTotal | gcp_free_tier_monitor_simple.py:105-115 | compute violations number type mismatches + region mismatches + (1 if more than one instance runs) |
| SimpleMonitor.CountViolationComesLast | gcp_free_tier_monitor_simple.py:113-115 | the count violation is present iff more than one instance runs, and then it is the last violation |
| ClientMonitor.CheckComputeEngine | gcp_free_tier_monitor.py:101-162 | an exception while listing zones gives the error result with its message and no violations; otherwise the running instances of every zone that could be listed, the count violation first, `usage` and `limit` 1 |
| ClientMonitor.RunningOfZone | gcp_free_tier_monitor.py:122-130 | a zone contributes its RUNNING instances in order, with the type taken after the last '/' and the region by `rsplit('-', 1)` |
| ClientMonitor.ClassifyInstances | gcp_free_tier_monitor.py:135-148 | the count violation comes first, then each instance's type and region violations in instance order |
| ClientMonitor.CheckCloudStorage | gcp_free_tier_monitor.py:164-214 | an exception listing the buckets gives the error result; a bucket whose objects cannot be listed is skipped whole; otherwise the location violations in order, then the storage-limit violation |
| ClientMonitor.ShutdownComputeInstances | gcp_free_tier_monitor.py:263-284 | one stop call per instance, in order; True iff no call raised; a failure does not stop the loop |
| ClientMonitor.DeleteStorageBuckets | gcp_free_tier_monitor.py:286-309 | each bucket is emptied when `keep_empty` holds and deleted otherwise; True iff no bucket's calls raised |
| ClientMonitor.Monitor.constructor | gcp_free_tier_monitor.py:79-83 | a new monitor has emergency mode as given and an empty `violations` list |
| ClientMonitor.Monitor.GenerateReportSummary | gcp_free_tier_monitor.py:319-364 | the total sums non-error results' violations; the emergency banner is shown iff the total is positive and emergency mode is on |
| ClientMonitor.Monitor.RunMonitoring | gcp_free_tier_monitor.py:394-429 | `violations` grows by the three results' violations in order; True iff none has any; in emergency mode exactly the emergency plan is started, so buckets are only emptied (`keep_empty=True`), otherwise nothing |
| ClientMonitor.AllViolationsOfThree | gcp_free_tier_monitor.py:396-402 | the violations collected from compute, storage and BigQuery are their lists in that order |
| ClientMonitor.AccumulationScenario | gcp_free_tier_monitor.py:396-402 | two runs that each find the same violation leave it twice in `violations`: the list is never cleared |
| ClientMonitor.CountViolationComesFirst | gcp_free_tier_monitor.py:136-148 | the count violation is present iff more than one instance runs, and then it is the first violation |
| ClientMonitor.RegionOfZoneCases | gcp_free_tier_monitor.py:129 | the region is the zone up to its last '-', and the whole zone when it has no '-' |
| ClientMonitor.CollectRunningSplits | gcp_free_tier_monitor.py:115-133 | the running instances of two zone lists taken together are those of each list, concatenated |
| ClientMonitor.FailedZoneIsSkipped | gcp_free_tier_monitor.py:131-133 | a zone whose listing raised contributes nothing and leaves the other zones' instances unchanged |
| EngineAgreement.RegionsAgreeIff | gcp_free_tier_monitor.py:129 | for a non-empty zone the CLI region (join of all but the last '-' piece) equals the client region (`rsplit('-', 1)[0]`) iff the zone contains '-' |
| EngineAgreement.RegionsDisagreeWithoutHyphen | gcp_free_tier_monitor_simple.py:93 | for a zone without '-' the CLI monitor gives region "" and the client monitor the zone itself |
| EngineAgreement.RunningInstancesAppend | gcp_free_tier_monitor_simple.py:89-102 | the CLI running list of two listings taken together is the two running lists concatenated |
| EngineAgreement.DescribeAgrees | gcp_free_tier_monitor.py:124-130 | for a zone with '-' and no '/', both monitors describe a running instance identically |
| EngineAgreement.ZoneAgrees | gcp_free_tier_monitor.py:122-130 | for such a zone, both monitors keep the same running instances in the same order |
| EngineAgreement.RunningAgrees | gcp_free_tier_monitor.py:115-133 | over well-formed zones, the CLI monitor's running list equals the client monitor's |
| EngineAgreement.ViolationsAgree | gcp_free_tier_monitor.py:136-148 | both engines raise the same multiset of violations; the per-instance ones are in the same order, and only the count violation moves |
| EngineAgreement.CompareComputeChecks | gcp_free_tier_monitor.py:101-158 | both compute checks over the same well-formed listing give the same instances, usage and limit, and the same multiset of violations |
| JenkinsGate.DockerfileWarnings | jenkins_gcp_monitor.py:121-130 | base-image warning iff `FROM ubuntu` or `FROM debian` occurs; install warning iff `RUN apt-get install` occurs; complexity warning iff the text has at least 50 newlines (more than 50 pieces); in check order, at most three |
| JenkinsGate.CheckDeploymentSize | jenkins_gcp_monitor.py:106-145 | the size stage passes whether the Dockerfile is present, absent or unreadable |
| JenkinsGate.MonitorPassed | jenkins_gcp_monitor.py:58-70 | the check passes iff the monitor finished with return code 0; a timeout or any exception fails it |
| JenkinsGate.PreDeploymentCheck | jenkins_gcp_monitor.py:38-70 | the monitor runs with `--no-shutdown` from the workspace, and the check passes iff it returned 0 |
| JenkinsGate.PostDeploymentCheck | jenkins_gcp_monitor.py:72-104 | the monitor runs with emergency shutdown left on, and the check passes iff it returned 0 |
| JenkinsGate.PreAndPostCommands | jenkins_gcp_monitor.py:44-49 | the pre-deployment command is the post-deployment one plus `--no-shutdown`; the script path is the workspace joined with `gcp_free_tier_monitor_simple.py` |
| JenkinsGate.PreCheckFollowsMonitor | jenkins_gcp_monitor.py:58-63 | over a monitor exiting with `0 if success else 1`, the pre-deployment check passes iff the monitoring run succeeded |
| JenkinsGate.SerializeAppend | jenkins_gcp_monitor.py:158-160 | the file for two lists of properties is the two files concatenated |
| JenkinsGate.WriteProperties | jenkins_gcp_monitor.py:158-160 | the file is one `KEY=VALUE` line per property, each ending in a newline, in dictionary order |
| JenkinsGate.SetJenkinsProperties | jenkins_gcp_monitor.py:147-165 | the file holds status, project id and the stripped `date` output in that order; nothing is written when `date` raised |
| JenkinsGate.SplitSerialized | jenkins_gcp_monitor.py:158-160 | splitting the written file on newlines gives one line per property, then the empty piece after the last newline |
| JenkinsGate.ParseLineOfPropertyLine | jenkins_gcp_monitor.py:158-160 | a written `KEY=VALUE` line reads back as the same key and value when the key holds no '=' and nothing holds a newline |
| JenkinsGate.PropertiesRoundTrip | jenkins_gcp_monitor.py:158-160 | reading the written file back yields the same properties in the same order, provided keys hold no '=' and nothing holds a newline |
| JenkinsGate.StatusReadsBack | jenkins_gcp_monitor.py:150-154 | the `GCP_MONITOR_STATUS` read back is `PASS` iff the stage succeeded, and `GCP_PROJECT_ID` is the project id |
| JenkinsGate.RunStage | jenkins_gcp_monitor.py:167-197 | exit code 2 with nothing written when argparse rejects the arguments; otherwise the properties file records the stage's result, and the exit code is 0 iff it succeeded and 1 otherwise |
| ChatRoom.ChatServer.constructor | app.py:7-8 | the server starts with no users, nobody in the room, and room `main_room` |
| ChatRoom.ChatServer.HandleJoin | app.py:14-22 | below two users, the name (None if absent) is added, the sender joins the room and the room hears "<name> joined."; at two users nothing changes and only the sender hears "Room full."; the new user set is `JoinStep` of the old one, the step the join-sequence lemmas repeat; the bound of two is kept |
| ChatRoom.ChatServer.HandleMessage | app.py:24-26 | the payload is emitted unchanged as a `message` to everyone in the room, sender included when in it, without looking at `users` |
| ChatRoom.CapacityKept | app.py:17-18 | no sequence of joins takes the user set past two names |
| ChatRoom.UsersOnlyGrow | app.py:7-22 | joins never remove a name |
| ChatRoom.FullRoomStaysFull | app.py:17-22 | once two names are recorded, every later join is rejected and the set stays as it is |
| ChatRoom.RejoinKeepsUsers | app.py:18 | joining with a name already present does not grow the set |
| ChatRoom.JoinedOrFull | app.py:14-22 | every joining name ends up recorded, unless the room is full |
| ChatRoom.RoomLimitScenario | test_app_detailed.py:20-28 | after user1 and user2 join, user3 alone hears "Room full." and the set is {user1, user2} |
| ChatRoom.DuplicateNameScenario | app.py:17-20 | two connections joining as user1 fill one place only, so a third connection as user3 is admitted |
| ChatRoom.MissingNameScenario | app.py:16-20 | a join without `username` records None and announces "None joined." |

## Left out

- The repository's chat tests expect more than `app.py` does. The model follows `app.py`:
  - a message store: test_app_extended.py:2 imports `init_db`, `save_message` and `get_messages`, which `app.py` does not define;
  - rejection of a name already in use (test_app_extended.py:7-19); `app.py` admits it and records the name once (`ChatRoom.DuplicateNameScenario`);
  - an "Invalid message" status for a message without fields (test_app_extended.py:40-49);
  - a "not in the room" status for a sender that never joined (test_app_extended.py:51-69);
  - a `/history` route (test_app_extended.py:80-83).

  On echo, the tests and `app.py` agree: the sender in the room receives its own message (test_app_detailed.py:30-36, `ChatRoom.ChatServer.HandleMessage`).
- Flask and Socket.IO transport: the `/` route, `socketio.run`, and actual delivery of events. The handlers return the events they emit. `Recipients` states who a room event reaches.
- Socket.IO's own handling of bad payloads. A payload is a JSON object whose values are strings, integers or null. Floats, booleans, lists and nested objects are not modelled; nor are non-object payloads, on which `data.get` would raise. `str()` of a username is modelled for these three kinds only.
- Cloud and OS calls. This covers:
  - the Google Cloud clients;
  - the `gcloud`/`gsutil` subprocesses;
  - JSON parsing of their output (`run_gcloud_command`);
  - file I/O;
  - logging;
  - `print`;
  - `send_alert`'s text.

  Their outcomes are parameters, except that writing the report file (gcp_free_tier_monitor_simple.py:347-349, gcp_free_tier_monitor.py:391-393) and the alert file (gcp_free_tier_monitor_simple.py:262-264) is assumed to succeed; a failing write would raise out of `run_monitoring` before the emergency branch.
- Floating-point sizes. This covers:
  - bucket and dataset sizes;
  - GB conversion and rounding;
  - the 5 GB and 10 GB comparisons.

  Whether storage is over the limit enters as a boolean, and `check_bigquery` is represented only by its result value.
- Violation wording. Violations are structured values, not f-strings. The report's text, layout and `datetime.now()` stamps are not modelled beyond the total and the emergency banner.
- The `--continuous` loops with `time.sleep` in both monitors' `main`, and their argparse handling. The single-run exit code is `SimpleMonitor.ExitCode`.
- Other `FreeTierLimits` fields that no rule reads: the BigQuery query quota, Container Registry, Cloud Build, and App Engine.
- JSON `null` values in the CLI records. An absent key reads as its default. A present null `machineType` or `zone` would make `.split` raise, and that crash is not modelled.
- SimpleMonitor.EmergencyShutdownInstances: states which stops are issued (both directions) but not their order.
- The two engines are compared only on compute. Their storage rules are the same function. They differ in which buckets are kept: the client skips unreadable buckets, the CLI keeps every listed one.
- `EngineAgreement` compares the engines on zones as Google Cloud names them, with a '-' and no '/'. `RegionsDisagreeWithoutHyphen` shows where they part otherwise.
- Jenkins environment lookups `BUILD_NUMBER` and `JOB_NAME`. They only reach log lines. `WORKSPACE` enters `RunStage` as an optional value, with `DefaultWorkspace` when it is unset.
- `os.path.exists` and `open` on the Dockerfile. Their outcome is `DockerfileProbe`.
- Failures while writing the properties file. Only a raising `date` call is modelled, and then no file is written. A failing `open` leaves the previous build's file in place, and a failing `write` can leave a partial file; both end with a warning, and neither is modelled.
