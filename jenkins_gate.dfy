/**
 * The Jenkins stage gate. It runs the gcloud-CLI monitor as a subprocess
 * before or after a deployment, inspects the workspace Dockerfile, writes the
 * `gcp_monitor.properties` file, and maps all of that to the job's exit code.
 * The monitor's outcome, the Dockerfile's contents and the `date` output are
 * inputs.
 */
module JenkinsGate {
  import opened PyText
  import SimpleMonitor

  // ---------------------------------------------------------------------------
  // Dockerfile warnings

  const LargeBaseImageWarning := "Large base image detected - consider using alpine or slim variants"
  const HeavyInstallWarning := "Heavy package installation detected"
  const ComplexDockerfileWarning := "Complex Dockerfile - may result in large image"
  /** A Dockerfile is complex when splitting it on '\n' gives more pieces than this. */
  const MaxDockerfileLines := 50

  /** The position of a warning in the order the checks run. */
  function WarningRank(w: string): nat
  {
    if w == LargeBaseImageWarning then 0
    else if w == HeavyInstallWarning then 1
    else 2
  }

  /** The `warnings` list `check_deployment_size` builds from the Dockerfile's text. */
  method DockerfileWarnings(content: string) returns (warnings: seq<string>)
    ensures LargeBaseImageWarning in warnings <==> Contains(content, "FROM ubuntu") || Contains(content, "FROM debian")
    ensures HeavyInstallWarning in warnings <==> Contains(content, "RUN apt-get install")
    ensures ComplexDockerfileWarning in warnings <==> CountChar(content, '\n') >= MaxDockerfileLines
    ensures forall i :: 0 <= i < |warnings| ==>
      warnings[i] in [LargeBaseImageWarning, HeavyInstallWarning, ComplexDockerfileWarning]
    ensures forall i, j :: 0 <= i < j < |warnings| ==> WarningRank(warnings[i]) < WarningRank(warnings[j])
    ensures |warnings| <= 3
  {
    warnings := [];
    if Contains(content, "FROM ubuntu") || Contains(content, "FROM debian") {
      warnings := warnings + [LargeBaseImageWarning];
    }
    if Contains(content, "RUN apt-get install") {
      warnings := warnings + [HeavyInstallWarning];
    }
    SplitPieces(content, '\n');
    if |Split(content, '\n')| > MaxDockerfileLines {
      warnings := warnings + [ComplexDockerfileWarning];
    }
  }

  /** What looking for `WORKSPACE/Dockerfile` found. */
  datatype DockerfileProbe = Absent | Present(content: string) | Unreadable(message: string)

  /** `check_deployment_size`: the warnings are only logged, and the stage passes on every path. */
  method CheckDeploymentSize(probe: DockerfileProbe) returns (passed: bool)
    ensures passed
  {
    match probe {
      case Present(content) =>
        var warnings := DockerfileWarnings(content);
        passed := true;
      case Absent =>
        passed := true;
      case Unreadable(_) =>
        passed := true;
    }
  }

  // ---------------------------------------------------------------------------
  // Pre- and post-deployment checks

  /** The workspace when `WORKSPACE` is not set. */
  const DefaultWorkspace := "/var/jenkins_home"
  const MonitorScript := "gcp_free_tier_monitor_simple.py"

  /** How the monitor subprocess ended: with a return code, after the 300-second timeout, or by raising. */
  datatype MonitorRun = Finished(returnCode: int) | TimedOut | Failed(message: string)

  /** `os.path.join(dir, name)` for a relative `name`. */
  function PathJoin(dir: string, name: string): string
  {
    if dir == "" || dir[|dir| - 1] == '/' then dir + name else dir + "/" + name
  }

  /** The argument vector of the monitor subprocess; the pre-deployment run adds `--no-shutdown`. */
  function MonitorCommand(python: string, workspace: string, projectId: string, noShutdown: bool): seq<string>
  {
    [python, PathJoin(workspace, MonitorScript), "--project-id", projectId] + (if noShutdown then ["--no-shutdown"] else [])
  }

  /** Mapping of the subprocess outcome shared by both checks. */
  method MonitorPassed(run: MonitorRun) returns (passed: bool)
    ensures passed <==> run == Finished(0)
  {
    match run {
      case Finished(code) =>
        if code == 0 {
          passed := true;
        } else {
          passed := false;
        }
      case TimedOut =>
        passed := false;
      case Failed(_) =>
        passed := false;
    }
  }

  /** `pre_deployment_check`: the monitor in monitoring-only mode; `run` is how that call ended. */
  method PreDeploymentCheck(python: string, workspace: string, projectId: string, run: MonitorRun)
    returns (argv: seq<string>, passed: bool)
    ensures argv == MonitorCommand(python, workspace, projectId, true)
    ensures passed <==> run == Finished(0)
  {
    argv := [python, PathJoin(workspace, MonitorScript), "--project-id", projectId, "--no-shutdown"];
    passed := MonitorPassed(run);
  }

  /** `post_deployment_check`: the monitor with emergency shutdown on; `run` is how that call ended. */
  method PostDeploymentCheck(python: string, workspace: string, projectId: string, run: MonitorRun)
    returns (argv: seq<string>, passed: bool)
    ensures argv == MonitorCommand(python, workspace, projectId, false)
    ensures passed <==> run == Finished(0)
  {
    argv := [python, PathJoin(workspace, MonitorScript), "--project-id", projectId];
    passed := MonitorPassed(run);
  }

  /** The two checks run the same command, except that only the pre-deployment one disables emergency shutdown. */
  lemma PreAndPostCommands(python: string, workspace: string, projectId: string)
    ensures MonitorCommand(python, workspace, projectId, true) ==
            MonitorCommand(python, workspace, projectId, false) + ["--no-shutdown"]
    ensures |MonitorCommand(python, workspace, projectId, false)| == 4
    ensures MonitorCommand(python, workspace, projectId, false)[1] == PathJoin(workspace, MonitorScript)
  {
  }

  /**
   * The gate over a monitor run that ends with `sys.exit(0 if success else 1)`:
   * the pre-deployment check passes exactly when the monitor succeeded.
   */
  method PreCheckFollowsMonitor(python: string, workspace: string, projectId: string, monitorSucceeded: bool)
    returns (passed: bool)
    ensures passed <==> monitorSucceeded
  {
    var argv;
    argv, passed := PreDeploymentCheck(python, workspace, projectId, Finished(SimpleMonitor.ExitCode(monitorSucceeded)));
  }

  // ---------------------------------------------------------------------------
  // The properties file

  datatype Property = Property(key: string, value: string)

  /** The `properties` dictionary, in insertion order; `checkTime` is the stripped `date` output. */
  function BuildProperties(success: bool, projectId: string, checkTime: string): seq<Property>
  {
    [Property("GCP_MONITOR_STATUS", if success then "PASS" else "FAIL"),
     Property("GCP_PROJECT_ID", projectId),
     Property("FREE_TIER_CHECK_TIME", checkTime)]
  }

  function PropertyLine(p: Property): string
  {
    p.key + "=" + p.value
  }

  /** The file's contents: one `KEY=VALUE` line per property, each ending in '\n'. */
  function Serialize(props: seq<Property>): string
  {
    if props == [] then "" else PropertyLine(props[0]) + "\n" + Serialize(props[1..])
  }

  lemma {:induction false} SerializeAppend(a: seq<Property>, b: seq<Property>)
    ensures Serialize(a + b) == Serialize(a) + Serialize(b)
  {
    if a != [] {
      assert (a + b)[0] == a[0];
      assert (a + b)[1..] == a[1..] + b;
      SerializeAppend(a[1..], b);
    } else {
      assert a + b == b;
    }
  }

  lemma SerializeStep(props: seq<Property>, i: nat)
    requires i < |props|
    ensures Serialize(props[..i + 1]) == Serialize(props[..i]) + props[i].key + "=" + props[i].value + "\n"
  {
    assert props[..i + 1] == props[..i] + [props[i]];
    SerializeAppend(props[..i], [props[i]]);
    assert Serialize([props[i]]) == PropertyLine(props[i]) + "\n" + Serialize([]);
  }

  /**
   * `set_jenkins_properties`: the properties file it writes, or None when the
   * `date` call raised and only a warning is logged.
   */
  method SetJenkinsProperties(success: bool, projectId: string, dateOutput: Result<string>)
    returns (written: Option<string>)
    ensures dateOutput.Raised? ==> written == None
    ensures dateOutput.Ok? ==> written == Some(Serialize(BuildProperties(success, projectId, Strip(dateOutput.value))))
  {
    if dateOutput.Raised? {
      return None;
    }
    var properties := BuildProperties(success, projectId, Strip(dateOutput.value));
    var contents := WriteProperties(properties);
    written := Some(contents);
  }

  /** The loop writing one `KEY=VALUE` line per property, in order. */
  method WriteProperties(properties: seq<Property>) returns (contents: string)
    ensures contents == Serialize(properties)
  {
    contents := "";
    for i := 0 to |properties|
      invariant contents == Serialize(properties[..i])
    {
      contents := contents + properties[i].key + "=" + properties[i].value + "\n";
      SerializeStep(properties, i);
    }
    assert properties[..|properties|] == properties;
  }

  // The model's own reader for the `KEY=VALUE` lines: a line splits at its first
  // '=', and a key's first line wins. Java properties syntax is not modelled.

  /** A line splits at its first '='. */
  function ParseLine(line: string): Property
  {
    var k := IndexOf(line, '=');
    if k < 0 then Property(line, "") else Property(line[..k], line[k + 1..])
  }

  function ParseLines(lines: seq<string>): seq<Property>
  {
    if lines == [] then [] else [ParseLine(lines[0])] + ParseLines(lines[1..])
  }

  /** The properties of a file: its lines, the empty piece after a final '\n' excluded. */
  function ParseProperties(file: string): seq<Property>
  {
    var lines := Split(file, '\n');
    ParseLines(if lines[|lines| - 1] == "" then lines[..|lines| - 1] else lines)
  }

  /** The first value stored under `key`. */
  function Lookup(props: seq<Property>, key: string): Option<string>
  {
    if props == [] then None
    else if props[0].key == key then Some(props[0].value)
    else Lookup(props[1..], key)
  }

  /** A property survives writing and reading when its key has no '=' and neither part a newline. */
  predicate Writable(p: Property)
  {
    '=' !in p.key && '\n' !in p.key && '\n' !in p.value
  }

  function Lines(props: seq<Property>): seq<string>
  {
    if props == [] then [] else [PropertyLine(props[0])] + Lines(props[1..])
  }

  lemma {:induction false} SplitSerialized(props: seq<Property>)
    requires forall i :: 0 <= i < |props| ==> Writable(props[i])
    ensures Split(Serialize(props), '\n') == Lines(props) + [""]
  {
    if props != [] {
      var line := PropertyLine(props[0]);
      var rest := props[1..];
      assert forall i :: 0 <= i < |rest| ==> Writable(rest[i]) by {
        forall i | 0 <= i < |rest|
          ensures Writable(rest[i])
        {
          assert rest[i] == props[i + 1];
        }
      }
      SplitSerialized(rest);
      assert Writable(props[0]);
      assert Serialize(props) == line + ['\n'] + Serialize(rest);
      SplitAround(line, Serialize(rest), '\n');
      SplitWithoutSeparator(line, '\n');
    }
  }

  /** A written line reads back as the property it was written from. */
  lemma ParseLineOfPropertyLine(p: Property)
    requires Writable(p)
    ensures ParseLine(PropertyLine(p)) == p
  {
    var line := PropertyLine(p);
    assert line == p.key + ['='] + p.value;
    IndexOfAfter(p.key, p.value, '=');
    assert line[..|p.key|] == p.key && line[|p.key| + 1..] == p.value;
  }

  lemma {:induction false} ParseLinesOfLines(props: seq<Property>)
    requires forall i :: 0 <= i < |props| ==> Writable(props[i])
    ensures ParseLines(Lines(props)) == props
  {
    if props != [] {
      ParseLineOfPropertyLine(props[0]);
      assert forall i :: 0 <= i < |props[1..]| ==> Writable(props[1..][i]) by {
        forall i | 0 <= i < |props[1..]|
          ensures Writable(props[1..][i])
        {
          assert props[1..][i] == props[i + 1];
        }
      }
      ParseLinesOfLines(props[1..]);
    }
  }

  /** Reading back what was written gives the same properties in the same order. */
  lemma PropertiesRoundTrip(props: seq<Property>)
    requires forall i :: 0 <= i < |props| ==> Writable(props[i])
    ensures ParseProperties(Serialize(props)) == props
  {
    SplitSerialized(props);
    var lines := Lines(props) + [""];
    assert lines[..|lines| - 1] == Lines(props);
    ParseLinesOfLines(props);
  }

  // Each key's check stands alone: ruling a character out of a string literal
  // is costly for the solver, and one lemma per key keeps each proof small.

  lemma StatusKeyWritable(value: string)
    requires '\n' !in value
    ensures Writable(Property("GCP_MONITOR_STATUS", value))
  {
  }

  lemma ProjectKeyWritable(value: string)
    requires '\n' !in value
    ensures Writable(Property("GCP_PROJECT_ID", value))
  {
  }

  lemma TimeKeyWritable(value: string)
    requires '\n' !in value
    ensures Writable(Property("FREE_TIER_CHECK_TIME", value))
  {
  }

  lemma BuiltPropertiesWritable(success: bool, projectId: string, checkTime: string)
    requires '\n' !in projectId && '\n' !in checkTime
    ensures forall i :: 0 <= i < |BuildProperties(success, projectId, checkTime)| ==>
      Writable(BuildProperties(success, projectId, checkTime)[i])
  {
    var status := if success then "PASS" else "FAIL";
    assert '\n' !in status;
    StatusKeyWritable(status);
    ProjectKeyWritable(projectId);
    TimeKeyWritable(checkTime);
  }

  /** The status Jenkins reads back is PASS exactly when the stage succeeded. */
  lemma StatusReadsBack(success: bool, projectId: string, checkTime: string)
    requires '\n' !in projectId && '\n' !in checkTime
    ensures Lookup(ParseProperties(Serialize(BuildProperties(success, projectId, checkTime))), "GCP_MONITOR_STATUS")
      == Some(if success then "PASS" else "FAIL")
    ensures Lookup(ParseProperties(Serialize(BuildProperties(success, projectId, checkTime))), "GCP_PROJECT_ID")
      == Some(projectId)
  {
    var props := BuildProperties(success, projectId, checkTime);
    BuiltPropertiesWritable(success, projectId, checkTime);
    PropertiesRoundTrip(props);
    assert props[0].key != "GCP_PROJECT_ID";
    assert props[1..][0] == props[1];
  }

  // ---------------------------------------------------------------------------
  // The entry point

  datatype Stage = Pre | Post | Size

  /** The `--stage` choices argparse accepts. */
  function ParseStage(arg: string): Option<Stage>
  {
    if arg == "pre" then Some(Pre)
    else if arg == "post" then Some(Post)
    else if arg == "size" then Some(Size)
    else None
  }

  /** Whether the selected stage's check returned True, given what its subprocess or probe gave. */
  function StageSucceeds(stage: Stage, run: MonitorRun): bool
  {
    match stage
    case Pre => run == Finished(0)
    case Post => run == Finished(0)
    case Size => true
  }

  /**
   * `main`: exit code 2 when argparse rejects the arguments (no project id or an
   * unknown stage); otherwise the stage runs, the properties file records its
   * result, and the exit code is 0 exactly when the stage succeeded.
   * `workspaceEnv` is the `WORKSPACE` environment variable, if set.
   */
  method RunStage(projectId: Option<string>, stageArg: string, python: string, workspaceEnv: Option<string>,
                  run: MonitorRun, probe: DockerfileProbe, dateOutput: Result<string>)
    returns (exitCode: int, properties: Option<string>)
    ensures projectId.None? || ParseStage(stageArg).None? ==> exitCode == 2 && properties == None
    ensures projectId.Some? && ParseStage(stageArg).Some? ==>
      var success := StageSucceeds(ParseStage(stageArg).value, run);
      && (exitCode == 0 <==> success)
      && (exitCode == 1 <==> !success)
      && (dateOutput.Ok? ==>
            properties == Some(Serialize(BuildProperties(success, projectId.value, Strip(dateOutput.value)))))
      && (dateOutput.Raised? ==> properties == None)
  {
    var stage := ParseStage(stageArg);
    if projectId.None? || stage.None? {
      return 2, None;
    }
    var workspace := workspaceEnv.GetOr(DefaultWorkspace);
    var success := false;
    var argv;
    match stage.value {
      case Pre =>
        argv, success := PreDeploymentCheck(python, workspace, projectId.value, run);
      case Post =>
        argv, success := PostDeploymentCheck(python, workspace, projectId.value, run);
      case Size =>
        success := CheckDeploymentSize(probe);
    }
    properties := SetJenkinsProperties(success, projectId.value, dateOutput);
    if success {
      exitCode := 0;
    } else {
      exitCode := 1;
    }
  }
}
