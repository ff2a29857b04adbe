/**
 * The gcloud-CLI free-tier monitor: it classifies the JSON records the CLI lists,
 * adds up the report's violation count, decides whether a monitoring run
 * succeeds and which emergency procedures it starts, and aggregates the outcome
 * of those procedures. What the `gcloud` and `gsutil` subprocesses print or
 * return reaches the model as input values.
 */
module SimpleMonitor {
  import opened PyText
  import opened FreeTier

  /** One element of the JSON list `gcloud compute instances list` prints; a field is None when its key is absent. */
  datatype CliInstance = CliInstance(name: Option<string>, status: Option<string>, machineType: Option<string>, zone: Option<string>)

  /** One element of the JSON list `gcloud storage buckets list` prints. */
  datatype CliBucket = CliBucket(name: Option<string>, location: Option<string>)

  /** How one `gcloud`/`gsutil` subprocess call ended. */
  datatype CommandOutcome = Exited(code: int) | TimedOut | Failed

  /** A `gcloud compute instances stop NAME --zone ZONE` call that was started. */
  datatype StopRequest = StopRequest(instance: string, zone: string)

  /** A `gsutil -m rm -r` call over every object of bucket NAME: it empties the bucket and keeps it. */
  datatype CleanRequest = EmptyBucket(bucket: string)

  /** `instance.get('status') == 'RUNNING'`. */
  predicate IsRunning(inst: CliInstance)
  {
    inst.status == Some("RUNNING")
  }

  /** `'-'.join(zone.split('-')[:-1]) if zone else 'unknown'`. */
  function RegionOfZone(zone: string): string
  {
    if zone == "" then "unknown" else DropLastPart(zone, '-')
  }

  /** `instance_info` for a running record: type and zone are the last `/` segment of their URLs. */
  function Describe(inst: CliInstance): InstanceInfo
  {
    var zone := LastSegment(inst.zone.GetOr(""), '/');
    InstanceInfo(inst.name, zone, RegionOfZone(zone), LastSegment(inst.machineType.GetOr(""), '/'), "RUNNING")
  }

  /** `running_instances`: the RUNNING records, described, in listing order. */
  function RunningInstances(instances: seq<CliInstance>): seq<InstanceInfo>
  {
    if instances == [] then []
    else
      var last := instances[|instances| - 1];
      RunningInstances(instances[..|instances| - 1]) + (if IsRunning(last) then [Describe(last)] else [])
  }

  /** The violations of a successful compute check: per-instance ones first, the count violation last. */
  function ComputeViolations(running: seq<InstanceInfo>): seq<Violation>
  {
    PerInstanceViolations(running) + CountViolation(running)
  }

  /**
   * How the `gsutil du` call for one bucket ended, as far as the check sees it:
   * a size was taken (read, or 0.0 after a non-zero exit, a timeout or
   * unreadable output), or an exception its handler does not catch escaped,
   * such as `gsutil` failing to start.
   */
  datatype SizeProbe = Sized | Escaped(error: string)

  /** The first bucket whose size probe raised past the handler, or -1. */
  function FirstEscape(probes: seq<SizeProbe>): (k: int)
    ensures -1 <= k < |probes|
    ensures k == -1 <==> forall i :: 0 <= i < |probes| ==> probes[i].Sized?
    ensures k >= 0 ==> probes[k].Escaped? && forall i :: 0 <= i < k ==> probes[i].Sized?
  {
    if probes == [] then -1
    else if probes[0].Escaped? then 0
    else
      var k := FirstEscape(probes[1..]);
      assert forall i :: 1 <= i < |probes| ==> probes[i] == probes[1..][i - 1];
      if k < 0 then -1 else k + 1
  }

  /** The probes before `i` all took a size and the i-th one escaped: the check ends at bucket `i`. */
  lemma EscapeAt(probes: seq<SizeProbe>, i: nat)
    requires i < |probes| && probes[i].Escaped?
    requires FirstEscape(probes[..i]) == -1
    ensures FirstEscape(probes) == i
  {
    assert forall j :: 0 <= j < i ==> probes[..i][j] == probes[j];
  }

  lemma SizedStep(probes: seq<SizeProbe>, i: nat)
    requires i < |probes| && probes[i].Sized?
    requires FirstEscape(probes[..i]) == -1
    ensures FirstEscape(probes[..i + 1]) == -1
  {
    assert forall j :: 0 <= j < i ==> probes[..i][j] == probes[..i + 1][j];
  }

  /** `bucket_info`: one record per listed bucket, absent fields read as "". */
  function BucketRecords(buckets: seq<CliBucket>): seq<BucketInfo>
  {
    if buckets == [] then []
    else
      var last := buckets[|buckets| - 1];
      BucketRecords(buckets[..|buckets| - 1]) + [BucketInfo(last.name.GetOr(""), last.location.GetOr(""))]
  }

  /** `sys.exit(0 if success else 1)` in `main`. */
  function ExitCode(success: bool): int
  {
    if success then 0 else 1
  }

  /** One more record extends the running list by its description if it is RUNNING. */
  lemma RunningInstancesStep(instances: seq<CliInstance>, i: nat)
    requires i < |instances|
    ensures RunningInstances(instances[..i + 1]) ==
      RunningInstances(instances[..i]) + (if IsRunning(instances[i]) then [Describe(instances[i])] else [])
  {
    assert instances[..i + 1][..i] == instances[..i];
  }

  /** One more bucket extends the records by one. */
  lemma BucketRecordsStep(buckets: seq<CliBucket>, i: nat)
    requires i < |buckets|
    ensures BucketRecords(buckets[..i + 1]) ==
      BucketRecords(buckets[..i]) + [BucketInfo(buckets[i].name.GetOr(""), buckets[i].location.GetOr(""))]
  {
    assert buckets[..i + 1][..i] == buckets[..i];
  }

  // ---------------------------------------------------------------------------
  // The checks

  /**
   * `check_compute_instances`. `listing` is what `run_gcloud_command` returned:
   * None when the command failed or its output was not JSON.
   */
  method CheckComputeInstances(listing: Option<seq<CliInstance>>) returns (result: ServiceResult)
    ensures listing.None? ==> result == Errored("compute", "Failed to list instances", [])
    ensures listing.Some? ==>
      var running := RunningInstances(listing.value);
      result == ComputeChecked("compute", running, ComputeViolations(running), |running|, ComputeInstancesMax)
  {
    if listing.None? {
      return Errored("compute", "Failed to list instances", []);
    }
    var instances := listing.value;
    var violations: seq<Violation> := [];
    var running: seq<InstanceInfo> := [];
    for i := 0 to |instances|
      invariant running == RunningInstances(instances[..i])
      invariant violations == PerInstanceViolations(running)
    {
      var instance := instances[i];
      if instance.status == Some("RUNNING") {
        var machineType := LastSegment(instance.machineType.GetOr(""), '/');
        var zone := LastSegment(instance.zone.GetOr(""), '/');
        var region := if zone != "" then DropLastPart(zone, '-') else "unknown";
        var info := InstanceInfo(instance.name, zone, region, machineType, "RUNNING");
        assert info == Describe(instance);
        PerInstanceViolationsStep(running, info);
        running := running + [info];
        var found := ClassifyInstance(info);
        violations := violations + found;
      }
      RunningInstancesStep(instances, i);
    }
    assert instances[..|instances|] == instances;
    if |running| > ComputeInstancesMax {
      violations := violations + [TooManyInstances(|running|, ComputeInstancesMax)];
    }
    result := ComputeChecked("compute", running, violations, |running|, ComputeInstancesMax);
  }

  /**
   * `check_storage_buckets`. `listing` is None when the listing failed;
   * `probes[i]` is how the size probe of the i-th bucket ended, and an escaped
   * exception ends the check there. `overLimit` is the outcome of the
   * total-size comparison, which works on floating-point sizes and is not
   * modelled.
   */
  method CheckStorageBuckets(listing: Option<seq<CliBucket>>, probes: seq<SizeProbe>, overLimit: bool)
    returns (result: Result<ServiceResult>)
    requires listing.Some? ==> |probes| == |listing.value|
    ensures listing.None? ==> result == Ok(Errored("storage", "Failed to list buckets", []))
    ensures listing.Some? && FirstEscape(probes) >= 0 ==> result == Raised(probes[FirstEscape(probes)].error)
    ensures listing.Some? && FirstEscape(probes) < 0 ==>
      var infos := BucketRecords(listing.value);
      result == Ok(StorageChecked("storage", infos, LocationViolations(infos) + (if overLimit then [StorageOverLimit] else [])))
  {
    if listing.None? {
      return Ok(Errored("storage", "Failed to list buckets", []));
    }
    var buckets := listing.value;
    var violations: seq<Violation> := [];
    var infos: seq<BucketInfo> := [];
    for i := 0 to |buckets|
      invariant infos == BucketRecords(buckets[..i])
      invariant violations == LocationViolations(infos)
      invariant FirstEscape(probes[..i]) == -1
    {
      if probes[i].Escaped? {
        EscapeAt(probes, i);
        return Raised(probes[i].error);
      }
      SizedStep(probes, i);
      var bucketName := buckets[i].name.GetOr("");
      var location := buckets[i].location.GetOr("");
      var info := BucketInfo(bucketName, location);
      LocationViolationsStep(infos, info);
      infos := infos + [info];
      if location !in FreeBucketLocations {
        violations := violations + [NonFreeBucketLocation(bucketName, location)];
      }
      BucketRecordsStep(buckets, i);
    }
    assert buckets[..|buckets|] == buckets;
    assert probes[..|probes|] == probes;
    assert violations + [] == violations;
    if overLimit {
      violations := violations + [StorageOverLimit];
    }
    assert infos == BucketRecords(listing.value);
    result := Ok(StorageChecked("storage", infos, violations));
  }

  // ---------------------------------------------------------------------------
  // Emergency procedures

  /**
   * `emergency_shutdown_instances`: one stop per instance, `outcomes[i]` being how
   * the i-th call ended. An instance without a name never reaches a subprocess:
   * `subprocess.run` refuses the None argument and the handler records a failure.
   */
  method EmergencyShutdownInstances(instances: seq<InstanceInfo>, outcomes: seq<CommandOutcome>)
    returns (success: bool, issued: seq<StopRequest>)
    requires |outcomes| == |instances|
    ensures success <==> forall i :: 0 <= i < |instances| ==> instances[i].name.Some? && outcomes[i] == Exited(0)
    ensures |issued| <= |instances|
    ensures forall i :: 0 <= i < |instances| && instances[i].name.Some? ==>
      StopRequest(instances[i].name.value, instances[i].zone) in issued
    ensures forall r :: r in issued ==>
      exists i :: 0 <= i < |instances| && instances[i].name == Some(r.instance) && instances[i].zone == r.zone
  {
    success := true;
    issued := [];
    for i := 0 to |instances|
      invariant success <==> forall j :: 0 <= j < i ==> instances[j].name.Some? && outcomes[j] == Exited(0)
      invariant |issued| <= i
      invariant forall j :: 0 <= j < i && instances[j].name.Some? ==>
        StopRequest(instances[j].name.value, instances[j].zone) in issued
      invariant forall r :: r in issued ==>
        exists j :: 0 <= j < i && instances[j].name == Some(r.instance) && instances[j].zone == r.zone
    {
      var instance := instances[i];
      if instance.name.None? {
        success := false;
      } else {
        issued := issued + [StopRequest(instance.name.value, instance.zone)];
        match outcomes[i]
        case Exited(code) =>
          if code != 0 {
            success := false;
          }
        case TimedOut =>
          success := false;
        case Failed =>
          success := false;
      }
    }
  }

  /**
   * `emergency_cleanup_storage`: one `gsutil rm` per bucket. A non-zero exit code
   * is only logged; a timeout or an exception makes the result False.
   */
  method EmergencyCleanupStorage(buckets: seq<BucketInfo>, outcomes: seq<CommandOutcome>)
    returns (success: bool, issued: seq<CleanRequest>)
    requires |outcomes| == |buckets|
    ensures success <==> forall i :: 0 <= i < |buckets| ==> outcomes[i].Exited?
    ensures |issued| == |buckets|
    ensures forall i :: 0 <= i < |buckets| ==> issued[i] == EmptyBucket(buckets[i].name)
  {
    success := true;
    issued := [];
    for i := 0 to |buckets|
      invariant success <==> forall j :: 0 <= j < i ==> outcomes[j].Exited?
      invariant |issued| == i
      invariant forall j :: 0 <= j < i ==> issued[j] == EmptyBucket(buckets[j].name)
    {
      issued := issued + [EmptyBucket(buckets[i].name)];
      match outcomes[i]
      case Exited(code) =>
      case TimedOut =>
        success := false;
      case Failed =>
        success := false;
    }
  }

  // ---------------------------------------------------------------------------
  // The report and the monitoring run

  /** The violation count of `generate_report`: error results are skipped. */
  method GenerateReportTotal(results: seq<ServiceResult>) returns (total: nat)
    ensures total == ReportTotal(results)
    ensures ErrorsCarryNoViolations(results) ==> total == |AllViolations(results)|
  {
    total := 0;
    for i := 0 to |results|
      invariant total == ReportTotal(results[..i])
    {
      assert results[..i + 1][..i] == results[..i];
      if results[i].Errored? {
        continue;
      }
      total := total + |results[i].violations|;
    }
    assert results[..|results|] == results;
    if ErrorsCarryNoViolations(results) {
      ReportTotalCountsAllViolations(results);
    }
  }

  /**
   * The decision part of `run_monitoring` once both checks have run: whether it
   * returns True, the list handed to `send_alert` (None when no alert is sent),
   * and the emergency procedures it starts, in order.
   */
  method RunMonitoring(computeResult: ServiceResult, storageResult: ServiceResult, emergencyShutdown: bool)
    returns (success: bool, alert: Option<seq<Violation>>, actions: seq<EmergencyAction>)
    ensures success <==> computeResult.violations == [] && storageResult.violations == []
    ensures alert == if success then None else Some(computeResult.violations + storageResult.violations)
    ensures actions == if success || !emergencyShutdown then [] else EmergencyPlan(computeResult, storageResult)
  {
    var allViolations, emergencyNeeded := GatherViolations([computeResult, storageResult]);
    AllViolationsOfTwo(computeResult, storageResult);
    actions := [];
    if emergencyNeeded {
      alert := Some(allViolations);
      if emergencyShutdown {
        actions := StartEmergencyProcedures(computeResult, storageResult);
        success := false;
      } else {
        success := false;
      }
    } else {
      alert := None;
      success := true;
    }
  }

  /**
   * One run of `main` without `--continuous`: `run_monitoring` on the two check
   * outcomes, then `sys.exit`. An exception out of the storage check leaves
   * `run_monitoring` before the report, the alert and any emergency action, and
   * the interpreter exits with status 1.
   */
  method SingleRun(computeResult: ServiceResult, storageOutcome: Result<ServiceResult>, emergencyShutdown: bool)
    returns (exitCode: int, alert: Option<seq<Violation>>, actions: seq<EmergencyAction>)
    ensures exitCode == 0 || exitCode == 1
    ensures storageOutcome.Raised? ==> exitCode == 1 && alert == None && actions == []
    ensures storageOutcome.Ok? ==>
      var storageResult := storageOutcome.value;
      && (exitCode == 0 <==> computeResult.violations == [] && storageResult.violations == [])
      && (alert.Some? <==> exitCode == 1)
      && actions == if exitCode == 0 || !emergencyShutdown then [] else EmergencyPlan(computeResult, storageResult)
  {
    if storageOutcome.Raised? {
      return 1, None, [];
    }
    var success;
    success, alert, actions := RunMonitoring(computeResult, storageOutcome.value, emergencyShutdown);
    exitCode := ExitCode(success);
  }

  // ---------------------------------------------------------------------------
  // Properties of the rules

  /** A record is described exactly when it is RUNNING, and the descriptions keep listing order. */
  lemma {:induction false} RunningInstancesSelects(instances: seq<CliInstance>, info: InstanceInfo)
    ensures |RunningInstances(instances)| <= |instances|
    ensures info in RunningInstances(instances) <==>
      exists j :: 0 <= j < |instances| && IsRunning(instances[j]) && info == Describe(instances[j])
  {
    if instances != [] {
      var init := instances[..|instances| - 1];
      var last := instances[|instances| - 1];
      var extra := if IsRunning(last) then [Describe(last)] else [];
      assert RunningInstances(instances) == RunningInstances(init) + extra;
      RunningInstancesSelects(init, info);
      if info in RunningInstances(instances) {
        if info in RunningInstances(init) {
          var j :| 0 <= j < |init| && IsRunning(init[j]) && info == Describe(init[j]);
          assert instances[j] == init[j];
        } else {
          assert info in extra;
        }
      }
      if exists j :: 0 <= j < |instances| && IsRunning(instances[j]) && info == Describe(instances[j]) {
        var j :| 0 <= j < |instances| && IsRunning(instances[j]) && info == Describe(instances[j]);
        if j < |instances| - 1 {
          assert init[j] == instances[j];
        } else {
          assert info in extra;
        }
      }
    }
  }

  /** The region is the zone up to its last '-', "" for a zone without one, and "unknown" for an empty zone. */
  lemma RegionOfZoneCases(zone: string)
    ensures zone == "" ==> RegionOfZone(zone) == "unknown"
    ensures zone != "" && '-' !in zone ==> RegionOfZone(zone) == ""
    ensures '-' in zone ==> RegionOfZone(zone) == zone[..LastIndexOf(zone, '-')]
  {
    DropLastPartIsPrefix(zone, '-');
  }

  /** For example, zone `us-central1-a` is in region `us-central1`. */
  lemma RegionOfUsCentral1a()
    ensures RegionOfZone("us-central1-a") == "us-central1"
  {
    var z := "us-central1-a";
    assert LastIndexOf(z[..12], '-') == 11;
    DropLastPartIsPrefix(z, '-');
  }

  /** The compute check raises one violation per type mismatch and per region mismatch, plus one if more than one instance runs. */
  lemma ComputeViolationTotal(running: seq<InstanceInfo>)
    ensures |ComputeViolations(running)| ==
      TypeMismatches(running) + RegionMismatches(running) + (if |running| > ComputeInstancesMax then 1 else 0)
  {
    PerInstanceViolationCount(running);
  }

  /** The count violation is present iff more than one instance runs, and then it is the last one. */
  lemma CountViolationComesLast(running: seq<InstanceInfo>)
    ensures var vs := ComputeViolations(running);
      forall i :: 0 <= i < |vs| && vs[i].TooManyInstances? ==>
        i == |vs| - 1 && |running| > ComputeInstancesMax && vs[i] == TooManyInstances(|running|, ComputeInstancesMax)
    ensures |running| > ComputeInstancesMax ==>
      ComputeViolations(running)[|ComputeViolations(running)| - 1] == TooManyInstances(|running|, ComputeInstancesMax)
  {
    var per := PerInstanceViolations(running);
    PerInstanceViolationKinds(running);
    assert forall i :: 0 <= i < |per| ==> per[i] in per;
  }
}
