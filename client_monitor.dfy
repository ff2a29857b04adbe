/**
 * The client-library free-tier monitor: the same rules as the gcloud-CLI one,
 * reached through the Google Cloud client objects. Zone and instance listings,
 * bucket listings and the stop and delete calls are the inputs; the monitor
 * object keeps a `violations` list that every run extends and no run clears.
 */
module ClientMonitor {
  import opened PyText
  import opened FreeTier

  /** An instance as `InstancesClient.list` yields it. */
  datatype ApiInstance = ApiInstance(name: string, status: string, machineType: string)

  /** One zone name from `ZonesClient.list`, with its instance listing: None when that listing raised. */
  datatype ZoneListing = ZoneListing(zone: string, listed: Option<seq<ApiInstance>>)

  /** A bucket from `list_buckets()`; `blobsListed` is false when listing its objects raised. */
  datatype ApiBucket = ApiBucket(name: string, location: string, blobsListed: bool)

  /** A `compute_client.stop` call that was made. */
  datatype StopCall = StopCall(instance: Option<string>, zone: string)

  /** A call that empties a bucket (deleting each object) or deletes it outright. */
  datatype BucketCall = EmptyCall(bucket: string) | DeleteCall(bucket: string)

  /** `zone.rsplit('-', 1)[0]`: a zone without '-' is its own region. */
  function RegionOfZone(zone: string): string
  {
    RSplitOnce(zone, '-')[0]
  }

  /** The dictionary kept for a running instance of `zone`. */
  function Describe(zone: string, inst: ApiInstance): InstanceInfo
  {
    InstanceInfo(Some(inst.name), zone, RegionOfZone(zone), LastSegment(inst.machineType, '/'), inst.status)
  }

  /** The running instances of one zone, in listing order. */
  function RunningInZone(zone: string, insts: seq<ApiInstance>): seq<InstanceInfo>
  {
    if insts == [] then []
    else
      var last := insts[|insts| - 1];
      RunningInZone(zone, insts[..|insts| - 1]) + (if last.status == "RUNNING" then [Describe(zone, last)] else [])
  }

  /** `instances` after both loops: zone by zone, skipping zones whose listing raised. */
  function CollectRunning(zones: seq<ZoneListing>): seq<InstanceInfo>
  {
    if zones == [] then []
    else
      var last := zones[|zones| - 1];
      CollectRunning(zones[..|zones| - 1])
      + (match last.listed
         case None => []
         case Some(insts) => RunningInZone(last.zone, insts))
  }

  /** The violations of a successful compute check: the count violation first, then the per-instance ones. */
  function ComputeViolations(running: seq<InstanceInfo>): seq<Violation>
  {
    CountViolation(running) + PerInstanceViolations(running)
  }

  /** `buckets_info`: the buckets whose objects could be listed, in listing order. */
  function ReadableBuckets(buckets: seq<ApiBucket>): seq<BucketInfo>
  {
    if buckets == [] then []
    else
      var last := buckets[|buckets| - 1];
      ReadableBuckets(buckets[..|buckets| - 1]) + (if last.blobsListed then [BucketInfo(last.name, last.location)] else [])
  }

  lemma RunningInZoneStep(zone: string, insts: seq<ApiInstance>, k: nat)
    requires k < |insts|
    ensures RunningInZone(zone, insts[..k + 1]) ==
      RunningInZone(zone, insts[..k]) + (if insts[k].status == "RUNNING" then [Describe(zone, insts[k])] else [])
  {
    assert insts[..k + 1][..k] == insts[..k];
  }

  lemma CollectRunningStep(zones: seq<ZoneListing>, z: nat)
    requires z < |zones|
    ensures CollectRunning(zones[..z + 1]) ==
      CollectRunning(zones[..z]) + (match zones[z].listed case None => [] case Some(insts) => RunningInZone(zones[z].zone, insts))
  {
    assert zones[..z + 1][..z] == zones[..z];
  }

  lemma ReadableBucketsStep(buckets: seq<ApiBucket>, i: nat)
    requires i < |buckets|
    ensures ReadableBuckets(buckets[..i + 1]) ==
      ReadableBuckets(buckets[..i]) + (if buckets[i].blobsListed then [BucketInfo(buckets[i].name, buckets[i].location)] else [])
  {
    assert buckets[..i + 1][..i] == buckets[..i];
  }

  // ---------------------------------------------------------------------------
  // The checks

  /**
   * The classification part of `check_compute_engine`. `zones` is the zone
   * listing with each zone's instance listing, or the message of the exception
   * that listing the zones raised.
   */
  method CheckComputeEngine(zones: Result<seq<ZoneListing>>) returns (result: ServiceResult)
    ensures zones.Raised? ==> result == Errored("compute_engine", zones.message, [])
    ensures zones.Ok? ==>
      var running := CollectRunning(zones.value);
      result == ComputeChecked("compute_engine", running, ComputeViolations(running), |running|, ComputeInstancesMax)
  {
    if zones.Raised? {
      return Errored("compute_engine", zones.message, []);
    }
    var zs := zones.value;
    var instances: seq<InstanceInfo> := [];
    for z := 0 to |zs|
      invariant instances == CollectRunning(zs[..z])
    {
      match zs[z].listed {
        case None =>
        case Some(zoneInstances) =>
          var found := RunningOfZone(zs[z].zone, zoneInstances);
          instances := instances + found;
      }
      CollectRunningStep(zs, z);
    }
    assert zs[..|zs|] == zs;
    var violations := ClassifyInstances(instances);
    result := ComputeChecked("compute_engine", instances, violations, |instances|, ComputeInstancesMax);
  }

  /** The inner loop of `check_compute_engine` over one zone's instances. */
  method RunningOfZone(zone: string, zoneInstances: seq<ApiInstance>) returns (found: seq<InstanceInfo>)
    ensures found == RunningInZone(zone, zoneInstances)
  {
    found := [];
    for k := 0 to |zoneInstances|
      invariant found == RunningInZone(zone, zoneInstances[..k])
    {
      var instance := zoneInstances[k];
      if instance.status == "RUNNING" {
        found := found + [InstanceInfo(Some(instance.name), zone, RSplitOnce(zone, '-')[0],
                                       LastSegment(instance.machineType, '/'), instance.status)];
      }
      RunningInZoneStep(zone, zoneInstances, k);
    }
    assert zoneInstances[..|zoneInstances|] == zoneInstances;
  }

  /** The rule part of `check_compute_engine`: the count rule first, then the per-instance rules. */
  method ClassifyInstances(instances: seq<InstanceInfo>) returns (violations: seq<Violation>)
    ensures violations == ComputeViolations(instances)
  {
    var counted := [];
    if |instances| > ComputeInstancesMax {
      counted := counted + [TooManyInstances(|instances|, ComputeInstancesMax)];
    }
    violations := counted;
    for i := 0 to |instances|
      invariant violations == counted + PerInstanceViolations(instances[..i])
    {
      var found := ClassifyInstance(instances[i]);
      ClassifyStep(counted, instances, i);
      violations := violations + found;
    }
    assert instances[..|instances|] == instances;
  }

  lemma ClassifyStep(counted: seq<Violation>, instances: seq<InstanceInfo>, i: nat)
    requires i < |instances|
    ensures counted + PerInstanceViolations(instances[..i]) + InstanceViolations(instances[i]) ==
            counted + PerInstanceViolations(instances[..i + 1])
  {
    PerInstanceViolationsPrefix(instances, i);
  }

  /** One more bucket: if its objects could be listed, its record and its location violation, if any, are appended. */
  lemma ReadBucketStep(buckets: seq<ApiBucket>, i: nat)
    requires i < |buckets|
    ensures var b := buckets[i];
      && ReadableBuckets(buckets[..i + 1]) ==
           ReadableBuckets(buckets[..i]) + (if b.blobsListed then [BucketInfo(b.name, b.location)] else [])
      && LocationViolations(ReadableBuckets(buckets[..i + 1])) ==
           LocationViolations(ReadableBuckets(buckets[..i]))
           + (if b.blobsListed && b.location !in FreeBucketLocations then [NonFreeBucketLocation(b.name, b.location)] else [])
  {
    var b := buckets[i];
    ReadableBucketsStep(buckets, i);
    if b.blobsListed {
      LocationViolationsStep(ReadableBuckets(buckets[..i]), BucketInfo(b.name, b.location));
    } else {
      assert ReadableBuckets(buckets[..i]) + [] == ReadableBuckets(buckets[..i]);
      assert LocationViolations(ReadableBuckets(buckets[..i])) + [] == LocationViolations(ReadableBuckets(buckets[..i]));
    }
  }

  /**
   * The location rule of `check_cloud_storage`. A bucket whose objects cannot be
   * listed is skipped whole; `overLimit` is the outcome of the floating-point
   * total-size comparison, which is not modelled.
   */
  method CheckCloudStorage(listing: Result<seq<ApiBucket>>, overLimit: bool) returns (result: ServiceResult)
    ensures listing.Raised? ==> result == Errored("cloud_storage", listing.message, [])
    ensures listing.Ok? ==>
      var infos := ReadableBuckets(listing.value);
      result == StorageChecked("cloud_storage", infos, LocationViolations(infos) + (if overLimit then [StorageOverLimit] else []))
  {
    if listing.Raised? {
      return Errored("cloud_storage", listing.message, []);
    }
    var buckets := listing.value;
    var violations: seq<Violation> := [];
    var infos: seq<BucketInfo> := [];
    for i := 0 to |buckets|
      invariant infos == ReadableBuckets(buckets[..i])
      invariant violations == LocationViolations(infos)
    {
      var bucket := buckets[i];
      ReadBucketStep(buckets, i);
      if bucket.blobsListed {
        infos := infos + [BucketInfo(bucket.name, bucket.location)];
        if bucket.location !in FreeBucketLocations {
          violations := violations + [NonFreeBucketLocation(bucket.name, bucket.location)];
        }
      }
    }
    assert buckets[..|buckets|] == buckets;
    assert violations + [] == violations;
    if overLimit {
      violations := violations + [StorageOverLimit];
    }
    result := StorageChecked("cloud_storage", infos, violations);
  }

  // ---------------------------------------------------------------------------
  // Emergency procedures

  /** `shutdown_compute_instances`: one stop call per instance; `raised[i]` says whether the i-th raised. */
  method ShutdownComputeInstances(instances: seq<InstanceInfo>, raised: seq<bool>)
    returns (success: bool, issued: seq<StopCall>)
    requires |raised| == |instances|
    ensures success <==> forall i :: 0 <= i < |instances| ==> !raised[i]
    ensures |issued| == |instances|
    ensures forall i :: 0 <= i < |instances| ==> issued[i] == StopCall(instances[i].name, instances[i].zone)
  {
    success := true;
    issued := [];
    for i := 0 to |instances|
      invariant success <==> forall j :: 0 <= j < i ==> !raised[j]
      invariant |issued| == i
      invariant forall j :: 0 <= j < i ==> issued[j] == StopCall(instances[j].name, instances[j].zone)
    {
      issued := issued + [StopCall(instances[i].name, instances[i].zone)];
      if raised[i] {
        success := false;
      }
    }
  }

  /**
   * `delete_storage_buckets`: each bucket is emptied when `keepEmpty` holds and
   * deleted otherwise; `raised[i]` says whether the i-th bucket's calls raised.
   */
  method DeleteStorageBuckets(buckets: seq<BucketInfo>, keepEmpty: bool, raised: seq<bool>)
    returns (success: bool, issued: seq<BucketCall>)
    requires |raised| == |buckets|
    ensures success <==> forall i :: 0 <= i < |buckets| ==> !raised[i]
    ensures |issued| == |buckets|
    ensures forall i :: 0 <= i < |buckets| ==>
      issued[i] == if keepEmpty then EmptyCall(buckets[i].name) else DeleteCall(buckets[i].name)
  {
    success := true;
    issued := [];
    for i := 0 to |buckets|
      invariant success <==> forall j :: 0 <= j < i ==> !raised[j]
      invariant |issued| == i
      invariant forall j :: 0 <= j < i ==>
        issued[j] == if keepEmpty then EmptyCall(buckets[j].name) else DeleteCall(buckets[j].name)
    {
      if keepEmpty {
        issued := issued + [EmptyCall(buckets[i].name)];
      } else {
        issued := issued + [DeleteCall(buckets[i].name)];
      }
      if raised[i] {
        success := false;
      }
    }
  }

  // ---------------------------------------------------------------------------
  // The monitor object

  class Monitor {
    /** `self.emergency_shutdown`. */
    const emergencyShutdown: bool
    /** `self.violations`: every violation of every run so far. */
    var violations: seq<Violation>

    constructor (emergencyShutdown: bool)
      ensures this.emergencyShutdown == emergencyShutdown
      ensures violations == []
    {
      this.emergencyShutdown := emergencyShutdown;
      violations := [];
    }

    /**
     * The counting part of `generate_report`: the total over results without an
     * `'error'` key, and whether the emergency-mode banner is printed.
     */
    method GenerateReportSummary(results: seq<ServiceResult>) returns (total: nat, emergencyBanner: bool)
      ensures total == ReportTotal(results)
      ensures ErrorsCarryNoViolations(results) ==> total == |AllViolations(results)|
      ensures emergencyBanner <==> total > 0 && emergencyShutdown
    {
      total := 0;
      for i := 0 to |results|
        invariant total == ReportTotal(results[..i])
      {
        assert results[..i + 1][..i] == results[..i];
        if results[i].Errored? {
          continue;
        }
        total := total + |results[i].violations|;
      }
      assert results[..|results|] == results;
      if ErrorsCarryNoViolations(results) {
        ReportTotalCountsAllViolations(results);
      }
      emergencyBanner := total > 0 && emergencyShutdown;
    }

    /**
     * The decision part of `run_monitoring` once the three checks have run: the
     * value it returns and the emergency procedures it starts, in order. Every
     * violation is appended to `violations`.
     */
    method RunMonitoring(computeResult: ServiceResult, storageResult: ServiceResult, bigqueryResult: ServiceResult)
      returns (success: bool, actions: seq<EmergencyAction>)
      modifies this
      ensures violations == old(violations) + computeResult.violations + storageResult.violations + bigqueryResult.violations
      ensures success <==>
        computeResult.violations == [] && storageResult.violations == [] && bigqueryResult.violations == []
      ensures actions == if success || !emergencyShutdown then [] else EmergencyPlan(computeResult, storageResult)
    {
      var found, hasViolations := GatherViolations([computeResult, storageResult, bigqueryResult]);
      violations := violations + found;
      AllViolationsOfThree(computeResult, storageResult, bigqueryResult);
      actions := [];
      if hasViolations && emergencyShutdown {
        actions := StartEmergencyProcedures(computeResult, storageResult);
        success := false;
      } else if hasViolations {
        success := false;
      } else {
        success := true;
      }
    }
  }

  lemma AllViolationsOfThree(a: ServiceResult, b: ServiceResult, c: ServiceResult)
    ensures AllViolations([a, b, c]) == a.violations + b.violations + c.violations
  {
    assert [a, b, c][..2] == [a, b];
    AllViolationsOfTwo(a, b);
  }

  /** Two runs that each find a violation leave both in the monitor: the list is never cleared. */
  method AccumulationScenario() returns (accumulated: seq<Violation>)
    ensures accumulated == [StorageOverLimit, StorageOverLimit]
  {
    var m := new Monitor(false);
    var storage := StorageChecked("cloud_storage", [], [StorageOverLimit]);
    var compute := ComputeChecked("compute_engine", [], [], 0, ComputeInstancesMax);
    var bigquery := BigQueryChecked("bigquery", []);
    var ok1, actions1 := m.RunMonitoring(compute, storage, bigquery);
    var ok2, actions2 := m.RunMonitoring(compute, storage, bigquery);
    accumulated := m.violations;
  }

  // ---------------------------------------------------------------------------
  // Properties of the rules

  /** The count violation is present iff more than one instance runs, and then it comes first. */
  lemma CountViolationComesFirst(running: seq<InstanceInfo>)
    ensures var vs := ComputeViolations(running);
      forall i :: 0 <= i < |vs| && vs[i].TooManyInstances? ==>
        i == 0 && |running| > ComputeInstancesMax && vs[i] == TooManyInstances(|running|, ComputeInstancesMax)
    ensures |running| > ComputeInstancesMax ==>
      ComputeViolations(running)[0] == TooManyInstances(|running|, ComputeInstancesMax)
  {
    var per := PerInstanceViolations(running);
    PerInstanceViolationKinds(running);
    assert forall i :: 0 <= i < |per| ==> per[i] in per;
  }

  /** The region is the zone up to its last '-', and the whole zone when it has none. */
  lemma RegionOfZoneCases(zone: string)
    ensures '-' !in zone ==> RegionOfZone(zone) == zone
    ensures '-' in zone ==> RegionOfZone(zone) == zone[..LastIndexOf(zone, '-')]
  {
  }

  /** The instances of zones whose listing raised are left out; the other zones are unaffected. */
  lemma {:induction false} CollectRunningSplits(a: seq<ZoneListing>, b: seq<ZoneListing>)
    ensures CollectRunning(a + b) == CollectRunning(a) + CollectRunning(b)
  {
    if b != [] {
      var init := b[..|b| - 1];
      assert (a + b)[..|a + b| - 1] == a + init;
      assert (a + b)[|a + b| - 1] == b[|b| - 1];
      CollectRunningSplits(a, init);
    } else {
      assert a + b == a;
    }
  }

  /** A zone whose instance listing raised contributes nothing, wherever it sits. */
  lemma FailedZoneIsSkipped(a: seq<ZoneListing>, zone: string, b: seq<ZoneListing>)
    ensures CollectRunning(a + [ZoneListing(zone, None)] + b) == CollectRunning(a + b)
  {
    var failed := [ZoneListing(zone, None)];
    assert CollectRunning(failed) == [] by {
      assert failed[..0] == [];
    }
    CollectRunningSplits(a, failed);
    CollectRunningSplits(a + failed, b);
    CollectRunningSplits(a, b);
  }
}
