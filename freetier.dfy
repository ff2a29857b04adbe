/**
 * What the two free-tier monitors have in common: the compute and storage limits
 * (both `FreeTierLimits` dataclasses hold the same compute values), the record a
 * check keeps per running instance and bucket, the violations it raises, the
 * result dictionary it returns, and the two sums made over a list of results:
 * `all_violations` in `run_monitoring` and `total_violations` in `generate_report`.
 *
 * The source builds each violation as an f-string; here a violation is a value
 * holding the same fields, so that the two engines can be compared although their
 * wording differs.
 */
module FreeTier {
  import opened PyText

  /** `compute_instances_max`. */
  const ComputeInstancesMax: nat := 1
  /** `compute_instance_type`. */
  const ComputeInstanceType: string := "f1-micro"
  /** `compute_allowed_regions` (called `compute_allowed_zones` in the client-library monitor). */
  const ComputeAllowedRegions: seq<string> := ["us-west1", "us-central1", "us-east1"]
  /** The bucket locations the storage checks accept, compared case-sensitively. */
  const FreeBucketLocations: seq<string> := ["US-WEST1", "US-CENTRAL1", "US-EAST1", "US"]

  /** The dictionary a compute check keeps for one running instance. `name` is None when the record had none. */
  datatype InstanceInfo = InstanceInfo(name: Option<string>, zone: string, region: string, machineType: string, status: string)

  /** The dictionary a storage check keeps for one bucket (its size is not modelled). */
  datatype BucketInfo = BucketInfo(name: string, location: string)

  datatype Violation =
    | NonFreeInstanceType(instance: Option<string>, machineType: string)
    | NonFreeRegion(instance: Option<string>, region: string)
    | TooManyInstances(running: nat, limit: nat)
    | NonFreeBucketLocation(bucket: string, location: string)
    | StorageOverLimit
    | BigQueryStorageOverLimit

  /**
   * The dictionary a check returns. Every shape has a `violations` list; an
   * `Errored` result is the one with an `'error'` key.
   */
  datatype ServiceResult =
    | Errored(service: string, error: string, violations: seq<Violation>)
    | ComputeChecked(service: string, instances: seq<InstanceInfo>, violations: seq<Violation>, usage: nat, limit: nat)
    | StorageChecked(service: string, buckets: seq<BucketInfo>, violations: seq<Violation>)
    | BigQueryChecked(service: string, violations: seq<Violation>)

  /** An emergency procedure `run_monitoring` triggers. */
  datatype EmergencyAction =
    | StopInstances(instances: seq<InstanceInfo>)
    | CleanBuckets(buckets: seq<BucketInfo>, keepEmpty: bool)

  /** `result.get('instances', [])`. */
  function InstancesOf(r: ServiceResult): seq<InstanceInfo>
  {
    if r.ComputeChecked? then r.instances else []
  }

  /** `result.get('buckets', [])`. */
  function BucketsOf(r: ServiceResult): seq<BucketInfo>
  {
    if r.StorageChecked? then r.buckets else []
  }

  // ---------------------------------------------------------------------------
  // The per-instance and per-bucket rules

  /** The type and region violations of one running instance, in that order. */
  function InstanceViolations(info: InstanceInfo): seq<Violation>
  {
    (if info.machineType != ComputeInstanceType then [NonFreeInstanceType(info.name, info.machineType)] else [])
    + (if info.region !in ComputeAllowedRegions then [NonFreeRegion(info.name, info.region)] else [])
  }

  /** The per-instance violations of a list of running instances, in instance order. */
  function PerInstanceViolations(infos: seq<InstanceInfo>): seq<Violation>
  {
    if infos == [] then []
    else PerInstanceViolations(infos[..|infos| - 1]) + InstanceViolations(infos[|infos| - 1])
  }

  /** The two checks made on each running instance: machine type first, then region. */
  method ClassifyInstance(info: InstanceInfo) returns (found: seq<Violation>)
    ensures found == InstanceViolations(info)
  {
    found := [];
    if info.machineType != ComputeInstanceType {
      found := found + [NonFreeInstanceType(info.name, info.machineType)];
    }
    if info.region !in ComputeAllowedRegions {
      found := found + [NonFreeRegion(info.name, info.region)];
    }
  }

  /** Describing one more running instance appends its own violations. */
  lemma PerInstanceViolationsStep(infos: seq<InstanceInfo>, info: InstanceInfo)
    ensures PerInstanceViolations(infos + [info]) == PerInstanceViolations(infos) + InstanceViolations(info)
  {
    assert (infos + [info])[..|infos|] == infos;
  }

  lemma PerInstanceViolationsPrefix(infos: seq<InstanceInfo>, i: nat)
    requires i < |infos|
    ensures PerInstanceViolations(infos[..i + 1]) == PerInstanceViolations(infos[..i]) + InstanceViolations(infos[i])
  {
    assert infos[..i + 1][..i] == infos[..i];
  }

  /** The instance-count violation, present iff more instances run than the limit allows. */
  function CountViolation(infos: seq<InstanceInfo>): seq<Violation>
  {
    if |infos| > ComputeInstancesMax then [TooManyInstances(|infos|, ComputeInstancesMax)] else []
  }

  /** Instances whose machine type is not the free one. */
  function TypeMismatches(infos: seq<InstanceInfo>): nat
  {
    if infos == [] then 0
    else TypeMismatches(infos[..|infos| - 1]) + (if infos[|infos| - 1].machineType != ComputeInstanceType then 1 else 0)
  }

  /** Instances whose region is not a free one. */
  function RegionMismatches(infos: seq<InstanceInfo>): nat
  {
    if infos == [] then 0
    else RegionMismatches(infos[..|infos| - 1]) + (if infos[|infos| - 1].region !in ComputeAllowedRegions then 1 else 0)
  }

  /** A type violation names an instance whose machine type is not `f1-micro`, and every such instance has one. */
  lemma {:induction false} TypeViolationIff(infos: seq<InstanceInfo>, n: Option<string>, t: string)
    ensures NonFreeInstanceType(n, t) in PerInstanceViolations(infos) <==>
      t != ComputeInstanceType && exists i :: 0 <= i < |infos| && infos[i].name == n && infos[i].machineType == t
  {
    if infos != [] {
      var init := infos[..|infos| - 1];
      TypeViolationIff(init, n, t);
      if t != ComputeInstanceType && exists i :: 0 <= i < |infos| && infos[i].name == n && infos[i].machineType == t {
        var i :| 0 <= i < |infos| && infos[i].name == n && infos[i].machineType == t;
        if i < |infos| - 1 {
          assert init[i] == infos[i];
        }
      }
      if NonFreeInstanceType(n, t) in PerInstanceViolations(init) {
        var i :| 0 <= i < |init| && init[i].name == n && init[i].machineType == t;
        assert infos[i] == init[i];
      }
    }
  }

  /** A region violation names an instance outside the free regions, and every such instance has one. */
  lemma {:induction false} RegionViolationIff(infos: seq<InstanceInfo>, n: Option<string>, g: string)
    ensures NonFreeRegion(n, g) in PerInstanceViolations(infos) <==>
      g !in ComputeAllowedRegions && exists i :: 0 <= i < |infos| && infos[i].name == n && infos[i].region == g
  {
    if infos != [] {
      var init := infos[..|infos| - 1];
      RegionViolationIff(init, n, g);
      if g !in ComputeAllowedRegions && exists i :: 0 <= i < |infos| && infos[i].name == n && infos[i].region == g {
        var i :| 0 <= i < |infos| && infos[i].name == n && infos[i].region == g;
        if i < |infos| - 1 {
          assert init[i] == infos[i];
        }
      }
      if NonFreeRegion(n, g) in PerInstanceViolations(init) {
        var i :| 0 <= i < |init| && init[i].name == n && init[i].region == g;
        assert infos[i] == init[i];
      }
    }
  }

  /** The per-instance rules raise only type and region violations. */
  lemma {:induction false} PerInstanceViolationKinds(infos: seq<InstanceInfo>)
    ensures forall v :: v in PerInstanceViolations(infos) ==> v.NonFreeInstanceType? || v.NonFreeRegion?
  {
    if infos != [] {
      PerInstanceViolationKinds(infos[..|infos| - 1]);
    }
  }

  /** There is one per-instance violation per type mismatch and one per region mismatch. */
  lemma {:induction false} PerInstanceViolationCount(infos: seq<InstanceInfo>)
    ensures |PerInstanceViolations(infos)| == TypeMismatches(infos) + RegionMismatches(infos)
  {
    if infos != [] {
      PerInstanceViolationCount(infos[..|infos| - 1]);
    }
  }

  /** The violations of the bucket records that sit outside the free locations, in bucket order. */
  function LocationViolations(buckets: seq<BucketInfo>): seq<Violation>
  {
    if buckets == [] then []
    else
      var last := buckets[|buckets| - 1];
      LocationViolations(buckets[..|buckets| - 1])
      + (if last.location !in FreeBucketLocations then [NonFreeBucketLocation(last.name, last.location)] else [])
  }

  /** A bucket raises a location violation iff its location is not exactly one of the four free ones. */
  lemma {:induction false} LocationViolationIff(buckets: seq<BucketInfo>, n: string, l: string)
    ensures NonFreeBucketLocation(n, l) in LocationViolations(buckets) <==>
      l !in FreeBucketLocations && BucketInfo(n, l) in buckets
    ensures forall v :: v in LocationViolations(buckets) ==> v.NonFreeBucketLocation?
    ensures |LocationViolations(buckets)| <= |buckets|
  {
    if buckets != [] {
      var init := buckets[..|buckets| - 1];
      assert buckets == init + [buckets[|buckets| - 1]];
      LocationViolationIff(init, n, l);
    }
  }

  /** One more bucket record appends its own location violation, if any. */
  lemma LocationViolationsStep(buckets: seq<BucketInfo>, b: BucketInfo)
    ensures LocationViolations(buckets + [b]) ==
      LocationViolations(buckets) + (if b.location !in FreeBucketLocations then [NonFreeBucketLocation(b.name, b.location)] else [])
  {
    assert (buckets + [b])[..|buckets|] == buckets;
  }

  /** The location rule is an exact, case-sensitive comparison. */
  lemma LocationRuleIsCaseSensitive()
    ensures LocationViolations([BucketInfo("b", "us-west1")]) == [NonFreeBucketLocation("b", "us-west1")]
    ensures LocationViolations([BucketInfo("b", "US-WEST1")]) == []
  {
  }

  // ---------------------------------------------------------------------------
  // Emergency procedures

  /**
   * What `run_monitoring` starts once it acts on violations: a stop of the compute
   * result's instances, then an emptying of the storage result's buckets.
   */
  function EmergencyPlan(computeResult: ServiceResult, storageResult: ServiceResult): seq<EmergencyAction>
  {
    (if computeResult.violations != [] && InstancesOf(computeResult) != []
     then [StopInstances(InstancesOf(computeResult))] else [])
    + (if storageResult.violations != [] && BucketsOf(storageResult) != []
       then [CleanBuckets(BucketsOf(storageResult), true)] else [])
  }

  /** The two guarded calls of the emergency branch, in source order. */
  method StartEmergencyProcedures(computeResult: ServiceResult, storageResult: ServiceResult)
    returns (actions: seq<EmergencyAction>)
    ensures actions == EmergencyPlan(computeResult, storageResult)
  {
    actions := [];
    if computeResult.violations != [] {
      var instances := InstancesOf(computeResult);
      if instances != [] {
        actions := actions + [StopInstances(instances)];
      }
    }
    if storageResult.violations != [] {
      var buckets := BucketsOf(storageResult);
      if buckets != [] {
        actions := actions + [CleanBuckets(buckets, true)];
      }
    }
  }

  /**
   * Instances are stopped iff the compute result has violations and instances;
   * buckets are emptied iff the storage result has violations and buckets; a
   * bucket is never deleted, and the stop comes first.
   */
  lemma EmergencyPlanActs(computeResult: ServiceResult, storageResult: ServiceResult)
    ensures var plan := EmergencyPlan(computeResult, storageResult);
      && (StopInstances(InstancesOf(computeResult)) in plan <==>
            computeResult.violations != [] && InstancesOf(computeResult) != [])
      && (CleanBuckets(BucketsOf(storageResult), true) in plan <==>
            storageResult.violations != [] && BucketsOf(storageResult) != [])
      && (forall i :: 0 <= i < |plan| ==>
            plan[i] == StopInstances(InstancesOf(computeResult)) || plan[i] == CleanBuckets(BucketsOf(storageResult), true))
      && (forall i :: 0 <= i < |plan| && plan[i].CleanBuckets? ==> plan[i].keepEmpty)
      && (|plan| == 2 ==> plan[0].StopInstances?)
  {
  }

  // ---------------------------------------------------------------------------
  // Sums over a list of check results

  /** The checks never put violations into an error result (`'violations': []`). */
  predicate ErrorsCarryNoViolations(results: seq<ServiceResult>)
  {
    forall i :: 0 <= i < |results| && results[i].Errored? ==> results[i].violations == []
  }

  /** `all_violations` in `run_monitoring`: every result's list, concatenated in result order. */
  function AllViolations(results: seq<ServiceResult>): seq<Violation>
  {
    if results == [] then []
    else AllViolations(results[..|results| - 1]) + results[|results| - 1].violations
  }

  lemma AllViolationsStep(results: seq<ServiceResult>, i: nat)
    requires i < |results|
    ensures AllViolations(results[..i + 1]) == AllViolations(results[..i]) + results[i].violations
  {
    assert results[..i + 1][..i] == results[..i];
  }

  /**
   * The loop over the results in `run_monitoring`: every result's violations in
   * order, and whether there was any.
   */
  method GatherViolations(results: seq<ServiceResult>) returns (gathered: seq<Violation>, found: bool)
    ensures gathered == AllViolations(results)
    ensures found <==> gathered != []
  {
    gathered := [];
    found := false;
    for i := 0 to |results|
      invariant gathered == AllViolations(results[..i])
      invariant found <==> gathered != []
    {
      AllViolationsStep(results, i);
      var violations := results[i].violations;
      if violations != [] {
        gathered := gathered + violations;
        found := true;
      }
    }
    assert results[..|results|] == results;
  }

  /** `total_violations` in `generate_report`: results with an `'error'` key are skipped. */
  function ReportTotal(results: seq<ServiceResult>): nat
  {
    if results == [] then 0
    else
      var last := results[|results| - 1];
      ReportTotal(results[..|results| - 1]) + (if last.Errored? then 0 else |last.violations|)
  }

  /** `all_violations` of a compute and a storage result. */
  lemma AllViolationsOfTwo(a: ServiceResult, b: ServiceResult)
    ensures AllViolations([a, b]) == a.violations + b.violations
  {
    assert [a, b][..1] == [a];
    assert [a][..0] == [];
    assert AllViolations([a]) == [] + a.violations;
    assert AllViolations([a, b]) == AllViolations([a]) + b.violations;
  }

  /** No violation at all exactly when every result's list is empty. */
  lemma {:induction false} AllViolationsEmptyIff(results: seq<ServiceResult>)
    ensures AllViolations(results) == [] <==> forall i :: 0 <= i < |results| ==> results[i].violations == []
  {
    if results != [] {
      var init := results[..|results| - 1];
      AllViolationsEmptyIff(init);
      assert forall i :: 0 <= i < |init| ==> init[i] == results[i];
    }
  }

  /**
   * As long as error results carry no violations, the report's total counts
   * `all_violations`. The requirement matters: the report skips error results
   * whatever they hold, while `run_monitoring` collects their violations too.
   */
  lemma {:induction false} ReportTotalCountsAllViolations(results: seq<ServiceResult>)
    requires ErrorsCarryNoViolations(results)
    ensures ReportTotal(results) == |AllViolations(results)|
  {
    if results != [] {
      var init := results[..|results| - 1];
      assert ErrorsCarryNoViolations(init) by {
        assert forall i :: 0 <= i < |init| ==> init[i] == results[i];
      }
      ReportTotalCountsAllViolations(init);
    }
  }
}
