/**
 * The gcloud-CLI monitor and the client-library monitor apply the same compute
 * rules to the same instances, but derive an instance's region differently:
 * the CLI monitor joins all '-' pieces of the zone but the last, the
 * client-library monitor cuts at the last '-'. This module relates them.
 */
module EngineAgreement {
  import opened PyText
  import opened FreeTier
  import SimpleMonitor
  import ClientMonitor

  /** The CLI record of an instance the client library listed in `zone`; `prefix` is the zone URL up to its last '/'. */
  function AsCliRecord(prefix: string, zone: string, inst: ClientMonitor.ApiInstance): SimpleMonitor.CliInstance
  {
    SimpleMonitor.CliInstance(Some(inst.name), Some(inst.status), Some(inst.machineType), Some(prefix + "/" + zone))
  }

  function ZoneRecords(prefix: string, zone: string, insts: seq<ClientMonitor.ApiInstance>): seq<SimpleMonitor.CliInstance>
  {
    if insts == [] then []
    else ZoneRecords(prefix, zone, insts[..|insts| - 1]) + [AsCliRecord(prefix, zone, insts[|insts| - 1])]
  }

  /** The CLI listing of the instances the client library listed, zone by zone. */
  function AsCliListing(prefix: string, zones: seq<ClientMonitor.ZoneListing>): seq<SimpleMonitor.CliInstance>
  {
    if zones == [] then []
    else
      var last := zones[|zones| - 1];
      AsCliListing(prefix, zones[..|zones| - 1])
      + (match last.listed
         case None => []
         case Some(insts) => ZoneRecords(prefix, last.zone, insts))
  }

  /** Zone names as Google Cloud issues them: a region, '-', a letter; never a '/'. */
  predicate WellFormedZones(zones: seq<ClientMonitor.ZoneListing>)
  {
    forall z :: 0 <= z < |zones| ==> '-' in zones[z].zone && '/' !in zones[z].zone
  }

  /** For a non-empty zone the two region derivations agree exactly when the zone contains '-'. */
  lemma RegionsAgreeIff(zone: string)
    requires zone != ""
    ensures SimpleMonitor.RegionOfZone(zone) == ClientMonitor.RegionOfZone(zone) <==> '-' in zone
  {
    DropLastPartIsPrefix(zone, '-');
  }

  /** A zone without '-': the CLI monitor reports region "", the client-library monitor the zone itself. */
  lemma RegionsDisagreeWithoutHyphen()
    ensures SimpleMonitor.RegionOfZone("europe") == ""
    ensures ClientMonitor.RegionOfZone("europe") == "europe"
  {
    RegionsAgreeIff("europe");
    DropLastPartIsPrefix("europe", '-');
  }

  lemma {:induction false} RunningInstancesAppend(a: seq<SimpleMonitor.CliInstance>, b: seq<SimpleMonitor.CliInstance>)
    ensures SimpleMonitor.RunningInstances(a + b) == SimpleMonitor.RunningInstances(a) + SimpleMonitor.RunningInstances(b)
    decreases |b|
  {
    if b == [] {
      assert a + b == a;
    } else {
      var init := b[..|b| - 1];
      assert (a + b)[..|a + b| - 1] == a + init;
      assert (a + b)[|a + b| - 1] == b[|b| - 1];
      RunningInstancesAppend(a, init);
    }
  }

  /** A running instance is described alike by both monitors. */
  lemma DescribeAgrees(prefix: string, zone: string, inst: ClientMonitor.ApiInstance)
    requires '-' in zone && '/' !in zone
    requires inst.status == "RUNNING"
    ensures SimpleMonitor.Describe(AsCliRecord(prefix, zone, inst)) == ClientMonitor.Describe(zone, inst)
  {
    LastSegmentAfter(prefix, zone, '/');
    assert prefix + "/" + zone == prefix + ['/'] + zone;
    RegionsAgreeIff(zone);
  }

  lemma {:induction false} ZoneAgrees(prefix: string, zone: string, insts: seq<ClientMonitor.ApiInstance>)
    requires '-' in zone && '/' !in zone
    ensures SimpleMonitor.RunningInstances(ZoneRecords(prefix, zone, insts)) == ClientMonitor.RunningInZone(zone, insts)
  {
    if insts != [] {
      var last := insts[|insts| - 1];
      var init := insts[..|insts| - 1];
      ZoneAgrees(prefix, zone, init);
      RunningInstancesAppend(ZoneRecords(prefix, zone, init), [AsCliRecord(prefix, zone, last)]);
      assert [AsCliRecord(prefix, zone, last)][..0] == [];
      if last.status == "RUNNING" {
        DescribeAgrees(prefix, zone, last);
      }
    }
  }

  /** On well-formed zones, both monitors find the same running instances in the same order. */
  lemma {:induction false} RunningAgrees(prefix: string, zones: seq<ClientMonitor.ZoneListing>)
    requires WellFormedZones(zones)
    ensures SimpleMonitor.RunningInstances(AsCliListing(prefix, zones)) == ClientMonitor.CollectRunning(zones)
  {
    if zones != [] {
      var last := zones[|zones| - 1];
      var init := zones[..|zones| - 1];
      assert WellFormedZones(init) by {
        forall z | 0 <= z < |init|
          ensures '-' in init[z].zone && '/' !in init[z].zone
        {
          assert init[z] == zones[z];
        }
      }
      RunningAgrees(prefix, init);
      match last.listed {
        case None =>
          assert AsCliListing(prefix, zones) == AsCliListing(prefix, init) + [];
          assert ClientMonitor.CollectRunning(zones) == ClientMonitor.CollectRunning(init) + [];
          assert AsCliListing(prefix, init) + [] == AsCliListing(prefix, init);
        case Some(insts) =>
          RunningInstancesAppend(AsCliListing(prefix, init), ZoneRecords(prefix, last.zone, insts));
          ZoneAgrees(prefix, last.zone, insts);
      }
    }
  }

  /** Both orders of the compute violations hold the same violations; only the count violation moves. */
  lemma ViolationsAgree(running: seq<InstanceInfo>)
    ensures multiset(SimpleMonitor.ComputeViolations(running)) == multiset(ClientMonitor.ComputeViolations(running))
    ensures |CountViolation(running)| <= 1
    ensures SimpleMonitor.ComputeViolations(running)[..|PerInstanceViolations(running)|] ==
            ClientMonitor.ComputeViolations(running)[|CountViolation(running)|..]
  {
    var per := PerInstanceViolations(running);
    var count := CountViolation(running);
    assert (per + count)[..|per|] == per;
    assert (count + per)[|count|..] == per;
  }

  /**
   * Both compute checks over the same well-formed listing: the same running
   * instances and usage, and the same violations up to the position of the
   * count violation.
   */
  method CompareComputeChecks(prefix: string, zones: seq<ClientMonitor.ZoneListing>)
    returns (cli: ServiceResult, api: ServiceResult)
    requires WellFormedZones(zones)
    ensures cli.ComputeChecked? && api.ComputeChecked?
    ensures cli.instances == api.instances && cli.usage == api.usage && cli.limit == api.limit
    ensures multiset(cli.violations) == multiset(api.violations)
  {
    cli := SimpleMonitor.CheckComputeInstances(Some(AsCliListing(prefix, zones)));
    api := ClientMonitor.CheckComputeEngine(Ok(zones));
    RunningAgrees(prefix, zones);
    ViolationsAgree(api.instances);
  }
}
