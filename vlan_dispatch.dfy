/**
  The driver of the VLAN scripts (`add_vlans_to_netbox`) and the guard at the top of each
  per-platform function: which NetBox devices get a job, which function each job runs, and
  when a function actually reconciles the device's VLAN group.
*/
module VlanDispatch {
  import opened Wrappers
  import opened Text
  import opened Vlans
  import opened VlanInventory

  /**
    A NetBox device as the scripts read it: `platform.name` (absent when no platform is set,
    in which case reading `.name` raises), `status.value`, `str(tags)` and `site.id`.
  */
  datatype Device = Device(name: string, platform: Option<string>, status: string, tags: string, site: nat)

  /** The platform name each per-platform function is written for. */
  function PlatformName(vendor: Vendor): string
  {
    match vendor
    case Ios => "ios"
    case IosTelnet => "ios_telnet"
    case Nxos => "nxos"
    case Vrp => "VRP"
  }

  /** The `if/elif` chain of the driver: which function a platform name is submitted to. */
  function Route(platform: string): (r: Option<Vendor>)
    ensures r.Some? <==> platform in {"ios", "ios_telnet", "nxos", "VRP"}
    ensures r.Some? ==> PlatformName(r.value) == platform
  {
    if platform == "ios" then Some(Ios)
    else if platform == "ios_telnet" then Some(IosTelnet)
    else if platform == "nxos" then Some(Nxos)
    else if platform == "VRP" then Some(Vrp)
    else None
  }

  lemma RouteInvertsPlatformName(vendor: Vendor)
    ensures Route(PlatformName(vendor)) == Some(vendor)
  {
  }

  /** `'itp_script' in str(device.tags)`: a substring test on the printed tag list. */
  predicate Scheduled(d: Device)
  {
    Contains(d.tags, "itp_script")
  }

  /** One `executor.submit(<function for vendor>, device.name)`. */
  datatype Job = Job(vendor: Vendor, device: string)

  /** `script_devices`: the tagged devices, in the order NetBox listed them. */
  function ScriptDevices(devices: seq<Device>): (r: seq<Device>)
    ensures forall d :: d in r <==> d in devices && Scheduled(d)
    ensures |r| <= |devices|
  {
    if devices == [] then []
    else
      var init, last := devices[..|devices| - 1], devices[|devices| - 1];
      assert devices == init + [last];
      ScriptDevices(init) + (if Scheduled(last) then [last] else [])
  }

  /** The selection keeps the inventory's order: selecting from a concatenation concatenates the selections. */
  lemma {:induction false} ScriptDevicesAppend(a: seq<Device>, b: seq<Device>)
    ensures ScriptDevices(a + b) == ScriptDevices(a) + ScriptDevices(b)
    decreases |b|
  {
    if b == [] {
      assert a + b == a;
    } else {
      var init := b[..|b| - 1];
      assert (a + b)[..|a + b| - 1] == a + init;
      ScriptDevicesAppend(a, init);
    }
  }

  /**
    The jobs the submit loop issues for `tagged`, and whether it stopped on a device without a
    platform (`device.platform.name` raises; the jobs already submitted still run).
  */
  datatype Plan = Plan(jobs: seq<Job>, crashed: bool)

  function Submitted(tagged: seq<Device>): Plan
  {
    if tagged == [] then Plan([], false)
    else
      var p := Submitted(tagged[..|tagged| - 1]);
      var d := tagged[|tagged| - 1];
      if p.crashed then p
      else match d.platform
        case None => Plan(p.jobs, true)
        case Some(name) =>
          match Route(name)
          case None => p
          case Some(vendor) => Plan(p.jobs + [Job(vendor, d.name)], false)
  }

  /** Every job runs the function of its device's platform. */
  lemma {:induction false} SubmittedJobsRouted(tagged: seq<Device>, j: Job)
    requires j in Submitted(tagged).jobs
    ensures exists d :: d in tagged && d.name == j.device && d.platform == Some(PlatformName(j.vendor))
  {
    var init := tagged[..|tagged| - 1];
    var d := tagged[|tagged| - 1];
    if j in Submitted(init).jobs {
      SubmittedJobsRouted(init, j);
      var e :| e in init && e.name == j.device && e.platform == Some(PlatformName(j.vendor));
      assert e in tagged;
    } else {
      assert d in tagged;
    }
  }

  /**
    The submit loop crashes exactly when a tagged device has no platform; when it does not,
    every tagged device of a supported platform gets its job.
  */
  lemma {:induction false} SubmittedComplete(tagged: seq<Device>)
    ensures Submitted(tagged).crashed <==> exists d :: d in tagged && d.platform == None
    ensures !Submitted(tagged).crashed ==>
              forall d :: d in tagged && d.platform.Some? && Route(d.platform.value).Some? ==>
                Job(Route(d.platform.value).value, d.name) in Submitted(tagged).jobs
  {
    if tagged != [] {
      var init := tagged[..|tagged| - 1];
      var d := tagged[|tagged| - 1];
      SubmittedComplete(init);
      assert tagged == init + [d];
      if Submitted(init).crashed {
        var e :| e in init && e.platform == None;
        assert e in tagged;
      }
    }
  }

  /**
    `add_vlans_to_netbox` up to the submissions: filter the device list by tag, then submit one
    job per device of a supported platform, stopping at the first device without a platform.
  */
  method ScheduleJobs(devices: seq<Device>) returns (jobs: seq<Job>, crashed: bool)
    ensures Plan(jobs, crashed) == Submitted(ScriptDevices(devices))
  {
    var scriptDevices: seq<Device> := [];
    var i := 0;
    while i < |devices|
      invariant 0 <= i <= |devices|
      invariant scriptDevices == ScriptDevices(devices[..i])
    {
      assert devices[..i + 1][..i] == devices[..i];
      if Scheduled(devices[i]) {
        scriptDevices := scriptDevices + [devices[i]];
      }
      i := i + 1;
    }
    assert devices[..i] == devices;
    jobs, crashed := [], false;
    var n := 0;
    while n < |scriptDevices|
      invariant 0 <= n <= |scriptDevices|
      invariant Plan(jobs, false) == Submitted(scriptDevices[..n])
    {
      var d := scriptDevices[n];
      assert scriptDevices[..n + 1][..n] == scriptDevices[..n];
      if d.platform == None {
        crashed := true;
        SubmittedStaysCrashed(scriptDevices, n + 1);
        return;
      }
      var vendor := Route(d.platform.value);
      if vendor.Some? {
        jobs := jobs + [Job(vendor.value, d.name)];
      }
      n := n + 1;
    }
    assert scriptDevices[..n] == scriptDevices;
  }

  /** Once the submit loop has crashed, later devices change nothing. */
  lemma {:induction false} SubmittedStaysCrashed(tagged: seq<Device>, n: nat)
    requires n <= |tagged| && Submitted(tagged[..n]).crashed
    ensures Submitted(tagged) == Submitted(tagged[..n])
    decreases |tagged| - n
  {
    if n < |tagged| {
      assert tagged[..n + 1][..n] == tagged[..n];
      SubmittedStaysCrashed(tagged, n + 1);
    } else {
      assert tagged[..n] == tagged;
    }
  }

  // ---------------------------------------------------------------------------------------
  // The guard of each per-platform function
  // ---------------------------------------------------------------------------------------

  /**
    The function for `vendor` reconciles only a device of its own platform; the Huawei one also
    requires the device status `active`.
  */
  predicate Eligible(vendor: Vendor, d: Device)
  {
    d.platform == Some(PlatformName(vendor)) && (vendor == Vrp ==> d.status == "active")
  }

  /** A device is reconciled by at most one of the four functions: the one its platform routes to. */
  lemma EligibleOnlyForRoute(vendor: Vendor, d: Device)
    ensures Eligible(vendor, d) ==> d.platform.Some? && Route(d.platform.value) == Some(vendor)
  {
  }

  /** What one per-platform function did to NetBox. */
  datatype Outcome =
    | Skipped             // the guard failed: nothing is read from the switch, nothing written
    | Aborted             // the device has no platform, or no VLAN group named after it: raised before any write
    | Done(report: Report)

  /**
    One per-platform function for `device`, once the switch output is parsed (`parsed`) and
    NetBox's VLAN group for the device (`group`, None when `vlan_groups.get` finds none) and its
    listing are known.
  */
  method SyncDevice(ipam: Ipam, vendor: Vendor, device: Device, parsed: seq<ParsedVlan>,
                    group: Option<nat>, listing: seq<nat>, faults: Faults)
    returns (outcome: Outcome)
    requires group.Some? ==> IsGroupListing(ipam.vlans, group.value, listing)
    modifies ipam
    ensures device.platform == None ==> outcome == Aborted
    ensures device.platform.Some? && !Eligible(vendor, device) ==> outcome == Skipped
    ensures outcome.Done? <==> Eligible(vendor, device) && group.Some?
    ensures !outcome.Done? ==> ipam.vlans == old(ipam.vlans)
    ensures outcome.Done? ==>
              ipam.vlans == Reconciled(old(ipam.vlans), group.value, device.site, listing, faults, SwitchVlans(vendor, parsed))
  {
    if device.platform == None {
      return Aborted;
    }
    if !Eligible(vendor, device) {
      return Skipped;
    }
    if group == None {
      return Aborted;
    }
    var report := ipam.ReconcileGroup(group.value, device.site, listing, SwitchVlans(vendor, parsed), faults);
    return Done(report);
  }
}
