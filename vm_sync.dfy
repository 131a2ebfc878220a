/**
  The VM import (`nb_vm.py`) as it runs: NetBox's virtualization and IPAM objects are a
  mutable store, updated call by call, and each step is proved to end in the state the
  functions of module VmInventory describe.
*/
module VmSync {
  import opened Wrappers
  import opened Text
  import opened Scan
  import opened VmCollect
  import opened VmRules
  import opened VmInventory

  /** Accumulators are equal when every bucket's total is. */
  lemma TotalsByBucket(x: Totals, y: Totals)
    requires forall b :: BucketTotal(x, b) == BucketTotal(y, b)
    ensures x == y
  {
    assert BucketTotal(x, Sas) == BucketTotal(y, Sas) && BucketTotal(x, Ssd) == BucketTotal(y, Ssd);
    assert BucketTotal(x, Sata) == BucketTotal(y, Sata) && BucketTotal(x, Unknown) == BucketTotal(y, Unknown);
  }

  /** Accumulating one more disk bucket by bucket gives the tally of the longer disk sequence. */
  lemma TallyExtends(disks: seq<Disk>, d: Disk, acc: Totals, next: Totals)
    requires acc == Tally(disks)
    requires BucketTotal(next, BucketOf(d.path)) == BucketTotal(acc, BucketOf(d.path)) + d.size
    requires forall b :: b != BucketOf(d.path) ==> BucketTotal(next, b) == BucketTotal(acc, b)
    ensures next == Tally(disks + [d])
  {
    forall b
      ensures BucketTotal(next, b) == BucketTotal(AddDisk(acc, d), b)
    {
      AddDiskBucket(acc, d, b);
    }
    TotalsByBucket(next, AddDisk(acc, d));
    assert (disks + [d])[..|disks + [d]| - 1] == disks;
  }

  /** The disks `0 .. i - 1` read without raising, and `acc` holds `prior` plus their sizes. */
  ghost predicate DisksTallied(rec: Record, info: Family, total: Family, i: nat, prior: seq<Disk>, acc: Totals)
  {
    ReadDisks(rec, info, total, i).Some? && acc == Tally(prior + ReadDisks(rec, info, total, i).value)
  }

  /** NetBox's clusters, platforms, virtual machines and IP addresses. */
  class Virtualization {
    var clusters: set<string>
    var platforms: map<string, string>
    var vms: map<VmKey, VmRecord>
    var ips: map<nat, Ip>

    constructor (inv: Inventory)
      ensures State() == inv
    {
      clusters, platforms, vms, ips := inv.clusters, inv.platforms, inv.vms, inv.ips;
    }

    function State(): Inventory
      reads this
    {
      Inventory(clusters, platforms, vms, ips)
    }

    /** The loop over `platforms.all()`: stops at the first platform whose space-free name is the OS type's. */
    method FindPlatform(ostype: string) returns (found: bool)
      ensures found == PlatformFound(platforms, ostype)
    {
      var rest := platforms.Keys;
      while rest != {}
        invariant rest <= platforms.Keys
        invariant forall name :: name in platforms && name !in rest ==> !SameOs(name, ostype)
        decreases rest
      {
        var name :| name in rest;
        if RemoveChar(name, ' ') == RemoveChar(ostype, ' ') {
          return true;
        }
        rest := rest - {name};
      }
      return false;
    }

    /**
      The platform step: create the OS type as a platform, with its slug, when none was found.
      An OS type that is not text creates nothing whatever the loop finds, since `ostype.replace`
      raises inside the creation's `try`.
    */
    method EnsurePlatformStep(ostype: Value, faults: Faults)
      modifies this
      ensures State() == old(State()).(platforms := EnsureOsPlatform(old(platforms), ostype, faults))
    {
      if ostype.Str? {
        var found := FindPlatform(ostype.s);
        if !found {
          var slug := Slug(ostype.s);
          if ostype.s !in faults.platform && slug != [] && slug !in platforms.Values {
            platforms := platforms[ostype.s := slug];
          }
        }
      }
    }

    /**
      The VM listing loop: every NetBox VM passed over joins `set_ipam_vm`; the one named
      `vm[:64]` is updated and the loop stops, unless the update raises. Nothing matched: the VM
      is created. Returns how many listing entries were passed over.
    */
    method MatchVm(cluster: string, host: string, name: string, h: Header, status: Option<string>, t: Totals,
                   listing: seq<string>, env: Env, faults: Faults)
      returns (k: nat)
      modifies this
      ensures clusters == old(clusters) && platforms == old(platforms) && ips == old(ips)
      ensures vms == WriteVm(old(State()), cluster, host, name, h, status, t, listing, env, faults)
      ensures k == Visited(listing, NetboxName(name), VmKey(cluster, NetboxName(name)) in old(vms) &&
                                                      UpdateWorks(VmKey(cluster, NetboxName(name)), h, status, faults))
    {
      var target := NetboxName(name);
      var key := VmKey(cluster, target);
      ghost var works := key in vms && UpdateWorks(key, h, status, faults);
      var matched := false;
      k := 0;
      while k < |listing|
        invariant 0 <= k <= |listing|
        invariant matched == (target in listing[..k])
        invariant !(matched && works)
        invariant State() == old(State())
        invariant Visited(listing[k..], target, works) + k == Visited(listing, target, works)
      {
        assert listing[k..][1..] == listing[k + 1..];
        assert listing[..k + 1] == listing[..k] + [listing[k]];
        if listing[k] == target {
          matched := true;
          if key in vms && UpdateWorks(key, h, status, faults) {
            vms := vms[key := Written(h, host, status.value, IntOf(h.mem).value, t, Lookup(env.tenants, UpdateTenantName(h.folder)),
                                      PlatformNamed(platforms, h.ostype))];
            assert listing[k] in listing;
            k := k + 1;
            return;
          }
        }
        k := k + 1;
      }
      assert listing[..k] == listing;
      if !matched && CreateWorks(State(), key, h, status, env, faults) {
        vms := vms[key := Written(h, host, status.value, IntOf(h.mem).value, t, Some(CreateTenantName(h.folder)), PlatformNamed(platforms, h.ostype))];
      }
    }

    /** One disk of a family: `Storage_info_<i>` and `int(float(Storage_TotalDisk_<i>))`, or None where that raises. */
    static method ReadDiskAt(rec: Record, info: Family, total: Family, i: nat) returns (d: Option<Disk>)
      ensures d == ReadDisk(rec, info, total, i)
    {
      var ik, tk := Indexed(info, i), Indexed(total, i);
      if ik !in rec || tk !in rec || !rec[ik].Str? {
        return None;
      }
      var size := IntOf(rec[tk]);
      if size.None? {
        return None;
      }
      return Some(Disk(rec[ik].s, size.value));
    }

    /** The `if/elif` on the path: the size goes to SATA, SAS, SSD or Unknown, in that order of precedence. */
    static method Accumulate(acc: Totals, d: Disk) returns (r: Totals)
      ensures BucketTotal(r, BucketOf(d.path)) == BucketTotal(acc, BucketOf(d.path)) + d.size
      ensures forall b :: b != BucketOf(d.path) ==> BucketTotal(r, b) == BucketTotal(acc, b)
    {
      if Contains(d.path, "SATA") {
        r := acc.(sata := acc.sata + d.size);
      } else if Contains(d.path, "SAS") {
        r := acc.(sas := acc.sas + d.size);
      } else if Contains(d.path, "SSD") {
        r := acc.(ssd := acc.ssd + d.size);
      } else {
        r := acc.(unknown := acc.unknown + d.size);
      }
    }

    /**
      One pass of the disk loop: read disk `i` and add its size to the accumulator; a read that
      raises makes the whole family unreadable.
    */
    static method NextDisk(rec: Record, info: Family, total: Family, i: nat, n: nat, ghost prior: seq<Disk>, acc: Totals)
      returns (r: Option<Totals>)
      requires i < n && DisksTallied(rec, info, total, i, prior, acc)
      ensures r.None? ==> ReadDisks(rec, info, total, n).None?
      ensures r.Some? ==> DisksTallied(rec, info, total, i + 1, prior, r.value)
    {
      var disk := ReadDiskAt(rec, info, total, i);
      if disk.None? {
        ReadDisksNoneStays(rec, info, total, i, n);
        return None;
      }
      var next := Accumulate(acc, disk.value);
      ghost var read := ReadDisks(rec, info, total, i).value;
      TallyExtends(prior + read, disk.value, acc, next);
      assert (prior + read) + [disk.value] == prior + (read + [disk.value]);
      r := Some(next);
    }

    /**
      One family's disk loop (`range(count)`): each disk's size is added to the accumulator of
      its bucket; a read that raises ends the loop with None.
    */
    static method AddFamily(rec: Record, info: Family, total: Family, count: int, ghost prior: seq<Disk>, t0: Totals)
      returns (t: Option<Totals>)
      requires t0 == Tally(prior)
      ensures var ds := ReadDisks(rec, info, total, RangeLength(count));
        t == if ds.Some? then Some(Tally(prior + ds.value)) else None
    {
      var n := RangeLength(count);
      var acc := t0;
      var i := 0;
      assert prior + [] == prior;
      while i < n
        invariant 0 <= i <= n
        invariant DisksTallied(rec, info, total, i, prior, acc)
      {
        var next := NextDisk(rec, info, total, i, n, prior, acc);
        if next.None? {
          return None;
        }
        acc := next.value;
        i := i + 1;
      }
      return Some(acc);
    }

    /** The regular-disk loop, then (when the RDM count is not 0) the RDM loop. */
    static method ReadTotals(rec: Record) returns (t: Option<Totals>)
      ensures t == if DecodeDisks(rec).Some? then Some(Tally(DecodeDisks(rec).value)) else None
    {
      var s := CountOf(rec, StorageIndexNum);
      if s.None? {
        return None;
      }
      var a := Virtualization.AddFamily(rec, StorageInfo, StorageTotalDisk, s.value, [], Totals(0, 0, 0, 0));
      if a.None? {
        return None;
      }
      ghost var regular := ReadDisks(rec, StorageInfo, StorageTotalDisk, RangeLength(s.value)).value;
      assert [] + regular == regular;
      var r := CountOf(rec, RdmIndexNum);
      if r.None? {
        return None;
      }
      if r.value != 0 {
        t := Virtualization.AddFamily(rec, RdmDiskInfo, RdmDiskTotal, r.value, regular, a.value);
      } else {
        assert regular + [] == regular;
        t := a;
      }
    }

    /** One VM of the collector's output. */
    method SyncVm(cluster: string, e: Entry, listing: seq<string>, status: Option<string>, env: Env, faults: Faults)
      returns (st: Option<string>, k: nat, crashed: bool)
      modifies this
      ensures Step(State(), st, k, crashed) == VmStep(old(State()), cluster, e, listing, status, env, faults)
    {
      var h := DecodeHeader(e.rec);
      if h.None? {
        return status, 0, true;
      }
      st := NextStatus(h.value.state, status);
      EnsurePlatformStep(h.value.ostype, faults);
      var t := ReadTotals(e.rec);
      if t.None? {
        return st, 0, true;
      }
      k := MatchVm(cluster, e.host, e.name, h.value, st, t.value, listing, env, faults);
      crashed := false;
    }

    /** One deletion candidate: detach its IPs until an update raises, then delete the VM if nothing raised. */
    method DropCandidate(cluster: string, c: string, env: Env, faults: Faults)
      modifies this
      ensures State() == DropOne(old(State()), cluster, c, env, faults)
    {
      var ids := IpsNamed(env.ipOrder, ips, c);
      var n := DetachIps(ids, faults);
      var key := VmKey(cluster, c);
      if n < |ids| || key !in vms || key in faults.delete {
        return;
      }
      vms := vms - {key};
      ips := map id | id in ips && ips[id].vm != Some(key) :: ips[id];
    }

    /** `ip.update({'assigned_object_id': 0, ...})` for each filtered IP, until one raises. */
    method DetachIps(ids: seq<nat>, faults: Faults) returns (n: nat)
      requires forall id :: id in ids ==> id in ips
      modifies this
      ensures n == Clean(ids, faults.ip)
      ensures ips == map id | id in old(ips) :: if id in Elements(ids[..n]) then old(ips)[id].(vm := None) else old(ips)[id]
      ensures clusters == old(clusters) && platforms == old(platforms) && vms == old(vms)
    {
      ghost var ips0 := ips;
      n := 0;
      while n < |ids|
        invariant 0 <= n <= Clean(ids, faults.ip)
        invariant ips == map id | id in ips0 :: if id in Elements(ids[..n]) then ips0[id].(vm := None) else ips0[id]
        invariant clusters == old(clusters) && platforms == old(platforms) && vms == old(vms)
      {
        if ids[n] in faults.ip {
          break;
        }
        assert ids[n] in ids;
        assert Elements(ids[..n + 1]) == Elements(ids[..n]) + {ids[n]};
        ips := ips[ids[n] := ips[ids[n]].(vm := None)];
        n := n + 1;
      }
    }

    /** The VM loop of one cluster, collecting `set_ipam_vm` and `set_vmware_vm`; stops at the first VM that raises. */
    method SyncVms(cluster: string, entries: seq<Entry>, listing: seq<string>, status: Option<string>, env: Env, faults: Faults)
      returns (st: Option<string>, scanned: set<string>, observed: set<string>, crashed: bool)
      modifies this
      ensures Pass(State(), st, scanned, observed, crashed) == VmLoop(old(State()), cluster, entries, listing, status, env, faults)
    {
      ghost var inv0 := State();
      scanned, observed, crashed := {}, {}, false;
      st := status;
      var i := 0;
      while i < |entries|
        invariant 0 <= i <= |entries|
        invariant VmLoop(inv0, cluster, entries[..i], listing, status, env, faults) == Pass(State(), st, scanned, observed, false)
      {
        assert entries[..i + 1][..i] == entries[..i];
        var e := entries[i];
        var k;
        st, k, crashed := SyncVm(cluster, e, listing, st, env, faults);
        if crashed {
          VmLoopStaysCrashed(inv0, cluster, entries, listing, status, env, faults, i + 1);
          return;
        }
        scanned := scanned + Elements(listing[..k]);
        observed := observed + {e.name};
        i := i + 1;
      }
      assert entries[..i] == entries;
    }

    /** The deletion loop over `new_set`, taking the candidates in whatever order the set yields them. */
    method DeleteCandidates(cluster: string, cands: set<string>, env: Env, faults: Faults)
      modifies this
      ensures State() == DeleteVms(old(State()), cluster, cands, env, faults)
    {
      ghost var inv0 := State();
      var rest := cands;
      ghost var done: set<string> := {};
      DeleteNone(inv0, cluster, env, faults);
      while rest != {}
        invariant rest + done == cands && rest !! done
        invariant State() == DeleteVms(inv0, cluster, done, env, faults)
        decreases rest
      {
        var c :| c in rest;
        DeleteStep(inv0, cluster, done, c, env, faults);
        DropCandidate(cluster, c, env, faults);
        rest := rest - {c};
        done := done + {c};
      }
    }

    /** One cluster: ensure it exists, run the VM loop, then delete `set_ipam_vm - set_vmware_vm`. */
    method SyncCluster(cluster: string, known: set<string>, entries: seq<Entry>, listing: seq<string>,
                       status: Option<string>, env: Env, faults: Faults)
      returns (st: Option<string>, crashed: bool)
      modifies this
      ensures ClusterResult(State(), st, crashed) == ClusterPass(old(State()), cluster, known, entries, listing, status, env, faults)
    {
      if cluster !in known && env.clusterTypeExists && cluster !in clusters && cluster !in faults.cluster {
        clusters := clusters + {cluster};
      }
      if cluster !in clusters {
        return status, true;
      }
      var scanned, observed;
      st, scanned, observed, crashed := SyncVms(cluster, entries, listing, status, env, faults);
      if crashed {
        return;
      }
      DeleteCandidates(cluster, scanned - observed, env, faults);
    }

    /** The whole run over the clusters of the collector's output, stopping at the first one that raises. */
    method SyncAll(known: set<string>, jobs: seq<Job>, env: Env, faults: Faults)
      returns (status: Option<string>, crashed: bool)
      modifies this
      ensures ClusterResult(State(), status, crashed) == Run(old(State()), known, jobs, None, env, faults)
    {
      ghost var inv0 := State();
      status, crashed := None, false;
      var n := 0;
      while n < |jobs|
        invariant 0 <= n <= |jobs|
        invariant Run(inv0, known, jobs[..n], None, env, faults) == ClusterResult(State(), status, false)
      {
        assert jobs[..n + 1][..n] == jobs[..n];
        var j := jobs[n];
        status, crashed := SyncCluster(j.cluster, known, j.entries, j.listing, status, env, faults);
        if crashed {
          RunStaysCrashed(inv0, known, jobs, None, env, faults, n + 1);
          return;
        }
        n := n + 1;
      }
      assert jobs[..n] == jobs;
    }
  }
}
