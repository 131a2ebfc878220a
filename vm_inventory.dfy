/**
  What one run of the VM import (`nb_vm.py`) does to NetBox, stated as functions of the
  NetBox state before it: how a VM's flattened record is read, the platform it ensures, the
  update or creation of its NetBox VM, the scan that fills `set_ipam_vm`, and the deletion of
  `set_ipam_vm - set_vmware_vm` with its IP detachment. The class that performs these steps in
  place is in module VmSync.
*/
module VmInventory {
  import opened Wrappers
  import opened Text
  import opened Scan
  import opened VmCollect
  import opened VmRules

  // ---------------------------------------------------------------------------------------
  // NetBox as the import sees it
  // ---------------------------------------------------------------------------------------

  /** A NetBox VM is identified by its cluster and its (at most 64-character) name. */
  datatype VmKey = VmKey(cluster: string, name: string)

  /** The custom fields the import writes. */
  datatype Custom = Custom(host: string, sas: int, ssd: int, sata: int, unknown: int, snapshot: bool, thin: bool)

  datatype VmRecord = VmRecord(vcpus: Value, memory: int, disk: int, tenant: Option<string>,
                               platform: Option<string>, status: string, custom: Custom)

  /** An IP address and the VM its interface belongs to, if any. */
  datatype Ip = Ip(address: string, vm: Option<VmKey>)

  /** The parts of NetBox the import writes: cluster names, platforms (name to slug), VMs, IPs. */
  datatype Inventory = Inventory(clusters: set<string>, platforms: map<string, string>,
                                 vms: map<VmKey, VmRecord>, ips: map<nat, Ip>)

  /**
    The parts it only reads: tenant names, whether the cluster type it creates clusters with
    exists, and the order in which NetBox lists IP addresses.
  */
  datatype Env = Env(tenants: set<string>, clusterTypeExists: bool, ipOrder: seq<nat>)

  /**
    Which NetBox calls raise (network errors, validation, permissions): cluster and platform
    creation by name, VM update, creation and deletion by key, IP update by id. The script
    catches each of them and carries on.
  */
  datatype Faults = Faults(cluster: set<string>, platform: set<string>, update: set<VmKey>,
                           create: set<VmKey>, ip: set<nat>, delete: set<VmKey>)

  /** A VM of the collector's output: its host, its vSphere name and its flattened record. */
  datatype Entry = Entry(host: string, name: string, rec: Record)

  // ---------------------------------------------------------------------------------------
  // Reading a record
  // ---------------------------------------------------------------------------------------

  /** The keys read before anything else; a missing one raises `KeyError` outside any `try`. */
  const HeaderFields: seq<Field> :=
    [Mem, Cpu, Path, OsType, State, DiskGbTotal, Annotation, Net, Folder, MemoryReservation,
     StorageIndexNum, RdmIndexNum, Snapshot, ThinProv]

  /** The header values the import uses (`folder` as stored; the script right-strips it before use). */
  datatype Header = Header(mem: Value, cpu: Value, ostype: Value, state: Value, folder: string,
                           snapshot: Value, thin: Value)

  /**
    The header of a record, or None when reading it raises: a missing key, or a folder that is
    not text (`.rstrip()` is called on it outside any `try`). The OS type is kept as read; only
    the platform step needs it to be text.
  */
  function DecodeHeader(rec: Record): (r: Option<Header>)
    ensures r.Some? <==> (forall f :: f in HeaderFields ==> Fixed(f) in rec) && rec[Fixed(Folder)].Str?
    ensures r.Some? ==> r.value.folder == rec[Fixed(Folder)].s && r.value.ostype == rec[Fixed(OsType)]
  {
    if (forall f :: f in HeaderFields ==> Fixed(f) in rec) && rec[Fixed(Folder)].Str? then
      Some(Header(rec[Fixed(Mem)], rec[Fixed(Cpu)], rec[Fixed(OsType)], rec[Fixed(State)],
                  rec[Fixed(Folder)].s, rec[Fixed(Snapshot)], rec[Fixed(ThinProv)]))
    else None
  }

  /** Python `int(float(v))`: None where it raises. */
  function IntOf(v: Value): Option<int>
  {
    match v
    case Str(s) => if DecimalFloor(s).Some? then Some(DecimalFloor(s).value) else None
    case Num(n) => Some(n)
    case Flag(b) => Some(if b then 1 else 0)
    case Nics(_) => None
    case Null => None
  }

  /** The disk at index `i` of a family pair: its path must be text and its size convertible. */
  function ReadDisk(rec: Record, info: Family, total: Family, i: nat): Option<Disk>
  {
    var ik, tk := Indexed(info, i), Indexed(total, i);
    if ik in rec && tk in rec && rec[ik].Str? && IntOf(rec[tk]).Some? then Some(Disk(rec[ik].s, IntOf(rec[tk]).value))
    else None
  }

  /** The disks `0 .. n - 1` of a family pair, in index order; None when one of them raises. */
  function ReadDisks(rec: Record, info: Family, total: Family, n: nat): (r: Option<seq<Disk>>)
    ensures r.Some? ==> |r.value| == n
  {
    if n == 0 then Some([])
    else
      var p, d := ReadDisks(rec, info, total, n - 1), ReadDisk(rec, info, total, n - 1);
      if p.Some? && d.Some? then Some(p.value + [d.value]) else None
  }

  /** The regular disks, then the RDM disks; None when a count is not an integer or a disk raises. */
  function DecodeDisks(rec: Record): Option<seq<Disk>>
  {
    var s, r := CountOf(rec, StorageIndexNum), CountOf(rec, RdmIndexNum);
    if s.None? || r.None? then None
    else
      var a := ReadDisks(rec, StorageInfo, StorageTotalDisk, RangeLength(s.value));
      var b := ReadDisks(rec, RdmDiskInfo, RdmDiskTotal, RangeLength(r.value));
      if a.Some? && b.Some? then Some(a.value + b.value) else None
  }

  // ---------------------------------------------------------------------------------------
  // One VM
  // ---------------------------------------------------------------------------------------

  /** The platform loop: some NetBox platform has the OS type's name once spaces are removed. */
  predicate PlatformFound(platforms: map<string, string>, ostype: string)
  {
    exists name :: name in platforms && SameOs(name, ostype)
  }

  /** NetBox accepts a new platform unless the call raises or its slug is empty or taken. */
  predicate PlatformAccepted(platforms: map<string, string>, ostype: string, faults: Faults)
  {
    ostype !in faults.platform && Slug(ostype) != [] && Slug(ostype) !in platforms.Values
  }

  /** The platforms after the platform step: one is created only when none was found. */
  function EnsurePlatform(platforms: map<string, string>, ostype: string, faults: Faults): map<string, string>
  {
    if PlatformFound(platforms, ostype) then platforms
    else if PlatformAccepted(platforms, ostype, faults) then platforms[ostype := Slug(ostype)]
    else platforms
  }

  /**
    The platform step on the OS type as read. Only a text OS type gets that far: on anything
    else `ostype.replace` raises inside the step's `try`, and nothing is created.
  */
  function EnsureOsPlatform(platforms: map<string, string>, ostype: Value, faults: Faults): map<string, string>
  {
    if ostype.Str? then EnsurePlatform(platforms, ostype.s, faults) else platforms
  }

  /** `get(name=...)` on tenants or platforms: exact name, None when there is none. */
  function Lookup(names: set<string>, name: string): Option<string>
  {
    if name in names then Some(name) else None
  }

  /** `platforms.get(name=ostype)`: a platform is found only for a text OS type. */
  function PlatformNamed(platforms: map<string, string>, ostype: Value): Option<string>
  {
    if ostype.Str? then Lookup(platforms.Keys, ostype.s) else None
  }

  /** The record the import writes, whether by update or by creation. */
  function Written(h: Header, host: string, status: string, memory: int, t: Totals,
                   tenant: Option<string>, platform: Option<string>): VmRecord
  {
    VmRecord(h.cpu, memory, TotalDisk(t), tenant, platform, status,
             Custom(host, t.sas, t.ssd, t.sata, t.unknown, Truthy(FlagValue(h.snapshot)), Truthy(FlagValue(h.thin))))
  }

  /** The update goes through unless a call raises, `int(float(mem))` fails or `status` was never set. */
  predicate UpdateWorks(key: VmKey, h: Header, status: Option<string>, faults: Faults)
  {
    key !in faults.update && IntOf(h.mem).Some? && status.Some?
  }

  /**
    The creation goes through when the call does not raise, the memory converts, `status` is
    set, the tenant and platform lookups find something (otherwise `.id` raises), and no VM of
    that name exists in the cluster.
  */
  predicate CreateWorks(inv: Inventory, key: VmKey, h: Header, status: Option<string>, env: Env, faults: Faults)
  {
    && key !in inv.vms && key !in faults.create && IntOf(h.mem).Some? && status.Some?
    && CreateTenantName(h.folder) in env.tenants && PlatformNamed(inv.platforms, h.ostype).Some?
  }

  /** The VMs after the match step: update the matched VM, or create one when nothing matched. */
  function WriteVm(inv: Inventory, cluster: string, host: string, name: string, h: Header, status: Option<string>,
                   t: Totals, listing: seq<string>, env: Env, faults: Faults): map<VmKey, VmRecord>
  {
    var key := VmKey(cluster, NetboxName(name));
    if NetboxName(name) in listing then
      if key in inv.vms && UpdateWorks(key, h, status, faults) then
        inv.vms[key := Written(h, host, status.value, IntOf(h.mem).value, t, Lookup(env.tenants, UpdateTenantName(h.folder)),
                               PlatformNamed(inv.platforms, h.ostype))]
      else inv.vms
    else if CreateWorks(inv, key, h, status, env, faults) then
      inv.vms[key := Written(h, host, status.value, IntOf(h.mem).value, t, Some(CreateTenantName(h.folder)), PlatformNamed(inv.platforms, h.ostype))]
    else inv.vms
  }

  /** The effect of one VM: the new state, `status`, how far the NetBox listing was scanned, and whether it raised. */
  datatype Step = Step(inv: Inventory, status: Option<string>, scanned: nat, crashed: bool)

  /**
    One pass of the VM loop. A header or disk that cannot be read raises outside any `try` and
    ends the run (after the platform step, in the disk case).
  */
  function VmStep(inv: Inventory, cluster: string, e: Entry, listing: seq<string>, status: Option<string>,
                  env: Env, faults: Faults): Step
  {
    match DecodeHeader(e.rec)
    case None => Step(inv, status, 0, true)
    case Some(h) =>
      var st := NextStatus(h.state, status);
      var inv1 := inv.(platforms := EnsureOsPlatform(inv.platforms, h.ostype, faults));
      match DecodeDisks(e.rec)
      case None => Step(inv1, st, 0, true)
      case Some(disks) =>
        var key := VmKey(cluster, NetboxName(e.name));
        var k := Visited(listing, NetboxName(e.name), key in inv1.vms && UpdateWorks(key, h, st, faults));
        Step(inv1.(vms := WriteVm(inv1, cluster, e.host, e.name, h, st, Tally(disks), listing, env, faults)), st, k, false)
  }

  // ---------------------------------------------------------------------------------------
  // The VM loop of one cluster
  // ---------------------------------------------------------------------------------------

  /**
    The state after the VM loop over `entries`: the inventory, `status`, `set_ipam_vm`,
    `set_vmware_vm` (full vSphere names), and whether a VM raised (the run stops there).
  */
  datatype Pass = Pass(inv: Inventory, status: Option<string>, scanned: set<string>, observed: set<string>, crashed: bool)

  function VmLoop(inv: Inventory, cluster: string, entries: seq<Entry>, listing: seq<string>, status: Option<string>,
                  env: Env, faults: Faults): Pass
  {
    if entries == [] then Pass(inv, status, {}, {}, false)
    else
      var p := VmLoop(inv, cluster, entries[..|entries| - 1], listing, status, env, faults);
      var e := entries[|entries| - 1];
      if p.crashed then p
      else
        var s := VmStep(p.inv, cluster, e, listing, p.status, env, faults);
        if s.crashed then Pass(s.inv, s.status, p.scanned, p.observed, true)
        else Pass(s.inv, s.status, p.scanned + Elements(listing[..s.scanned]), p.observed + {e.name}, false)
  }

  // ---------------------------------------------------------------------------------------
  // Deletion
  // ---------------------------------------------------------------------------------------

  /** The IP is assigned to a VM called `name`, in whatever cluster. */
  predicate Named(ips: map<nat, Ip>, id: nat, name: string)
  {
    id in ips && ips[id].vm.Some? && ips[id].vm.value.name == name
  }

  /** `ip_addresses.filter(virtual_machine=name)`: the IPs of every VM with that name, in NetBox's order. */
  function IpsNamed(order: seq<nat>, ips: map<nat, Ip>, name: string): (r: seq<nat>)
    ensures forall id :: id in r <==> id in order && Named(ips, id, name)
  {
    if order == [] then []
    else
      var init, last := order[..|order| - 1], order[|order| - 1];
      assert order == init + [last];
      IpsNamed(init, ips, name) + (if Named(ips, last, name) then [last] else [])
  }

  /** The filter keeps NetBox's order: filtering a concatenation concatenates the filtered parts. */
  lemma {:induction false} IpsNamedAppend(a: seq<nat>, b: seq<nat>, ips: map<nat, Ip>, name: string)
    ensures IpsNamed(a + b, ips, name) == IpsNamed(a, ips, name) + IpsNamed(b, ips, name)
    decreases |b|
  {
    if b == [] {
      assert a + b == a;
    } else {
      var init := b[..|b| - 1];
      assert (a + b)[..|a + b| - 1] == a + init;
      IpsNamedAppend(a, init, ips, name);
    }
  }

  /** How many IPs of `ids` are detached before the first update that raises. */
  function Clean(ids: seq<nat>, bad: set<nat>): (n: nat)
    ensures n <= |ids|
    ensures forall i :: 0 <= i < n ==> ids[i] !in bad
    ensures n < |ids| ==> ids[n] in bad
  {
    if ids == [] || ids[0] in bad then 0 else 1 + Clean(ids[1..], bad)
  }

  /** The IPs detached for candidate `c`. */
  function DetachedFor(inv: Inventory, c: string, env: Env, faults: Faults): set<nat>
  {
    var ids := IpsNamed(env.ipOrder, inv.ips, c);
    Elements(ids[..Clean(ids, faults.ip)])
  }

  /**
    Candidate `c` is deleted: every IP update went through, `get` found the VM (`.delete()` on
    None raises) and the delete did not raise.
  */
  predicate Goes(inv: Inventory, cluster: string, c: string, env: Env, faults: Faults)
  {
    var ids := IpsNamed(env.ipOrder, inv.ips, c);
    Clean(ids, faults.ip) == |ids| && VmKey(cluster, c) in inv.vms && VmKey(cluster, c) !in faults.delete
  }

  /** The IP was detached while processing one of the candidates `cands`. */
  predicate Detached(inv: Inventory, cands: set<string>, env: Env, faults: Faults, id: nat)
  {
    id in inv.ips && inv.ips[id].vm.Some? && inv.ips[id].vm.value.name in cands
    && id in DetachedFor(inv, inv.ips[id].vm.value.name, env, faults)
  }

  /** The IP was still assigned to a candidate VM when NetBox deleted it, and went with it. */
  predicate Cascaded(inv: Inventory, cluster: string, cands: set<string>, env: Env, faults: Faults, id: nat)
  {
    id in inv.ips && inv.ips[id].vm.Some? && inv.ips[id].vm.value.cluster == cluster
    && inv.ips[id].vm.value.name in cands && Goes(inv, cluster, inv.ips[id].vm.value.name, env, faults)
    && !Detached(inv, cands, env, faults, id)
  }

  /**
    The deletion loop over the candidates `cands` of `cluster`, in any order: every IP filtered
    by a candidate's name is detached up to the first update that raises; the candidate's VM
    is then deleted (with the IPs still assigned to it) unless something raised.
  */
  function DeleteVms(inv: Inventory, cluster: string, cands: set<string>, env: Env, faults: Faults): Inventory
  {
    inv.(vms := map k | k in inv.vms && !(k.cluster == cluster && k.name in cands && Goes(inv, cluster, k.name, env, faults)) :: inv.vms[k],
         ips := map id | id in inv.ips && !Cascaded(inv, cluster, cands, env, faults, id) ::
                  if Detached(inv, cands, env, faults, id) then inv.ips[id].(vm := None) else inv.ips[id])
  }

  /** One candidate processed on its own, as the body of the deletion loop does it. */
  function DropOne(inv: Inventory, cluster: string, c: string, env: Env, faults: Faults): Inventory
  {
    var ids := IpsNamed(env.ipOrder, inv.ips, c);
    var n := Clean(ids, faults.ip);
    var gone := Elements(ids[..n]);
    var ips1 := map id | id in inv.ips :: if id in gone then inv.ips[id].(vm := None) else inv.ips[id];
    var key := VmKey(cluster, c);
    if n < |ids| || key !in inv.vms || key in faults.delete then inv.(ips := ips1)
    else inv.(vms := inv.vms - {key}, ips := map id | id in ips1 && ips1[id].vm != Some(key) :: ips1[id])
  }

  /** `set_ipam_vm - set_vmware_vm`. */
  function Candidates(p: Pass): set<string>
  {
    p.scanned - p.observed
  }

  // ---------------------------------------------------------------------------------------
  // One cluster
  // ---------------------------------------------------------------------------------------

  /**
    The cluster step: nothing when the cluster was in the list fetched at start, otherwise a
    creation that goes through when the cluster type exists, the name is free and the call
    does not raise.
  */
  function EnsureCluster(clusters: set<string>, cluster: string, known: set<string>, env: Env, faults: Faults): (r: set<string>)
    ensures clusters <= r && r <= clusters + {cluster}
  {
    if cluster in known then clusters
    else if env.clusterTypeExists && cluster !in clusters && cluster !in faults.cluster then clusters + {cluster}
    else clusters
  }

  /** What one cluster of the collector's output leaves behind. */
  datatype ClusterResult = ClusterResult(inv: Inventory, status: Option<string>, crashed: bool)

  /**
    One cluster: ensure it exists (`clusters.get(...).id` raises when it still does not), run the
    VM loop, and unless a VM raised, delete the candidates.
  */
  function ClusterPass(inv: Inventory, cluster: string, known: set<string>, entries: seq<Entry>, listing: seq<string>,
                       status: Option<string>, env: Env, faults: Faults): ClusterResult
  {
    var clusters := EnsureCluster(inv.clusters, cluster, known, env, faults);
    if cluster !in clusters then ClusterResult(inv, status, true)
    else
      var p := VmLoop(inv.(clusters := clusters), cluster, entries, listing, status, env, faults);
      if p.crashed then ClusterResult(p.inv, p.status, true)
      else ClusterResult(DeleteVms(p.inv, cluster, Candidates(p), env, faults), p.status, false)
  }

  /** One cluster of the collector's output: its VMs (hosts flattened, in file order) and NetBox's listing of it. */
  datatype Job = Job(cluster: string, entries: seq<Entry>, listing: seq<string>)

  /**
    The whole run: the clusters of every data centre in file order, `status` carried over from
    one cluster to the next, stopping at the first cluster that raises. `known` is the cluster
    list fetched once at start.
  */
  function Run(inv: Inventory, known: set<string>, jobs: seq<Job>, status: Option<string>, env: Env, faults: Faults): ClusterResult
  {
    if jobs == [] then ClusterResult(inv, status, false)
    else
      var p := Run(inv, known, jobs[..|jobs| - 1], status, env, faults);
      var j := jobs[|jobs| - 1];
      if p.crashed then p else ClusterPass(p.inv, j.cluster, known, j.entries, j.listing, p.status, env, faults)
  }

  // ---------------------------------------------------------------------------------------
  // Properties
  // ---------------------------------------------------------------------------------------

  /**
    The platform step never removes or renames a platform; afterwards a platform of the same
    space-free name exists unless NetBox refused the new one, and the new one carries the slug.
  */
  lemma EnsurePlatformResult(platforms: map<string, string>, ostype: string, faults: Faults)
    ensures var r := EnsurePlatform(platforms, ostype, faults);
      && (forall n :: n in platforms ==> n in r && r[n] == platforms[n])
      && (PlatformFound(r, ostype) <==> PlatformFound(platforms, ostype) || PlatformAccepted(platforms, ostype, faults))
      && (forall n :: n in r && n !in platforms ==> n == ostype && r[n] == Slug(ostype))
  {
    var r := EnsurePlatform(platforms, ostype, faults);
    if !PlatformFound(platforms, ostype) && PlatformAccepted(platforms, ostype, faults) {
      assert ostype in r && SameOs(ostype, ostype);
    }
  }

  /**
    The comparison ignores spaces but the lookup that follows is exact: when NetBox's platform
    differs from the OS type only in spaces, nothing is created and the lookup finds nothing.
  */
  lemma SpacedPlatformIsMissed(platforms: map<string, string>, name: string, ostype: string, faults: Faults)
    requires name in platforms && SameOs(name, ostype) && ostype !in platforms
    ensures EnsurePlatform(platforms, ostype, faults) == platforms
    ensures Lookup(EnsurePlatform(platforms, ostype, faults).Keys, ostype) == None
  {
  }

  /** Only the VM called `vm[:64]` in the cluster can change in one pass of the VM loop. */
  lemma VmStepFrame(inv: Inventory, cluster: string, e: Entry, listing: seq<string>, status: Option<string>,
                    env: Env, faults: Faults, k: VmKey)
    requires k != VmKey(cluster, NetboxName(e.name))
    ensures var s := VmStep(inv, cluster, e, listing, status, env, faults);
      && (k in s.inv.vms <==> k in inv.vms) && (k in inv.vms ==> s.inv.vms[k] == inv.vms[k])
      && s.inv.ips == inv.ips && s.inv.clusters == inv.clusters && inv.platforms.Keys <= s.inv.platforms.Keys
  {
    match DecodeHeader(e.rec)
    case None =>
    case Some(h) =>
      var st := NextStatus(h.state, status);
      var inv1 := inv.(platforms := EnsureOsPlatform(inv.platforms, h.ostype, faults));
      match DecodeDisks(e.rec)
      case None =>
      case Some(disks) =>
        WriteVmFrame(inv1, cluster, e.host, e.name, h, st, Tally(disks), listing, env, faults, k);
  }

  /** `WriteVm` touches only the key `(cluster, vm[:64])`. */
  lemma WriteVmFrame(inv: Inventory, cluster: string, host: string, name: string, h: Header, status: Option<string>,
                     t: Totals, listing: seq<string>, env: Env, faults: Faults, k: VmKey)
    requires k != VmKey(cluster, NetboxName(name))
    ensures var vms := WriteVm(inv, cluster, host, name, h, status, t, listing, env, faults);
      (k in vms <==> k in inv.vms) && (k in inv.vms ==> vms[k] == inv.vms[k])
  {
  }

  /**
    A VM whose name `vm[:64]` is in the listing is never created, even when its update raised:
    the match alone decides.
  */
  lemma MatchedNeverCreates(inv: Inventory, cluster: string, e: Entry, listing: seq<string>, status: Option<string>,
                            env: Env, faults: Faults)
    requires NetboxName(e.name) in listing
    ensures VmStep(inv, cluster, e, listing, status, env, faults).inv.vms.Keys == inv.vms.Keys
  {
  }

  /**
    An OS type that is not text (`null` when vCenter reports no guest OS) does not end the run:
    the platform step creates nothing, no VM is created (the platform lookup finds nothing, so
    `.id` raises inside the creation's `try`), and the only record that can change is the
    matched VM's, which is written with no platform.
  */
  lemma NonTextOsTypeCarriesOn(inv: Inventory, cluster: string, e: Entry, listing: seq<string>, status: Option<string>,
                               env: Env, faults: Faults)
    requires DecodeHeader(e.rec).Some? && !DecodeHeader(e.rec).value.ostype.Str? && DecodeDisks(e.rec).Some?
    ensures var s := VmStep(inv, cluster, e, listing, status, env, faults);
      && !s.crashed && s.inv.platforms == inv.platforms && s.inv.vms.Keys == inv.vms.Keys
      && forall k :: k in inv.vms && s.inv.vms[k] != inv.vms[k] ==>
           k == VmKey(cluster, NetboxName(e.name)) && s.inv.vms[k].platform == None
  {
  }

  /**
    A VM that appears in NetBox during a pass was created for an unmatched vSphere VM, under the
    name `vm[:64]`, with the tenant `folder[:30].rstrip(' ')` and the VM's own OS type as platform.
  */
  lemma CreatedVm(inv: Inventory, cluster: string, e: Entry, listing: seq<string>, status: Option<string>,
                  env: Env, faults: Faults, k: VmKey)
    requires k !in inv.vms && k in VmStep(inv, cluster, e, listing, status, env, faults).inv.vms
    ensures k == VmKey(cluster, NetboxName(e.name)) && NetboxName(e.name) !in listing
    ensures DecodeHeader(e.rec).Some?
    ensures var r := VmStep(inv, cluster, e, listing, status, env, faults).inv.vms[k];
      && r.tenant == Some(CreateTenantName(DecodeHeader(e.rec).value.folder))
      && DecodeHeader(e.rec).value.ostype.Str? && r.platform == Some(DecodeHeader(e.rec).value.ostype.s)
  {
  }

  /** The scan of one VM passes over its match (if any): the matched name joins `set_ipam_vm`. */
  lemma ScanCoversMatch(listing: seq<string>, target: string, updates: bool)
    requires target in listing
    ensures target in Elements(listing[..Visited(listing, target, updates)])
  {
    var k := Visited(listing, target, updates);
    if updates {
      assert listing[..k][k - 1] == target;
    } else {
      assert listing[..k] == listing;
    }
  }

  /** The full vSphere names of the entries. */
  function EntryNames(entries: seq<Entry>): set<string>
  {
    set e | e in entries :: e.name
  }

  /** One more VM that does not raise adds its full name to `set_vmware_vm`. */
  lemma ObservedStep(inv: Inventory, cluster: string, entries: seq<Entry>, listing: seq<string>,
                     status: Option<string>, env: Env, faults: Faults)
    requires entries != []
    requires !VmLoop(inv, cluster, entries, listing, status, env, faults).crashed
    ensures !VmLoop(inv, cluster, entries[..|entries| - 1], listing, status, env, faults).crashed
    ensures VmLoop(inv, cluster, entries, listing, status, env, faults).observed
              == VmLoop(inv, cluster, entries[..|entries| - 1], listing, status, env, faults).observed + {entries[|entries| - 1].name}
  {
  }

  /** `set_vmware_vm` holds exactly the full vSphere names of the entries, when no VM raised. */
  lemma {:induction false} ObservedNames(inv: Inventory, cluster: string, entries: seq<Entry>, listing: seq<string>,
                                         status: Option<string>, env: Env, faults: Faults)
    requires !VmLoop(inv, cluster, entries, listing, status, env, faults).crashed
    ensures VmLoop(inv, cluster, entries, listing, status, env, faults).observed == EntryNames(entries)
  {
    if entries != [] {
      var init := entries[..|entries| - 1];
      var last := entries[|entries| - 1];
      ObservedStep(inv, cluster, entries, listing, status, env, faults);
      ObservedNames(inv, cluster, init, listing, status, env, faults);
      EntryNamesAppend(init, last);
      assert init + [last] == entries;
    }
  }

  lemma EntryNamesAppend(init: seq<Entry>, last: Entry)
    ensures EntryNames(init + [last]) == EntryNames(init) + {last.name}
  {
    forall n | n in EntryNames(init + [last])
      ensures n in EntryNames(init) + {last.name}
    {
      var e :| e in init + [last] && e.name == n;
      if e != last {
        assert e in init;
      }
    }
    forall n | n in EntryNames(init)
      ensures n in EntryNames(init + [last])
    {
      var e :| e in init && e.name == n;
      assert e in init + [last];
    }
    assert last in init + [last];
  }

  /** Every matched name `vm[:64]` ends up in `set_ipam_vm`, when no VM raised. */
  lemma {:induction false} MatchedNamesScanned(inv: Inventory, cluster: string, entries: seq<Entry>, listing: seq<string>,
                                               status: Option<string>, env: Env, faults: Faults, i: nat)
    requires !VmLoop(inv, cluster, entries, listing, status, env, faults).crashed
    requires i < |entries| && NetboxName(entries[i].name) in listing
    ensures NetboxName(entries[i].name) in VmLoop(inv, cluster, entries, listing, status, env, faults).scanned
  {
    var init := entries[..|entries| - 1];
    var p := VmLoop(inv, cluster, init, listing, status, env, faults);
    if i < |init| {
      assert init[i] == entries[i];
      MatchedNamesScanned(inv, cluster, init, listing, status, env, faults, i);
    } else {
      var e := entries[i];
      var h := DecodeHeader(e.rec).value;
      var st := NextStatus(h.state, p.status);
      var inv1 := p.inv.(platforms := EnsureOsPlatform(p.inv.platforms, h.ostype, faults));
      var key := VmKey(cluster, NetboxName(e.name));
      ScanCoversMatch(listing, NetboxName(e.name), key in inv1.vms && UpdateWorks(key, h, st, faults));
    }
  }

  /**
    The truncation asymmetry: `set_ipam_vm` collects NetBox names (at most 64 characters) but
    `set_vmware_vm` full vSphere names. A matched VM whose truncated name is no entry's full
    name (a vSphere name longer than 64 characters, say) becomes a deletion candidate in the
    same pass that updated it.
  */
  lemma TruncatedNameIsCandidate(inv: Inventory, cluster: string, entries: seq<Entry>, listing: seq<string>,
                                 status: Option<string>, env: Env, faults: Faults, i: nat)
    requires !VmLoop(inv, cluster, entries, listing, status, env, faults).crashed
    requires i < |entries| && NetboxName(entries[i].name) in listing
    requires NetboxName(entries[i].name) !in EntryNames(entries)
    ensures NetboxName(entries[i].name) in Candidates(VmLoop(inv, cluster, entries, listing, status, env, faults))
  {
    MatchedNamesScanned(inv, cluster, entries, listing, status, env, faults, i);
    ObservedNames(inv, cluster, entries, listing, status, env, faults);
  }

  /** A NetBox VM whose name is the full name of some vSphere VM of the cluster's output is never deleted. */
  lemma ObservedNeverDeleted(inv: Inventory, cluster: string, entries: seq<Entry>, listing: seq<string>,
                             status: Option<string>, env: Env, faults: Faults, j: nat)
    requires !VmLoop(inv, cluster, entries, listing, status, env, faults).crashed
    requires j < |entries|
    ensures entries[j].name !in Candidates(VmLoop(inv, cluster, entries, listing, status, env, faults))
  {
    ObservedNames(inv, cluster, entries, listing, status, env, faults);
    assert entries[j] in entries;
  }

  /** A VM disappears only if it is a candidate of the cluster and its IPs and delete all went through. */
  lemma DeletedOnlyCandidates(inv: Inventory, cluster: string, cands: set<string>, env: Env, faults: Faults, k: VmKey)
    requires k in inv.vms && k !in DeleteVms(inv, cluster, cands, env, faults).vms
    ensures k.cluster == cluster && k.name in cands && k !in faults.delete
    ensures forall id :: id in inv.ips && Named(inv.ips, id, k.name) && id in env.ipOrder ==> id !in faults.ip
  {
    var ids := IpsNamed(env.ipOrder, inv.ips, k.name);
    forall id | id in inv.ips && Named(inv.ips, id, k.name) && id in env.ipOrder
      ensures id !in faults.ip
    {
      var i :| 0 <= i < |ids| && ids[i] == id;
    }
  }

  /** `ipOrder` lists every IP address exactly once. */
  ghost predicate IsIpOrder(order: seq<nat>, ips: map<nat, Ip>)
  {
    Distinct(order) && forall id :: id in order <==> id in ips
  }

  /** Every IP filtered by a candidate's name is detached when the candidate goes. */
  lemma GoneCandidateFullyDetached(inv: Inventory, c: string, env: Env, faults: Faults, id: nat)
    requires Clean(IpsNamed(env.ipOrder, inv.ips, c), faults.ip) == |IpsNamed(env.ipOrder, inv.ips, c)|
    requires id in env.ipOrder && Named(inv.ips, id, c)
    ensures id in DetachedFor(inv, c, env, faults)
  {
    var ids := IpsNamed(env.ipOrder, inv.ips, c);
    assert ids[..|ids|] == ids;
  }

  /**
    No IP address is lost: when NetBox deletes a candidate VM, its addresses have all been
    detached first, so the cascade takes none of them; every address survives, either as it was
    or with its assignment cleared.
  */
  lemma NoIpLost(inv: Inventory, cluster: string, cands: set<string>, env: Env, faults: Faults)
    requires IsIpOrder(env.ipOrder, inv.ips)
    ensures DeleteVms(inv, cluster, cands, env, faults).ips.Keys == inv.ips.Keys
    ensures forall id :: id in inv.ips ==>
              DeleteVms(inv, cluster, cands, env, faults).ips[id] in {inv.ips[id], inv.ips[id].(vm := None)}
  {
    forall id | id in inv.ips
      ensures !Cascaded(inv, cluster, cands, env, faults, id)
    {
      if Cascaded(inv, cluster, cands, env, faults, id) {
        GoneCandidateFullyDetached(inv, inv.ips[id].vm.value.name, env, faults, id);
      }
    }
  }

  /**
    The IP filter goes by VM name alone: when a candidate goes, the addresses of every VM with
    that name are detached, in other clusters too.
  */
  lemma DetachReachesOtherClusters(inv: Inventory, cluster: string, cands: set<string>, env: Env, faults: Faults, id: nat)
    requires IsIpOrder(env.ipOrder, inv.ips)
    requires id in inv.ips && inv.ips[id].vm.Some? && inv.ips[id].vm.value.name in cands
    requires Goes(inv, cluster, inv.ips[id].vm.value.name, env, faults)
    ensures id in DeleteVms(inv, cluster, cands, env, faults).ips
    ensures DeleteVms(inv, cluster, cands, env, faults).ips[id].vm == None
  {
    GoneCandidateFullyDetached(inv, inv.ips[id].vm.value.name, env, faults, id);
  }

  /** VMs of other clusters keep their records through the whole cluster pass. */
  lemma {:induction false} VmLoopOtherClusters(inv: Inventory, cluster: string, entries: seq<Entry>, listing: seq<string>,
                                               status: Option<string>, env: Env, faults: Faults, k: VmKey)
    requires k.cluster != cluster
    ensures var p := VmLoop(inv, cluster, entries, listing, status, env, faults);
      (k in p.inv.vms <==> k in inv.vms) && (k in inv.vms ==> p.inv.vms[k] == inv.vms[k])
  {
    if entries != [] {
      var init := entries[..|entries| - 1];
      VmLoopOtherClusters(inv, cluster, init, listing, status, env, faults, k);
      var p := VmLoop(inv, cluster, init, listing, status, env, faults);
      if !p.crashed {
        VmStepFrame(p.inv, cluster, entries[|entries| - 1], listing, p.status, env, faults, k);
      }
    }
  }

  lemma OtherClustersKept(inv: Inventory, cluster: string, known: set<string>, entries: seq<Entry>, listing: seq<string>,
                          status: Option<string>, env: Env, faults: Faults, k: VmKey)
    requires k.cluster != cluster
    ensures var r := ClusterPass(inv, cluster, known, entries, listing, status, env, faults);
      (k in r.inv.vms <==> k in inv.vms) && (k in inv.vms ==> r.inv.vms[k] == inv.vms[k])
  {
    var clusters := EnsureCluster(inv.clusters, cluster, known, env, faults);
    if cluster in clusters {
      VmLoopOtherClusters(inv.(clusters := clusters), cluster, entries, listing, status, env, faults, k);
    }
  }

  // ---------------------------------------------------------------------------------------
  // The deletion loop, one candidate at a time
  // ---------------------------------------------------------------------------------------

  /** The IP filter depends only on which IPs carry the name. */
  lemma {:induction false} IpsNamedCongruent(order: seq<nat>, ips: map<nat, Ip>, ips': map<nat, Ip>, name: string)
    requires forall id :: id in order ==> (Named(ips, id, name) <==> Named(ips', id, name))
    ensures IpsNamed(order, ips, name) == IpsNamed(order, ips', name)
  {
    if order != [] {
      var init := order[..|order| - 1];
      assert forall id :: id in init ==> id in order;
      IpsNamedCongruent(init, ips, ips', name);
    }
  }

  /** Processing other candidates leaves the IPs named `c` as they were. */
  lemma NamedKept(inv: Inventory, cluster: string, done: set<string>, c: string, env: Env, faults: Faults, id: nat)
    requires c !in done
    ensures Named(DeleteVms(inv, cluster, done, env, faults).ips, id, c) <==> Named(inv.ips, id, c)
  {
  }

  /** Processing other candidates does not change what happens to `c`. */
  lemma GoesKept(inv: Inventory, cluster: string, done: set<string>, c: string, env: Env, faults: Faults)
    requires c !in done
    ensures var inv' := DeleteVms(inv, cluster, done, env, faults);
      && IpsNamed(env.ipOrder, inv'.ips, c) == IpsNamed(env.ipOrder, inv.ips, c)
      && DetachedFor(inv', c, env, faults) == DetachedFor(inv, c, env, faults)
      && (Goes(inv', cluster, c, env, faults) <==> Goes(inv, cluster, c, env, faults))
  {
    var inv' := DeleteVms(inv, cluster, done, env, faults);
    forall id | id in env.ipOrder
      ensures Named(inv.ips, id, c) <==> Named(inv'.ips, id, c)
    {
      NamedKept(inv, cluster, done, c, env, faults, id);
    }
    IpsNamedCongruent(env.ipOrder, inv.ips, inv'.ips, c);
  }

  /** One IP through the step: the two sides agree on whether it survives and on its new value. */
  lemma DeleteStepIp(inv: Inventory, cluster: string, done: set<string>, c: string, env: Env, faults: Faults, id: nat)
    requires c !in done
    ensures var l, r := DeleteVms(inv, cluster, done + {c}, env, faults).ips, DropOne(DeleteVms(inv, cluster, done, env, faults), cluster, c, env, faults).ips;
      (id in l <==> id in r) && (id in l ==> l[id] == r[id])
  {
    GoesKept(inv, cluster, done, c, env, faults);
    var inv' := DeleteVms(inv, cluster, done, env, faults);
    if id in inv.ips && inv.ips[id].vm.Some? && inv.ips[id].vm.value.name == c {
      assert Named(inv.ips, id, c);
      assert id in inv'.ips && inv'.ips[id] == inv.ips[id];
    } else {
      NamedKept(inv, cluster, done, c, env, faults, id);
      assert !Named(inv'.ips, id, c);
      assert id !in DetachedFor(inv', c, env, faults);
    }
  }

  /**
    Candidates are independent of one another: processing one more candidate after a set of
    others gives the state of processing the larger set. So the loop over Python's unordered
    `new_set` ends in the same state whatever order the set yields.
  */
  lemma DeleteStep(inv: Inventory, cluster: string, done: set<string>, c: string, env: Env, faults: Faults)
    requires c !in done
    ensures DeleteVms(inv, cluster, done + {c}, env, faults) ==
            DropOne(DeleteVms(inv, cluster, done, env, faults), cluster, c, env, faults)
  {
    GoesKept(inv, cluster, done, c, env, faults);
    var l := DeleteVms(inv, cluster, done + {c}, env, faults);
    var r := DropOne(DeleteVms(inv, cluster, done, env, faults), cluster, c, env, faults);
    forall id | true
      ensures (id in l.ips <==> id in r.ips) && (id in l.ips ==> l.ips[id] == r.ips[id])
    {
      DeleteStepIp(inv, cluster, done, c, env, faults, id);
    }
    assert l.ips == r.ips;
    assert l.vms == r.vms;
  }

  /** Nothing processed, nothing changed. */
  lemma DeleteNone(inv: Inventory, cluster: string, env: Env, faults: Faults)
    ensures DeleteVms(inv, cluster, {}, env, faults) == inv
  {
    assert DeleteVms(inv, cluster, {}, env, faults).vms == inv.vms;
    assert DeleteVms(inv, cluster, {}, env, faults).ips == inv.ips;
  }

  /** A VM of a cluster that no job of the run names keeps its record. */
  lemma {:induction false} RunOtherClusters(inv: Inventory, known: set<string>, jobs: seq<Job>, status: Option<string>,
                                            env: Env, faults: Faults, k: VmKey)
    requires forall j :: j in jobs ==> j.cluster != k.cluster
    ensures var r := Run(inv, known, jobs, status, env, faults);
      (k in r.inv.vms <==> k in inv.vms) && (k in inv.vms ==> r.inv.vms[k] == inv.vms[k])
  {
    if jobs != [] {
      var init := jobs[..|jobs| - 1];
      assert forall j :: j in init ==> j in jobs;
      RunOtherClusters(inv, known, init, status, env, faults, k);
      var p := Run(inv, known, init, status, env, faults);
      var j := jobs[|jobs| - 1];
      if !p.crashed {
        OtherClustersKept(p.inv, j.cluster, known, j.entries, j.listing, p.status, env, faults, k);
      }
    }
  }

  /** Once the VM loop has raised, the remaining VMs change nothing. */
  lemma {:induction false} VmLoopStaysCrashed(inv: Inventory, cluster: string, entries: seq<Entry>, listing: seq<string>,
                                              status: Option<string>, env: Env, faults: Faults, n: nat)
    requires n <= |entries| && VmLoop(inv, cluster, entries[..n], listing, status, env, faults).crashed
    ensures VmLoop(inv, cluster, entries, listing, status, env, faults) == VmLoop(inv, cluster, entries[..n], listing, status, env, faults)
    decreases |entries| - n
  {
    if n < |entries| {
      assert entries[..n + 1][..n] == entries[..n];
      VmLoopStaysCrashed(inv, cluster, entries, listing, status, env, faults, n + 1);
    } else {
      assert entries[..n] == entries;
    }
  }

  /** Once a cluster has raised, the remaining clusters change nothing. */
  lemma {:induction false} RunStaysCrashed(inv: Inventory, known: set<string>, jobs: seq<Job>, status: Option<string>,
                                           env: Env, faults: Faults, n: nat)
    requires n <= |jobs| && Run(inv, known, jobs[..n], status, env, faults).crashed
    ensures Run(inv, known, jobs, status, env, faults) == Run(inv, known, jobs[..n], status, env, faults)
    decreases |jobs| - n
  {
    if n < |jobs| {
      assert jobs[..n + 1][..n] == jobs[..n];
      RunStaysCrashed(inv, known, jobs, status, env, faults, n + 1);
    } else {
      assert jobs[..n] == jobs;
    }
  }

  /** A read that fails at index `i` makes the whole family fail. */
  lemma {:induction false} ReadDisksNoneStays(rec: Record, info: Family, total: Family, i: nat, n: nat)
    requires i < n && ReadDisk(rec, info, total, i).None?
    ensures ReadDisks(rec, info, total, n).None?
  {
    if i < n - 1 {
      ReadDisksNoneStays(rec, info, total, i, n - 1);
      assert ReadDisks(rec, info, total, n - 1).None?;
    } else {
      assert ReadDisk(rec, info, total, n - 1).None?;
    }
  }

  /**
    The collector writes a disk size as `"%.2f" % (capacityInKB // 1024**2)`; the import reads it
    back with `int(float(...))` and gets the same whole number of gigabytes.
  */
  lemma CollectedSizeReadsBack(capacityInKB: nat)
    ensures IntOf(Str(SizeText(capacityInKB))) == Some(capacityInKB / 1048576)
  {
    DecimalFloorOfFormatted(capacityInKB / 1048576);
  }
}
