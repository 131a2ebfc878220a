# netbox-scripts reconciliation, modelled in Dafny

netbox-scripts keeps a NetBox inventory in step with the live infrastructure. It has two
parts, and this project models the decision logic of both. The network clients (pynetbox,
netmiko, pyVim) are not modelled: NetBox is an in-memory table, and what a switch or vCenter
reports is an input sequence.

- **VLANs** (`network-scripts/get_vlan.py`).
  - The driver, `add_vlans_to_netbox`:
    - keeps the devices whose printed tag list contains `itp_script`;
    - submits one job per device, chosen by platform name (`ios`, `ios_telnet`, `nxos`, `VRP`).
  - Each of the four per-platform functions:
    - checks its platform (and `active` status on VRP);
    - builds the switch VLAN list:
      - Cisco keeps a VLAN when its status is a *substring* of `active`;
      - VRP synthesises the VLAN name from name, description and vid;
    - scans the device's VLAN group once per switch VLAN, updating the match or creating the VLAN;
    - deletes `set_ipam_vlan - set_switch_vlan`.
- **VMs**, collector side (`VMware-scripts/nb_vsphere_scripts/get_cluster.py`).
  - `getNICs` and `vmsummary` flatten a VM's NICs and device list into indexed keys. Three
    counters number RDM disks, other hard disks and network adapters.
  - `vm2dict` copies those keys into the output tree.
- **VMs**, import side (`VMware-scripts/nb_vsphere_scripts/nb_vm.py`). For each cluster it:
  1. ensures the cluster exists;
  2. maps power state and the `'True'`/`'False'` flags;
  3. ensures a platform (matched with spaces removed; the slug drops `` .'()"+/``);
  4. buckets each disk as SATA, SAS, SSD or Unknown by datastore path;
  5. updates the NetBox VM named `vm[:64]`, or creates it;
  6. detaches and deletes the VMs in `set_ipam_vm - set_vmware_vm`.

Modules, one per file:

| File | Module | What it holds |
|---|---|---|
| `text.dfy` | `Wrappers`, `Text` | the Python string operations used: `in`, `replace`, `[:n]`, `rstrip`, `str(int)`, `int(str)`, `int(float(str))` |
| `scan.dfy` | `Scan` | the break-on-successful-update scan that both reconcilers use |
| `vlans.dfy` | `Vlans` | VRP/Cisco filtering and naming, matching, deletion candidates |
| `vlan_inventory.dfy` | `VlanInventory` | the VLAN table, the state one device's run leaves it in, and class `Ipam`, which performs the run in place |
| `vlan_dispatch.dfy` | `VlanDispatch` | device selection, platform routing and each function's guard |
| `vm_collect.dfy` | `VmCollect` | `getNICs`, `vmsummary` and `vm2dict`, including class `Collection` (the output tree) |
| `vm_rules.dfy` | `VmRules` | status and flag mapping, slug, platform comparison, disk buckets, name truncation |
| `vm_inventory.dfy` | `VmInventory` | NetBox as the VM import sees it, and the state each step leaves it in |
| `vm_sync.dfy` | `VmSync` | class `Virtualization`, which performs the import in place and is proved equal to the `VmInventory` functions |

External failures are modelled as parameters. `Faults` lists which NetBox calls raise; the
scripts catch each exception and carry on. NetBox's own uniqueness rules make a create fail:
a vid is unique per group, a VM name per cluster, and a platform's name and slug are unique.
An uncaught exception (a missing JSON key, `int(float(...))` on a bad value, `.id` on `None`)
ends the run. The model returns a `crashed` flag in that case, and later steps change nothing.

## Where the code departs from a plain reconcile

The model follows the code wherever the code departs from a plain "create the missing, update
the matched, delete the rest" reconcile:

- **Deletions need not cover the full difference.** The `set_ipam_*` sets are filled inside
  the scan, which breaks after the first successful update. So a stale record placed after
  every match is never a candidate.
  - Proved by `Vlans.StaleVlanAfterLastMatchSurvives`.
  - `Vlans.CompleteSweepWhenSomethingUnupdated` shows the sweep is complete as soon as one
    switch VLAN is not updated.
- **Truncation asymmetry in the VM import.** `set_ipam_vm` holds NetBox names, which are at
  most 64 characters. `set_vmware_vm` holds full vSphere names. A VM with a longer name is
  updated and then becomes a deletion candidate in the same pass
  (`VmInventory.TruncatedNameIsCandidate`).
- **Matched records are always re-written.** A second run is not free of writes.
- **Updates and creates are interleaved per record; deletions follow.** Deletions run after
  the whole update/create loop: per device for VLANs, per cluster for VMs.
- **Failures are only printed.** No failure list is kept.
- **Each NIC keeps only its last IPv4 address, under key 0.** In `getNICs` the counter `i` is
  incremented after the address loop, not inside it. So every IPv4 address is written to
  `ipv4[0]` over the one before (`VmCollect.Ipv4EntriesLastOnly`, `VmCollect.Ipv4KeepsOnlyLast`).
- **Two vSphere names that share a 64-character prefix both update one NetBox VM.** When
  neither name matches, the second create is refused, because VM names are unique per
  cluster.
- **IP detachment filters by VM name alone.** The addresses of same-named VMs in other
  clusters are detached too (`VmInventory.DetachReachesOtherClusters`).
- **A platform's space-free name can match while its exact name does not.** The platform
  is then neither created nor found by the exact-name lookup that follows
  (`VmInventory.SpacedPlatformIsMissed`).

## Model

Source cells start at the repository's top directory, `netbox-scripts/`.

| member | source | states |
|---|---|---|
| Text.RemoveChar | netbox-scripts/VMware-scripts/nb_vsphere_scripts/nb_vm.py:117-118 | `s.replace(c, '')` never lengthens the string, removes every `c`, and keeps every other character that occurs |
| Text.Take | netbox-scripts/VMware-scripts/nb_vsphere_scripts/nb_vm.py:263 | `s[:n]` is the prefix of length `min(len(s), n)` |
| Text.RStrip | netbox-scripts/VMware-scripts/nb_vsphere_scripts/nb_vm.py:78 | `rstrip(' ')` is a prefix that does not end in a space, and everything it drops is spaces |
| Text.ParseNatToString | netbox-scripts/network-scripts/get_vlan.py:72-73 | `int(str(vid)) == vid`, so the `str(vid)` match names one vid |
| Text.NatToStringInjective | netbox-scripts/network-scripts/get_vlan.py:93 | `str(m) == str(n)` exactly when `m == n`, so a candidate string names one VLAN of the group |
| Text.DecimalFloorOfFormatted | netbox-scripts/VMware-scripts/nb_vsphere_scripts/nb_vm.py:196 | `int(float("<n>.00")) == n` |
| Scan.Visited | netbox-scripts/network-scripts/get_vlan.py:71-78 | the scan stops right after the first match whose update succeeds, and otherwise runs to the end of the listing |
| Scan.VisitedSkipsOnlyAfterMatch | netbox-scripts/network-scripts/get_vlan.py:71-78 | in a listing without duplicates, a listed record goes unscanned exactly when it lies after a successfully updated match |
| Scan.Search | netbox-scripts/network-scripts/get_vlan.py:71-78 | the scan reports a match exactly when the id occurs in the listing, and stops after exactly `Visited` entries |
| Vlans.VrpName | netbox-scripts/network-scripts/get_vlan.py:46-55 | when name equals description the result is the name; otherwise it is exactly `"<name> <vid>"`, or `"<description> <vid>"` when the name is `VLAN` or empty (prefix, suffix and length fixed); it is empty exactly when name and description both are |
| Vlans.VrpVlans | netbox-scripts/network-scripts/get_vlan.py:43-56 | every VRP VLAN takes part, in order, with its VrpName and status `active` |
| Vlans.CiscoVlans | netbox-scripts/network-scripts/get_vlan.py:143-146 | exactly the parsed VLANs whose status is a substring of `active` take part, with their own name and status |
| Vlans.CiscoVlansAppend | netbox-scripts/network-scripts/get_vlan.py:143-146 | the filter keeps the switch's order: filtering `a + b` gives the filtered `a` followed by the filtered `b` |
| Vlans.CiscoFilterExamples | netbox-scripts/network-scripts/get_vlan.py:145 | `active`, `act` and the empty status pass the substring test; `act/lshut`, `suspended` and `sus` fail it |
| Vlans.VidStrings | netbox-scripts/network-scripts/get_vlan.py:72-73 | one `str(vid)` per listed VLAN, in listing order |
| Vlans.ScannedIdsInListing | netbox-scripts/network-scripts/get_vlan.py:72 | `set_ipam_vlan` only ever holds `str(vid)`s of the device's group |
| Vlans.DeleteCandidatesAreStale | netbox-scripts/network-scripts/get_vlan.py:91-95 | every candidate is a group VLAN absent from the switch; a switch VLAN is never a candidate |
| Vlans.NoSwitchVlansNoDeletes | netbox-scripts/network-scripts/get_vlan.py:65-72 | with no switch VLAN after filtering, there are no deletion candidates |
| Vlans.UnupdatedVlanScansAll | netbox-scripts/network-scripts/get_vlan.py:71-82 | a switch VLAN that is unmatched or fails its update makes `set_ipam_vlan` the whole group |
| Vlans.CompleteSweepWhenSomethingUnupdated | netbox-scripts/network-scripts/get_vlan.py:68-91 | in that case the candidates are exactly the group VLANs missing from the switch |
| Vlans.StaleVlanAfterLastMatchSurvives | netbox-scripts/network-scripts/get_vlan.py:71-78 | switch `[10]` against listing `[10, 99]`: 99 is stale, yet there are no candidates (the break-scan quirk) |
| VlanInventory.ListedVid | netbox-scripts/network-scripts/get_vlan.py:73 | a listed `str(vid)` parses back to a listed vid |
| VlanInventory.MatchedVid | netbox-scripts/network-scripts/get_vlan.py:73-76 | a matched switch VLAN's id is the `str` of a listed vid |
| VlanInventory.AfterVlansFrame | netbox-scripts/network-scripts/get_vlan.py:68-89 | the update/create loop never removes a VLAN and never touches another group |
| VlanInventory.OtherGroupsUntouched | netbox-scripts/network-scripts/get_vlan.py:61-62 | a device's run leaves every other VLAN group exactly as it was |
| VlanInventory.DeletedOnlyIfStale | netbox-scripts/network-scripts/get_vlan.py:91-99 | a VLAN disappears only if it is in the device's group, was a candidate, is absent from the switch, and its delete did not raise |
| VlanInventory.SwitchVlanNeverDeleted | netbox-scripts/network-scripts/get_vlan.py:91 | a VLAN the switch reports survives the run |
| VlanInventory.SwitchVlansPresent | netbox-scripts/network-scripts/get_vlan.py:68-89 | with no failing call, every switch VLAN is in the table after the loop |
| VlanInventory.AfterVlansGroupKeys | netbox-scripts/network-scripts/get_vlan.py:68-89 | after the loop, each group VLAN was either listed before or is on the switch |
| VlanInventory.ConvergesWhenSomethingCreated | netbox-scripts/network-scripts/get_vlan.py:68-95 | with no failing call and one VLAN created, the group's VLAN ids end up exactly the switch's (with canonical ids) |
| VlanInventory.DeleteStep | netbox-scripts/network-scripts/get_vlan.py:92-96 | deleting one more candidate removes exactly its key unless the delete raises, so the set's iteration order does not matter |
| VlanInventory.Ipam.ReconcileGroup | netbox-scripts/network-scripts/get_vlan.py:60-99 | the per-device procedure leaves the table equal to `Reconciled`; its counters are: created = unmatched switch VLANs; updated = matched VLANs whose update went through; deleted = candidates whose delete went through |
| VlanInventory.Ipam.ScanAndUpdate | netbox-scripts/network-scripts/get_vlan.py:71-81 | the inner loop finds a match exactly when some `str(vid)` equals the id, scans `ScanLength` entries, and changes the table only by a successful update |
| VlanInventory.Ipam.UpdateListed | netbox-scripts/network-scripts/get_vlan.py:73-77 | a successful `update` gives the matched VLAN the switch's name and status and keeps its site |
| VlanInventory.Ipam.CreateOne | netbox-scripts/network-scripts/get_vlan.py:82-89 | `vlans.create` adds the VLAN with the device's site and group unless the vid is taken or the call raises |
| VlanInventory.Ipam.DeleteCandidatesFromGroup | netbox-scripts/network-scripts/get_vlan.py:91-99 | the deletion loop, in any set order, removes the non-failing candidates of the group and counts them |
| VlanInventory.Ipam.DeleteListed | netbox-scripts/network-scripts/get_vlan.py:92-96 | one candidate leaves the table as deleting it along with those already processed, goes exactly when its delete does not raise, and then adds one to the count |
| VlanDispatch.Route | netbox-scripts/network-scripts/get_vlan.py:356-374 | a job is submitted exactly for the four platform names, to the function written for that name |
| VlanDispatch.RouteInvertsPlatformName | netbox-scripts/network-scripts/get_vlan.py:357-371 | each function's platform name routes back to that function |
| VlanDispatch.ScriptDevices | netbox-scripts/network-scripts/get_vlan.py:348-353 | `script_devices` holds exactly the devices whose tag text contains `itp_script` |
| VlanDispatch.ScriptDevicesAppend | netbox-scripts/network-scripts/get_vlan.py:348-353 | the selection keeps the inventory's order: selecting from `a + b` gives the selection from `a` followed by that from `b` |
| VlanDispatch.SubmittedJobsRouted | netbox-scripts/network-scripts/get_vlan.py:355-374 | every job runs the function of its device's platform |
| VlanDispatch.SubmittedComplete | netbox-scripts/network-scripts/get_vlan.py:355-374 | the submit loop raises exactly when a tagged device has no platform; otherwise every tagged device of a supported platform gets its job |
| VlanDispatch.ScheduleJobs | netbox-scripts/network-scripts/get_vlan.py:348-374 | the driver's two loops submit exactly `Submitted(ScriptDevices(devices))` |
| VlanDispatch.SubmittedStaysCrashed | netbox-scripts/network-scripts/get_vlan.py:356-357 | after `device.platform.name` raises, no later device is submitted |
| VlanDispatch.EligibleOnlyForRoute | netbox-scripts/network-scripts/get_vlan.py:27 | a function acts only on devices whose platform routes to it (the same check as lines 118, 195 and 273) |
| VlanDispatch.SyncDevice | netbox-scripts/network-scripts/get_vlan.py:24-27 | a device without a platform raises; a device of another platform (or a non-active VRP device) is left alone; otherwise, when the device has a VLAN group, the group is reconciled |
| VmCollect.Ipv4EntriesLastOnly | netbox-scripts/VMware-scripts/nb_vsphere_scripts/get_cluster.py:23-30 | `ipv4` holds only the last IPv4 address of the NIC, under key 0, and is empty when the NIC has no IPv4 address |
| VmCollect.LastIpv4IsLast | netbox-scripts/VMware-scripts/nb_vsphere_scripts/get_cluster.py:26-29 | the address that sets `prefix` and `connected` is an IPv4 one with no IPv4 address after it, and there is none exactly when no address is IPv4 |
| VmCollect.NicTableMacs | netbox-scripts/VMware-scripts/nb_vsphere_scripts/get_cluster.py:17-21 | the table's MACs are exactly those of network-backed NICs with an address list |
| VmCollect.NicTableLastWins | netbox-scripts/VMware-scripts/nb_vsphere_scripts/get_cluster.py:20 | a MAC's entry is built from the last such NIC carrying it |
| VmCollect.ReadNic | netbox-scripts/VMware-scripts/nb_vsphere_scripts/get_cluster.py:20-30 | the address loop of one NIC yields its entry: `ipv4`, `prefix` and `connected` all come from its last IPv4 address, `ipv4` under key 0 |
| VmCollect.Ipv4KeepsOnlyLast | netbox-scripts/VMware-scripts/nb_vsphere_scripts/get_cluster.py:23-30 | for the addresses 10.0.0.1 and 10.0.0.2, `ipv4` is `{0: '10.0.0.2'}` |
| VmCollect.Ipv4KeyIgnoresIpv6 | netbox-scripts/VMware-scripts/nb_vsphere_scripts/get_cluster.py:23-30 | for the addresses fe80::1 and 10.0.0.5, `ipv4` is `{0: '10.0.0.5'}` |
| VmCollect.GetNics | netbox-scripts/VMware-scripts/nb_vsphere_scripts/get_cluster.py:15-31 | the NIC loop returns `NicTable`: one entry per kept MAC, from the last NIC with that MAC, each holding at most its last IPv4 address at key 0 |
| VmCollect.Devices | netbox-scripts/VMware-scripts/nb_vsphere_scripts/get_cluster.py:64-89 | the devices of one kind (RDM disk, other hard disk, adapter), in device order |
| VmCollect.LastHardDisk | netbox-scripts/VMware-scripts/nb_vsphere_scripts/get_cluster.py:66-73 | the last device labelled `Hard disk`, or none |
| VmCollect.ThinProvText | netbox-scripts/VMware-scripts/nb_vsphere_scripts/get_cluster.py:67-73 | `'True'` exactly when `thinProvisioned == True`, otherwise (including a missing attribute) `'False'` |
| VmCollect.FamilyItems | netbox-scripts/VMware-scripts/nb_vsphere_scripts/get_cluster.py:75-89 | one value per device of the family's kind, in order |
| VmCollect.DeviceEntriesKeys | netbox-scripts/VMware-scripts/nb_vsphere_scripts/get_cluster.py:64-89 | the device loop writes only indexed keys and `ThinProv` |
| VmCollect.DeviceEntriesThinProv | netbox-scripts/VMware-scripts/nb_vsphere_scripts/get_cluster.py:66-73 | `ThinProv` is written exactly when there is a hard disk, and the last hard disk decides its value |
| VmCollect.DeviceEntriesIndexed | netbox-scripts/VMware-scripts/nb_vsphere_scripts/get_cluster.py:75-89 | each family's indices run contiguously from 0, and entry `n` describes the `n`-th device of its kind |
| VmCollect.HeaderEntriesLookup | netbox-scripts/VMware-scripts/nb_vsphere_scripts/get_cluster.py:39-58 | the header keys and their values, as `vmsummary` writes them before the device loop |
| VmCollect.SummaryDetermined | netbox-scripts/VMware-scripts/nb_vsphere_scripts/get_cluster.py:34-101 | the key-by-key description of `vmsummary`'s output fixes the dictionary completely |
| VmCollect.VmSummary | netbox-scripts/VMware-scripts/nb_vsphere_scripts/get_cluster.py:34-101 | the returned dictionary has the header, counts equal to the number of RDM disks, other disks and adapters, `Snapshot` as `'True'` exactly when a snapshot exists, `ThinProv` from the last hard disk, and contiguous families |
| VmCollect.SummaryHeaderEntries | netbox-scripts/VMware-scripts/nb_vsphere_scripts/get_cluster.py:35-58 | the assignments before the device loop give exactly the header entries |
| VmCollect.DeviceLoop | netbox-scripts/VMware-scripts/nb_vsphere_scripts/get_cluster.py:59-89 | the device loop adds exactly the device entries to the header and ends with `j`, `i`, `k` equal to the numbers of RDM disks, other hard disks and adapters |
| VmCollect.RecordDevice | netbox-scripts/VMware-scripts/nb_vsphere_scripts/get_cluster.py:64-89 | one device adds its entries, and exactly its own counter grows by one |
| VmCollect.DeviceStep | netbox-scripts/VMware-scripts/nb_vsphere_scripts/get_cluster.py:64-89 | one more device: the entries and the three counts grow as the loop body says |
| VmCollect.Put | netbox-scripts/VMware-scripts/nb_vsphere_scripts/get_cluster.py:115-139 | `data[dc][cluster][host][vm]` becomes the new record; the data-centre keys and the set of VMs stay the same, and every other VM keeps its record |
| VmCollect.IndexKeys | netbox-scripts/VMware-scripts/nb_vsphere_scripts/get_cluster.py:131-132 | one loop pass copies exactly the family keys for its index |
| VmCollect.LoopKeys | netbox-scripts/VMware-scripts/nb_vsphere_scripts/get_cluster.py:130-139 | a `range(n)` loop copies exactly the family keys below `n` |
| VmCollect.CopyAllSucceeds | netbox-scripts/VMware-scripts/nb_vsphere_scripts/get_cluster.py:116-139 | the copy raises `KeyError` exactly when a key it reads is missing |
| VmCollect.CopyAllContents | netbox-scripts/VMware-scripts/nb_vsphere_scripts/get_cluster.py:116-139 | a successful copy overwrites exactly the copied keys with the summary's values |
| VmCollect.CopyOrderKeys | netbox-scripts/VMware-scripts/nb_vsphere_scripts/get_cluster.py:115-139 | `vm2dict` reads every fixed field, and the indexed keys below their family's count |
| VmCollect.SummaryKeysCopied | netbox-scripts/VMware-scripts/nb_vsphere_scripts/get_cluster.py:112-139 | for a VM with a hard disk, the keys `vmsummary` writes are exactly the keys `vm2dict` reads |
| VmCollect.CopyAllKeys | netbox-scripts/VMware-scripts/nb_vsphere_scripts/get_cluster.py:116-139 | copying exactly the summary's keys yields `rec + summary` |
| VmCollect.CopiedSummary | netbox-scripts/VMware-scripts/nb_vsphere_scripts/get_cluster.py:112-139 | for a VM with a hard disk, the stored record is exactly `vmsummary`'s dictionary plus `folder` |
| VmCollect.DisklessVmRaises | netbox-scripts/VMware-scripts/nb_vsphere_scripts/get_cluster.py:126 | a VM without a hard disk has no `ThinProv`, so `vm2dict` raises |
| VmCollect.RaisedStaysRaised | netbox-scripts/VMware-scripts/nb_vsphere_scripts/get_cluster.py:116-139 | after a read raises, reading further keys changes nothing |
| VmCollect.CopyKeys | netbox-scripts/VMware-scripts/nb_vsphere_scripts/get_cluster.py:115-129 | the fixed copies, one at a time, equal `CopyAll` over those keys |
| VmCollect.CopyLoop | netbox-scripts/VMware-scripts/nb_vsphere_scripts/get_cluster.py:130-139 | a `range(count)` loop equals `CopyAll` over `LoopKeys(count)` |
| VmCollect.CopyVm | netbox-scripts/VMware-scripts/nb_vsphere_scripts/get_cluster.py:112-139 | `vm2dict`'s copying yields `Copied`, which is None when a read raises |
| VmCollect.Collection.StoreVm | netbox-scripts/VMware-scripts/nb_vsphere_scripts/get_cluster.py:112-139 | when no read raises, the VM's record becomes the copy and nothing else changes; when one raises, the tree is unchanged |
| VmRules.StatusIsLastPowered | netbox-scripts/VMware-scripts/nb_vsphere_scripts/nb_vm.py:87-92 | `status` is the mapping (`poweredOn`→`active`, `poweredOff`→`offline`) of the last recognised power state |
| VmRules.StatusUnchangedWithoutPowered | netbox-scripts/VMware-scripts/nb_vsphere_scripts/nb_vm.py:91-92 | without a recognised power state, `status` keeps the previous VM's value |
| VmRules.FlagRoundTrip | netbox-scripts/VMware-scripts/nb_vsphere_scripts/nb_vm.py:96-109 | `'True'` becomes 1 and `'False'` becomes 0, and `bool` of the result gives the original truth value |
| VmRules.FlagOtherText | netbox-scripts/VMware-scripts/nb_vsphere_scripts/nb_vm.py:100-109 | any other text is left as it was, and is truthy exactly when non-empty |
| VmRules.SlugIsWithout | netbox-scripts/VMware-scripts/nb_vsphere_scripts/nb_vm.py:130-139 | the eight `replace` calls together drop exactly the characters `` .'()"+/`` |
| VmRules.WithoutMembers | netbox-scripts/VMware-scripts/nb_vsphere_scripts/nb_vm.py:130-139 | a character survives the removal exactly when it is in the name and not among the removed ones |
| VmRules.SlugCharacters | netbox-scripts/VMware-scripts/nb_vsphere_scripts/nb_vm.py:130-139 | the slug contains none of the dropped characters, and every other character of the OS type |
| VmRules.SlugKeepsOrder | netbox-scripts/VMware-scripts/nb_vsphere_scripts/nb_vm.py:130-139 | the kept characters stay in their original order |
| VmRules.SlugIdempotent | netbox-scripts/VMware-scripts/nb_vsphere_scripts/nb_vm.py:130-139 | applying the slug rule again changes nothing |
| VmRules.SameOsIgnoresSpaces | netbox-scripts/VMware-scripts/nb_vsphere_scripts/nb_vm.py:117-119 | platform names are compared with all spaces removed |
| VmRules.BucketOf | netbox-scripts/VMware-scripts/nb_vsphere_scripts/nb_vm.py:189-202 | a path containing `SATA` is SATA; else `SAS` is SAS; else `SSD` is SSD; else Unknown |
| VmRules.InBucket | netbox-scripts/VMware-scripts/nb_vsphere_scripts/nb_vm.py:189-202 | the disks of one bucket, in order |
| VmRules.AddDiskBucket | netbox-scripts/VMware-scripts/nb_vsphere_scripts/nb_vm.py:189-202 | a disk's size goes into exactly one accumulator: its bucket's |
| VmRules.TallyBuckets | netbox-scripts/VMware-scripts/nb_vsphere_scripts/nb_vm.py:148-247 | each accumulator is the sum of the sizes of that bucket's disks (regular and RDM) |
| VmRules.TallyTotal | netbox-scripts/VMware-scripts/nb_vsphere_scripts/nb_vm.py:249 | `total_disk_gb` is the sum of all disk sizes |
| VmRules.TenantNames | netbox-scripts/VMware-scripts/nb_vsphere_scripts/nb_vm.py:268 | the update name `folder.rstrip(' ')[:30]` starts with the create name (line 292, stripped again after the cut), and the two differ exactly when the update name ends in a space |
| VmRules.NetboxNameShort | netbox-scripts/VMware-scripts/nb_vsphere_scripts/nb_vm.py:263 | `vm[:64] == vm` exactly when the name has at most 64 characters |
| VmInventory.DecodeHeader | netbox-scripts/VMware-scripts/nb_vsphere_scripts/nb_vm.py:69-83 | the header reads succeed exactly when every key is present and the folder is text; the OS type is kept as read, whatever its type |
| VmInventory.ReadDisks | netbox-scripts/VMware-scripts/nb_vsphere_scripts/nb_vm.py:170-175 | a family read that succeeds yields one disk per index |
| VmInventory.IpsNamed | netbox-scripts/VMware-scripts/nb_vsphere_scripts/nb_vm.py:331 | the filter returns exactly the IPs assigned to a VM of that name, in any cluster |
| VmInventory.IpsNamedAppend | netbox-scripts/VMware-scripts/nb_vsphere_scripts/nb_vm.py:331 | the filter keeps NetBox's order: filtering `a + b` gives the filtered `a` followed by the filtered `b` |
| VmInventory.Clean | netbox-scripts/VMware-scripts/nb_vsphere_scripts/nb_vm.py:333-342 | the IPs detached before the first update that raises |
| VmInventory.EnsureCluster | netbox-scripts/VMware-scripts/nb_vsphere_scripts/nb_vm.py:42-58 | the cluster step only ever adds this one cluster |
| VmInventory.EnsurePlatformResult | netbox-scripts/VMware-scripts/nb_vsphere_scripts/nb_vm.py:114-144 | no platform is removed or changed; afterwards a platform is found exactly when one was found before or the creation was accepted; a new platform is the OS type with its slug |
| VmInventory.SpacedPlatformIsMissed | netbox-scripts/VMware-scripts/nb_vsphere_scripts/nb_vm.py:117-128 | a platform equal up to spaces blocks creation, yet the exact-name `get` (line 252) finds nothing |
| VmInventory.VmStepFrame | netbox-scripts/VMware-scripts/nb_vsphere_scripts/nb_vm.py:258-312 | one VM changes only the NetBox VM `(cluster, vm[:64])`; IPs and clusters stay as they were |
| VmInventory.WriteVmFrame | netbox-scripts/VMware-scripts/nb_vsphere_scripts/nb_vm.py:250-312 | the update or create of one VM touches only the key `(cluster, vm[:64])` |
| VmInventory.MatchedNeverCreates | netbox-scripts/VMware-scripts/nb_vsphere_scripts/nb_vm.py:263-266 | a matched VM is never created, even when its update raised (`isvm_exist` is set first; line 288) |
| VmInventory.CreatedVm | netbox-scripts/VMware-scripts/nb_vsphere_scripts/nb_vm.py:288-305 | a new NetBox VM comes from an unmatched vSphere VM with a text OS type: named `vm[:64]`, tenant `folder[:30].rstrip(' ')`, platform the OS type |
| VmInventory.NonTextOsTypeCarriesOn | netbox-scripts/VMware-scripts/nb_vsphere_scripts/nb_vm.py:250-305 | an OS type that is not text (`null`) does not stop the run: the platform step (lines 128-144) creates nothing, no VM is created, and only the matched VM may be rewritten, with no platform |
| VmInventory.ScanCoversMatch | netbox-scripts/VMware-scripts/nb_vsphere_scripts/nb_vm.py:258-283 | the scan always passes over the matching listing entry |
| VmInventory.ObservedNames | netbox-scripts/VMware-scripts/nb_vsphere_scripts/nb_vm.py:254 | `set_vmware_vm` is exactly the set of full vSphere names of the cluster's VMs |
| VmInventory.MatchedNamesScanned | netbox-scripts/VMware-scripts/nb_vsphere_scripts/nb_vm.py:258-262 | every matched `vm[:64]` ends up in `set_ipam_vm` |
| VmInventory.TruncatedNameIsCandidate | netbox-scripts/VMware-scripts/nb_vsphere_scripts/nb_vm.py:322 | a matched truncated name that is no VM's full name becomes a deletion candidate |
| VmInventory.ObservedNeverDeleted | netbox-scripts/VMware-scripts/nb_vsphere_scripts/nb_vm.py:322 | a NetBox VM named like some vSphere VM's full name is never a candidate |
| VmInventory.DeletedOnlyCandidates | netbox-scripts/VMware-scripts/nb_vsphere_scripts/nb_vm.py:324-344 | a VM disappears only if it is a candidate of this cluster, its delete did not raise, and none of its IP updates raised |
| VmInventory.GoneCandidateFullyDetached | netbox-scripts/VMware-scripts/nb_vsphere_scripts/nb_vm.py:333-339 | when no IP update raised, every filtered IP is detached |
| VmInventory.NoIpLost | netbox-scripts/VMware-scripts/nb_vsphere_scripts/nb_vm.py:333-341 | detach before delete: every IP address survives the deletions, unchanged or with its assignment cleared |
| VmInventory.DetachReachesOtherClusters | netbox-scripts/VMware-scripts/nb_vsphere_scripts/nb_vm.py:331 | when a candidate goes, the IPs of same-named VMs in other clusters lose their assignment too |
| VmInventory.VmLoopOtherClusters | netbox-scripts/VMware-scripts/nb_vsphere_scripts/nb_vm.py:65-66 | the VM loop of one cluster leaves VMs of other clusters as they were |
| VmInventory.OtherClustersKept | netbox-scripts/VMware-scripts/nb_vsphere_scripts/nb_vm.py:60-62 | one cluster's pass leaves VMs of other clusters as they were |
| VmInventory.DeleteStep | netbox-scripts/VMware-scripts/nb_vsphere_scripts/nb_vm.py:324-344 | candidates are independent: processing one more candidate gives the state for the larger set, whatever order the set yields |
| VmInventory.RunOtherClusters | netbox-scripts/VMware-scripts/nb_vsphere_scripts/nb_vm.py:33-34 | a cluster no job names keeps all its VMs |
| VmInventory.VmLoopStaysCrashed | netbox-scripts/VMware-scripts/nb_vsphere_scripts/nb_vm.py:65-66 | after a VM raises, the remaining VMs change nothing |
| VmInventory.RunStaysCrashed | netbox-scripts/VMware-scripts/nb_vsphere_scripts/nb_vm.py:33-34 | after a cluster raises, the remaining clusters change nothing |
| VmInventory.ReadDisksNoneStays | netbox-scripts/VMware-scripts/nb_vsphere_scripts/nb_vm.py:170-175 | one unreadable disk makes the whole family unreadable |
| VmInventory.CollectedSizeReadsBack | netbox-scripts/VMware-scripts/nb_vsphere_scripts/nb_vm.py:196 | a size the collector wrote as `"%.2f" % (kb // 1024**2)` reads back as `kb // 1024**2` |
| VmSync.Virtualization.FindPlatform | netbox-scripts/VMware-scripts/nb_vsphere_scripts/nb_vm.py:114-126 | the platform loop finds a platform exactly when some name equals the OS type once spaces are removed |
| VmSync.Virtualization.EnsurePlatformStep | netbox-scripts/VMware-scripts/nb_vsphere_scripts/nb_vm.py:114-144 | the platform step leaves the platforms equal to `EnsurePlatform` on a text OS type, unchanged on any other, and changes nothing else |
| VmSync.Virtualization.MatchVm | netbox-scripts/VMware-scripts/nb_vsphere_scripts/nb_vm.py:250-312 | the listing scan and the create leave the VMs equal to `WriteVm`, after passing over `Visited` entries |
| VmSync.Virtualization.ReadDiskAt | netbox-scripts/VMware-scripts/nb_vsphere_scripts/nb_vm.py:172-175 | one disk's reads, or None when they raise |
| VmSync.Virtualization.Accumulate | netbox-scripts/VMware-scripts/nb_vsphere_scripts/nb_vm.py:189-202 | the `if/elif` adds the size to its bucket's accumulator and leaves the other three unchanged |
| VmSync.Virtualization.AddFamily | netbox-scripts/VMware-scripts/nb_vsphere_scripts/nb_vm.py:170-202 | a family loop adds the family's disks to the accumulators, or yields None when a read raises |
| VmSync.Virtualization.NextDisk | netbox-scripts/VMware-scripts/nb_vsphere_scripts/nb_vm.py:170-202 | one pass keeps "the disks read so far are tallied on top of the earlier ones", or shows that the whole family raises |
| VmSync.Virtualization.ReadTotals | netbox-scripts/VMware-scripts/nb_vsphere_scripts/nb_vm.py:148-249 | the two disk loops give the tally of all disks (regular, then RDM), or None when a read raises |
| VmSync.Virtualization.SyncVm | netbox-scripts/VMware-scripts/nb_vsphere_scripts/nb_vm.py:66-312 | one VM's pass ends in the `VmStep` state |
| VmSync.Virtualization.DropCandidate | netbox-scripts/VMware-scripts/nb_vsphere_scripts/nb_vm.py:326-344 | one candidate's body detaches its IPs up to the first failure, then deletes the VM (and what is still attached) when nothing raised |
| VmSync.Virtualization.DetachIps | netbox-scripts/VMware-scripts/nb_vsphere_scripts/nb_vm.py:331-339 | the IP loop detaches the candidate's IPs in order up to the first update that raises and changes nothing else |
| VmSync.Virtualization.SyncVms | netbox-scripts/VMware-scripts/nb_vsphere_scripts/nb_vm.py:65-312 | the VM loop ends in the `VmLoop` state, with the two name sets |
| VmSync.Virtualization.DeleteCandidates | netbox-scripts/VMware-scripts/nb_vsphere_scripts/nb_vm.py:322-344 | the deletion loop, in any order, ends in the `DeleteVms` state |
| VmSync.Virtualization.SyncCluster | netbox-scripts/VMware-scripts/nb_vsphere_scripts/nb_vm.py:38-344 | one cluster ends in the `ClusterPass` state |
| VmSync.Virtualization.SyncAll | netbox-scripts/VMware-scripts/nb_vsphere_scripts/nb_vm.py:33-344 | the whole run, with `status` carried across clusters, ends in the `Run` state |

## Left out

- Network clients are not modelled: pynetbox, netmiko (SSH/Telnet) and pyVim. NetBox is the
  in-memory state of `Ipam`, `Virtualization` and `Collection`. Switch output, vCenter
  objects and NetBox listings are inputs.
- The secret-store lookup and each per-platform function's connect/disconnect are left out.
  A device's parsed VLANs and its VLAN group are parameters of `SyncDevice`.
- The TextFSM parser (`parse_output`) is left out. Its records are the `ParsedVlan` input.
- `ProcessPoolExecutor` is left out. The model says which job each device gets, not how the
  jobs run concurrently.
- Floating point is left out. This covers `memorySizeMB / 1024`, the rounded `diskGBTotal`,
  and `str()` of a float. `int(float(s))` is modelled only on unsigned decimal text; signs,
  exponents and `inf` read as a conversion error.
- JSON file I/O is treated as the identity on the fields used. This covers `json.load`,
  `data2json`, stdout redirection, the timing prints and the traceback prints.
- The `r1`/`r2` dictionaries in `nb_vm.py` are left out. They are built but never sent
  anywhere.
- The vCenter walk in `get_cluster.py`'s `main` is left out. The dictionary is filled per
  data centre, cluster, host and VM; the collector output is instead taken as given.
- `nb_vm.py` walks the hosts of a cluster in JSON order. Each cluster's VMs are a flat `entries` sequence
  in that order, and each cluster's NetBox listing is given with its job.
- The assignment NetBox holds for an IP address is reduced to the VM it belongs to.
  `assigned_object_id=0` is modelled as clearing that assignment.
- Uniqueness of VM names is modelled per cluster only. NetBox's finer rule, which also involves the tenant, is not.
- `VmCollect.Collection.StoreVm` does not model a partly copied record when a read raises,
  because the collector run stops there and never writes its output.
- `VmSync.Virtualization.MatchVm` treats the two `update` calls on a matched VM as one write.
  The custom fields written when only the second call raises are not modelled.
- `VmInventory.DecodeHeader` and `VmCollect.CountOf` accept only an integer count. A
  boolean count (which `range` would accept) counts as a read that raises.
- The platform lookup `platforms.get(name=ostype)` (`nb_vm.py:252`) on an OS type that is not
  text is taken to find nothing. What the client library sends for a `null` name is not modelled.
- NetBox lookups outside any `try` are assumed not to raise. This covers `get`, `filter` and
  `all` in both import scripts; only the calls the scripts wrap in a `try` (creates, updates,
  deletes) are given faults.
- A `mem`, `cpu`, `state` or flag value is taken as the collector wrote it. Values that are
  neither text nor numbers are outside the model.
- `network-scripts/../Automatization scripts/create_vlan.py` is not part of this model.
