/**
  The vSphere collector (`get_cluster.py`): each VM's facts are flattened into one dictionary
  whose disk and adapter entries carry contiguous numeric suffixes (`vmsummary`, `getNICs`),
  and the dictionary is copied into the `data[dc][cluster][host][vm]` tree (`vm2dict`).
  The vSphere objects are plain records here; connecting and walking the inventory is not.
*/
module VmCollect {
  import opened Wrappers
  import opened Text

  // ---------------------------------------------------------------------------------------
  // The dictionary keys
  // ---------------------------------------------------------------------------------------

  /** The keys without a numeric suffix. */
  datatype Field =
    | Folder | Mem | DiskGbTotal | Cpu | Path | OsType | State | Annotation | Net | TotalNics
    | MemoryReservation | RdmIndexNum | StorageIndexNum | NetworkIndexNum | ThinProv | Snapshot

  /** The key families written as `'<prefix>{}'.format(n)`. */
  datatype Family = StorageInfo | StorageTotalDisk | RdmDiskInfo | RdmDiskTotal | NetworkAdapter

  datatype Key = Fixed(field: Field) | Indexed(family: Family, index: nat)

  function FieldName(f: Field): string
  {
    match f
    case Folder => "folder"
    case Mem => "mem"
    case DiskGbTotal => "diskGBTotal"
    case Cpu => "cpu"
    case Path => "path"
    case OsType => "ostype"
    case State => "state"
    case Annotation => "annotation"
    case Net => "net"
    case TotalNics => "TotalNics"
    case MemoryReservation => "MemoryReservation"
    case RdmIndexNum => "RDM_index_num"
    case StorageIndexNum => "Storage_index_num"
    case NetworkIndexNum => "network_index_num"
    case ThinProv => "ThinProv"
    case Snapshot => "Snapshot"
  }

  function FamilyPrefix(f: Family): string
  {
    match f
    case StorageInfo => "Storage_info_"
    case StorageTotalDisk => "Storage_TotalDisk_"
    case RdmDiskInfo => "RDM_DISK_info_"
    case RdmDiskTotal => "RDM_DISK_Total_"
    case NetworkAdapter => "network_adapter_"
  }

  /** The dictionary key as the script spells it. */
  function KeyName(k: Key): string
  {
    match k
    case Fixed(f) => FieldName(f)
    case Indexed(f, n) => FamilyPrefix(f) + NatToString(n)
  }

  // ---------------------------------------------------------------------------------------
  // The vSphere facts about one VM
  // ---------------------------------------------------------------------------------------

  /** One entry of `guest.ipConfig.ipAddress`. */
  datatype IpAddress = IpAddress(ipAddress: string, prefixLength: int)

  /**
    One entry of `guest.net`: `network` is "" when the adapter is not network-backed, and
    `ipAddresses` is None when `ipConfig` or its address list is null.
  */
  datatype GuestNic = GuestNic(network: string, macAddress: string, connected: bool, ipAddresses: Option<seq<IpAddress>>)

  /**
    One element of `config.hardware.device`, with the attributes the collector reads:
    `deviceInfo.label` (as `deviceLabel`), the disk backing's `thinProvisioned` (None when the attribute is
    missing or null), `diskMode` and `fileName`, `capacityInKB`, and `macAddress`.
  */
  datatype VirtualDevice = VirtualDevice(deviceLabel: string, thinProvisioned: Option<bool>, diskMode: string,
                                         fileName: string, capacityInKB: nat, macAddress: string)

  /**
    Everything the collector reads about one VM. `memText` is `str(memorySizeMB / 1024)` and
    `diskGbTotal` the rounded committed plus uncommitted gigabytes: both come out of float
    arithmetic, which is taken as given. `guestFullName` is None when vCenter reports no guest
    OS (a VM that is off and has no tools), which `json.dump` writes as `null`.
  */
  datatype VmFacts = VmFacts(
    memText: string, diskGbTotal: int, numCpu: nat, vmPathName: string, guestFullName: Option<string>,
    powerState: string, annotation: Option<string>, numEthernetCards: nat, memoryReservationLockedToMax: bool,
    guestNics: seq<GuestNic>, devices: seq<VirtualDevice>, hasSnapshot: bool)

  /** What `getNICs` stores per MAC address; `prefix` and `connected` only once an IPv4 address was seen. */
  datatype NicEntry = NicEntry(netlabel: string, ipv4: map<nat, string>, prefix: Option<int>, connected: Option<bool>)

  /** A value of the flattened dictionary. */
  datatype Value = Str(s: string) | Num(n: int) | Flag(b: bool) | Nics(nics: map<string, NicEntry>) | Null

  /** A text attribute that may be unset: `null` in the file when it is. */
  function TextOrNull(s: Option<string>): (r: Value)
    ensures r.Str? <==> s.Some?
    ensures r.Str? ==> r.s == s.value
  {
    if s.Some? then Str(s.value) else Null
  }

  // ---------------------------------------------------------------------------------------
  // getNICs
  // ---------------------------------------------------------------------------------------

  predicate IsIpv4(a: IpAddress)
  {
    ':' !in a.ipAddress
  }

  /**
    `ipv4[i] = address` for each IPv4 address in turn. The counter `i` is set to 0 before the
    address loop and incremented only after it, so every IPv4 address is written under key 0,
    over the one before.
  */
  function Ipv4Entries(addrs: seq<IpAddress>): map<nat, string>
  {
    if addrs == [] then map[]
    else
      var last := addrs[|addrs| - 1];
      if IsIpv4(last) then Ipv4Entries(addrs[..|addrs| - 1])[0 := last.ipAddress] else Ipv4Entries(addrs[..|addrs| - 1])
  }

  /** The last IPv4 address of the list, whose prefix length ends up in the entry. */
  function LastIpv4(addrs: seq<IpAddress>): Option<IpAddress>
  {
    if addrs == [] then None
    else
      var last := addrs[|addrs| - 1];
      if IsIpv4(last) then Some(last) else LastIpv4(addrs[..|addrs| - 1])
  }

  /** `ipv4` ends up holding only the last IPv4 address, under key 0, and is empty when there is none. */
  lemma {:induction false} Ipv4EntriesLastOnly(addrs: seq<IpAddress>)
    ensures Ipv4Entries(addrs) == if LastIpv4(addrs).Some? then map[0 := LastIpv4(addrs).value.ipAddress] else map[]
  {
    if addrs != [] {
      var init := addrs[..|addrs| - 1];
      Ipv4EntriesLastOnly(init);
      if !IsIpv4(addrs[|addrs| - 1]) && LastIpv4(init).Some? {
        assert Ipv4Entries(addrs) == Ipv4Entries(init);
      }
    }
  }

  /** The address `LastIpv4` picks is an IPv4 one with no IPv4 address after it; None means there is none. */
  lemma {:induction false} LastIpv4IsLast(addrs: seq<IpAddress>)
    ensures LastIpv4(addrs).None? <==> forall i :: 0 <= i < |addrs| ==> !IsIpv4(addrs[i])
    ensures LastIpv4(addrs).Some? ==>
              exists i :: 0 <= i < |addrs| && addrs[i] == LastIpv4(addrs).value && IsIpv4(addrs[i])
                          && forall j :: i < j < |addrs| ==> !IsIpv4(addrs[j])
  {
    if addrs != [] {
      var init := addrs[..|addrs| - 1];
      var last := |addrs| - 1;
      if !IsIpv4(addrs[last]) {
        LastIpv4IsLast(init);
        assert forall i :: 0 <= i < |init| ==> init[i] == addrs[i];
        if LastIpv4(init).Some? {
          var i :| 0 <= i < |init| && init[i] == LastIpv4(init).value && IsIpv4(init[i])
                   && forall j :: i < j < |init| ==> !IsIpv4(init[j]);
          assert addrs[i] == LastIpv4(addrs).value;
        }
      } else {
        assert addrs[last] == LastIpv4(addrs).value;
      }
    }
  }

  /** A NIC kept by `getNICs`: network-backed and with an address list. */
  predicate KeptNic(n: GuestNic)
  {
    n.network != "" && n.ipAddresses.Some?
  }

  function EntryOf(n: GuestNic): NicEntry
    requires KeptNic(n)
  {
    var addrs := n.ipAddresses.value;
    var last := LastIpv4(addrs);
    NicEntry(n.network, Ipv4Entries(addrs),
             if last.Some? then Some(last.value.prefixLength) else None,
             if last.Some? then Some(n.connected) else None)
  }

  /** The dictionary `getNICs` returns: keyed by MAC, a later NIC with the same MAC replacing an earlier one. */
  function NicTable(nics: seq<GuestNic>): map<string, NicEntry>
  {
    if nics == [] then map[]
    else
      var last := nics[|nics| - 1];
      if KeptNic(last) then NicTable(nics[..|nics| - 1])[last.macAddress := EntryOf(last)]
      else NicTable(nics[..|nics| - 1])
  }

  /** The table's MACs are exactly those of the kept NICs. */
  lemma {:induction false} NicTableMacs(nics: seq<GuestNic>)
    ensures forall mac :: mac in NicTable(nics) <==> exists n :: n in nics && KeptNic(n) && n.macAddress == mac
  {
    if nics != [] {
      var init := nics[..|nics| - 1];
      NicTableMacs(init);
      assert nics == init + [nics[|nics| - 1]];
    }
  }

  /** The entry for a MAC is built from the last kept NIC carrying it. */
  lemma {:induction false} NicTableLastWins(nics: seq<GuestNic>, i: nat)
    requires i < |nics| && KeptNic(nics[i])
    requires forall j :: i < j < |nics| ==> !(KeptNic(nics[j]) && nics[j].macAddress == nics[i].macAddress)
    ensures nics[i].macAddress in NicTable(nics) && NicTable(nics)[nics[i].macAddress] == EntryOf(nics[i])
  {
    var init := nics[..|nics| - 1];
    if i < |nics| - 1 {
      assert init[i] == nics[i];
      NicTableLastWins(init, i);
    }
  }

  /** Two IPv4 addresses: the second overwrites the first under key 0. */
  lemma Ipv4KeepsOnlyLast()
    ensures Ipv4Entries([IpAddress("10.0.0.1", 24), IpAddress("10.0.0.2", 24)]) == map[0 := "10.0.0.2"]
  {
    var addrs := [IpAddress("10.0.0.1", 24), IpAddress("10.0.0.2", 24)];
    AddressStep(addrs, 0);
    AddressStep(addrs, 1);
    assert addrs[..0] == [] && addrs[..2] == addrs;
  }

  /** An IPv6 address before an IPv4 one changes nothing: the IPv4 address is still stored under key 0. */
  lemma Ipv4KeyIgnoresIpv6()
    ensures Ipv4Entries([IpAddress("fe80::1", 64), IpAddress("10.0.0.5", 24)]) == map[0 := "10.0.0.5"]
  {
    var addrs := [IpAddress("fe80::1", 64), IpAddress("10.0.0.5", 24)];
    assert !IsIpv4(addrs[0]) by { assert addrs[0].ipAddress[4] == ':'; }
    AddressStep(addrs, 0);
    AddressStep(addrs, 1);
    assert addrs[..0] == [] && addrs[..2] == addrs;
  }

  /** One more NIC: the table gains (or overwrites) its MAC's entry exactly when the NIC is kept. */
  lemma NicTableStep(nics: seq<GuestNic>, n: nat)
    requires n < |nics|
    ensures NicTable(nics[..n + 1]) ==
              if KeptNic(nics[n]) then NicTable(nics[..n])[nics[n].macAddress := EntryOf(nics[n])] else NicTable(nics[..n])
  {
    assert nics[..n + 1][..n] == nics[..n];
  }

  /** One more address: an IPv4 one overwrites key 0 and becomes the last IPv4 address. */
  lemma AddressStep(addrs: seq<IpAddress>, i: nat)
    requires i < |addrs|
    ensures Ipv4Entries(addrs[..i + 1]) ==
              if IsIpv4(addrs[i]) then Ipv4Entries(addrs[..i])[0 := addrs[i].ipAddress] else Ipv4Entries(addrs[..i])
    ensures LastIpv4(addrs[..i + 1]) == if IsIpv4(addrs[i]) then Some(addrs[i]) else LastIpv4(addrs[..i])
  {
    assert addrs[..i + 1][..i] == addrs[..i];
  }

  /** `getNICs(summary, guest)`. */
  method GetNics(guest: seq<GuestNic>) returns (nics: map<string, NicEntry>)
    ensures nics == NicTable(guest)
  {
    nics := map[];
    var n := 0;
    while n < |guest|
      invariant 0 <= n <= |guest|
      invariant nics == NicTable(guest[..n])
    {
      var nic := guest[n];
      NicTableStep(guest, n);
      if nic.network != "" && nic.ipAddresses.Some? {
        var entry := ReadNic(nic);
        nics := nics[nic.macAddress := entry];
      }
      n := n + 1;
    }
    assert guest[..n] == guest;
  }

  /**
    The inner loop of `getNICs` over one NIC's addresses. Every IPv4 address writes `ipv4[i]`,
    `prefix` and `connected`; `i` stays 0 during the loop (`getNICs` increments it once, after
    the loop), so the last IPv4 address wins all three.
  */
  method ReadNic(nic: GuestNic) returns (entry: NicEntry)
    requires KeptNic(nic)
    ensures entry == EntryOf(nic)
  {
    var addrs := nic.ipAddresses.value;
    var ipv4: map<nat, string> := map[];
    var prefix: Option<int> := None;
    var connected: Option<bool> := None;
    var i := 0;
    var n := 0;
    while n < |addrs|
      invariant 0 <= n <= |addrs|
      invariant ipv4 == Ipv4Entries(addrs[..n])
      invariant prefix == (var l := LastIpv4(addrs[..n]); if l.Some? then Some(l.value.prefixLength) else None)
      invariant connected == (if LastIpv4(addrs[..n]).Some? then Some(nic.connected) else None)
    {
      AddressStep(addrs, n);
      if ':' !in addrs[n].ipAddress {
        ipv4 := ipv4[i := addrs[n].ipAddress];
        prefix := Some(addrs[n].prefixLength);
        connected := Some(nic.connected);
      }
      n := n + 1;
    }
    i := i + 1;
    assert addrs[..n] == addrs;
    entry := NicEntry(nic.network, ipv4, prefix, connected);
  }

  // ---------------------------------------------------------------------------------------
  // vmsummary
  // ---------------------------------------------------------------------------------------

  /** `'Hard disk' in label`. */
  predicate IsHardDisk(d: VirtualDevice)
  {
    Contains(d.deviceLabel, "Hard disk")
  }

  /** An RDM disk: `'independent_persistent' in diskMode`. */
  predicate IsRdm(d: VirtualDevice)
  {
    Contains(d.diskMode, "independent_persistent")
  }

  /** The three kinds of device the loop numbers, each with its own counter. */
  datatype Kind = RdmDisk | StorageDisk | Adapter

  /**
    RDM disks and other hard disks are split by disk mode; a network adapter is only counted
    when its label does not also say `Hard disk` (the `elif`).
  */
  predicate OfKind(d: VirtualDevice, kind: Kind)
  {
    match kind
    case RdmDisk => IsHardDisk(d) && IsRdm(d)
    case StorageDisk => IsHardDisk(d) && !IsRdm(d)
    case Adapter => !IsHardDisk(d) && Contains(d.deviceLabel, "Network adapter")
  }

  /** The devices of one kind, in device-list order. */
  function Devices(devices: seq<VirtualDevice>, kind: Kind): (r: seq<VirtualDevice>)
    ensures |r| <= |devices|
    ensures forall d :: d in r <==> d in devices && OfKind(d, kind)
  {
    if devices == [] then []
    else
      var init, last := devices[..|devices| - 1], devices[|devices| - 1];
      assert devices == init + [last];
      Devices(init, kind) + (if OfKind(last, kind) then [last] else [])
  }

  /** The last hard disk of the list, the one whose backing decides `ThinProv`. */
  function LastHardDisk(devices: seq<VirtualDevice>): (r: Option<VirtualDevice>)
    ensures r.None? <==> forall d :: d in devices ==> !IsHardDisk(d)
    ensures r.Some? ==> exists i :: 0 <= i < |devices| && devices[i] == r.value && IsHardDisk(r.value)
                          && forall j :: i < j < |devices| ==> !IsHardDisk(devices[j])
  {
    if devices == [] then None
    else
      var init, last := devices[..|devices| - 1], devices[|devices| - 1];
      assert devices == init + [last];
      if IsHardDisk(last) then Some(last)
      else
        assert forall i :: 0 <= i < |init| ==> init[i] == devices[i];
        LastHardDisk(init)
  }

  /** Which counter numbers a key family. */
  function KindOf(fam: Family): Kind
  {
    match fam
    case StorageInfo => StorageDisk
    case StorageTotalDisk => StorageDisk
    case RdmDiskInfo => RdmDisk
    case RdmDiskTotal => RdmDisk
    case NetworkAdapter => Adapter
  }

  /** `"%.2f" % (capacityInKB // 1024**2)`: whole gigabytes, floored, with two zero decimals. */
  function SizeText(capacityInKB: nat): string
  {
    NatToString(capacityInKB / 1048576) + ".00"
  }

  /** The value a device contributes under a family: its datastore file, its size, or its MAC. */
  function ItemValue(fam: Family, d: VirtualDevice): Value
  {
    match fam
    case StorageInfo => Str(d.fileName)
    case RdmDiskInfo => Str(d.fileName)
    case StorageTotalDisk => Str(SizeText(d.capacityInKB))
    case RdmDiskTotal => Str(SizeText(d.capacityInKB))
    case NetworkAdapter => Str(d.macAddress)
  }

  /** The values expected under `fam`, in index order. */
  function FamilyItems(devices: seq<VirtualDevice>, fam: Family): (r: seq<Value>)
    ensures |r| == |Devices(devices, KindOf(fam))|
    ensures forall n :: 0 <= n < |r| ==> r[n] == ItemValue(fam, Devices(devices, KindOf(fam))[n])
  {
    var ds := Devices(devices, KindOf(fam));
    seq(|ds|, n requires 0 <= n < |ds| => ItemValue(fam, ds[n]))
  }

  /** Under `fam`, `m` holds exactly the keys `0 .. |items| - 1`, the n-th holding `items[n]`. */
  ghost predicate IndexedFamily(m: map<Key, Value>, fam: Family, items: seq<Value>)
  {
    && (forall n: nat :: Indexed(fam, n) in m <==> n < |items|)
    && (forall n :: 0 <= n < |items| ==> m[Indexed(fam, n)] == items[n])
  }

  predicate HasFixed(m: map<Key, Value>, f: Field, v: Value)
  {
    Fixed(f) in m && m[Fixed(f)] == v
  }

  function BoolText(b: bool): string
  {
    if b then "True" else "False"
  }

  /** `'True'` exactly when `thinProvisioned == True`; a missing attribute reads as `'False'`. */
  function ThinProvText(d: VirtualDevice): (r: string)
    ensures r == "True" <==> d.thinProvisioned == Some(true)
    ensures r != "True" ==> r == "False"
  {
    BoolText(d.thinProvisioned == Some(true))
  }

  /** The entries one device adds, given how many RDM disks (`j`), other disks (`i`) and adapters (`k`) came before it. */
  function DeviceEntry(d: VirtualDevice, j: nat, i: nat, k: nat): map<Key, Value>
  {
    if IsHardDisk(d) then
      if IsRdm(d) then
        map[Fixed(ThinProv) := Str(ThinProvText(d)),
            Indexed(RdmDiskInfo, j) := Str(d.fileName), Indexed(RdmDiskTotal, j) := Str(SizeText(d.capacityInKB))]
      else
        map[Fixed(ThinProv) := Str(ThinProvText(d)),
            Indexed(StorageInfo, i) := Str(d.fileName), Indexed(StorageTotalDisk, i) := Str(SizeText(d.capacityInKB))]
    else if Contains(d.deviceLabel, "Network adapter") then map[Indexed(NetworkAdapter, k) := Str(d.macAddress)]
    else map[]
  }

  /** What the device loop has written after `devices`. */
  function DeviceEntries(devices: seq<VirtualDevice>): map<Key, Value>
  {
    if devices == [] then map[]
    else
      var init := devices[..|devices| - 1];
      var d := devices[|devices| - 1];
      DeviceEntries(init) + DeviceEntry(d, |Devices(init, RdmDisk)|, |Devices(init, StorageDisk)|, |Devices(init, Adapter)|)
  }

  /** The device loop writes only indexed keys and `ThinProv`. */
  lemma {:induction false} DeviceEntriesKeys(devices: seq<VirtualDevice>)
    ensures forall k :: k in DeviceEntries(devices) ==> k.Indexed? || k == Fixed(ThinProv)
  {
    if devices != [] {
      var init := devices[..|devices| - 1];
      DeviceEntriesKeys(init);
      DeviceEntryKeys(devices[|devices| - 1], |Devices(init, RdmDisk)|, |Devices(init, StorageDisk)|, |Devices(init, Adapter)|);
    }
  }

  lemma DeviceEntryKeys(d: VirtualDevice, j: nat, i: nat, k: nat)
    ensures forall key :: key in DeviceEntry(d, j, i, k) ==> key.Indexed? || key == Fixed(ThinProv)
  {
  }

  /** `ThinProv` is written exactly when there is a hard disk, and the last hard disk decides it. */
  lemma {:induction false} DeviceEntriesThinProv(devices: seq<VirtualDevice>)
    ensures Fixed(ThinProv) in DeviceEntries(devices) <==> LastHardDisk(devices).Some?
    ensures LastHardDisk(devices).Some? ==>
              DeviceEntries(devices)[Fixed(ThinProv)] == Str(ThinProvText(LastHardDisk(devices).value))
  {
    if devices != [] {
      var init := devices[..|devices| - 1];
      var d := devices[|devices| - 1];
      DeviceEntriesThinProv(init);
      DeviceEntryThinProv(d, |Devices(init, RdmDisk)|, |Devices(init, StorageDisk)|, |Devices(init, Adapter)|);
      assert LastHardDisk(devices) == if IsHardDisk(d) then Some(d) else LastHardDisk(init);
    }
  }

  /** One device writes `ThinProv` exactly when it is a hard disk, whatever the counters. */
  lemma DeviceEntryThinProv(d: VirtualDevice, j: nat, i: nat, k: nat)
    ensures Fixed(ThinProv) in DeviceEntry(d, j, i, k) <==> IsHardDisk(d)
    ensures IsHardDisk(d) ==> DeviceEntry(d, j, i, k)[Fixed(ThinProv)] == Str(ThinProvText(d))
  {
  }

  /** Each family's indices are contiguous from 0, the n-th entry describing the n-th device of its kind. */
  lemma {:induction false} DeviceEntriesIndexed(devices: seq<VirtualDevice>, fam: Family)
    ensures IndexedFamily(DeviceEntries(devices), fam, FamilyItems(devices, fam))
  {
    if devices != [] {
      var init := devices[..|devices| - 1];
      var d := devices[|devices| - 1];
      DeviceEntriesIndexed(init, fam);
      var items := FamilyItems(init, fam);
      var e := DeviceEntry(d, |Devices(init, RdmDisk)|, |Devices(init, StorageDisk)|, |Devices(init, Adapter)|);
      DeviceEntryFamily(d, |Devices(init, RdmDisk)|, |Devices(init, StorageDisk)|, |Devices(init, Adapter)|, fam);
      FamilyItemsStep(devices, fam);
      IndexedFamilyExtend(DeviceEntries(init), e, fam, items, FamilyItems(devices, fam));
    }
  }

  /** The counter of a kind among the loop's three: `j` (RDM disks), `i` (other disks), `k` (adapters). */
  function Counter(kind: Kind, j: nat, i: nat, k: nat): nat
  {
    match kind
    case RdmDisk => j
    case StorageDisk => i
    case Adapter => k
  }

  /** One device writes under `fam` only when it is of the family's kind, at that kind's counter. */
  lemma DeviceEntryFamily(d: VirtualDevice, j: nat, i: nat, k: nat, fam: Family)
    ensures var e, n0 := DeviceEntry(d, j, i, k), Counter(KindOf(fam), j, i, k);
      && (forall n: nat :: Indexed(fam, n) in e <==> OfKind(d, KindOf(fam)) && n == n0)
      && (OfKind(d, KindOf(fam)) ==> e[Indexed(fam, n0)] == ItemValue(fam, d))
  {
  }

  /** One more device adds its value to `fam`'s items exactly when it is of the family's kind. */
  lemma FamilyItemsStep(devices: seq<VirtualDevice>, fam: Family)
    requires devices != []
    ensures var d := devices[|devices| - 1];
      FamilyItems(devices, fam) ==
        FamilyItems(devices[..|devices| - 1], fam) + (if OfKind(d, KindOf(fam)) then [ItemValue(fam, d)] else [])
  {
    var init, d := devices[..|devices| - 1], devices[|devices| - 1];
    assert Devices(devices, KindOf(fam)) == Devices(init, KindOf(fam)) + (if OfKind(d, KindOf(fam)) then [d] else []);
  }

  /** Adding the entries for the indices `|items| .. |next| - 1` to an indexed family extends it to `next`. */
  lemma IndexedFamilyExtend(m: map<Key, Value>, e: map<Key, Value>, fam: Family, items: seq<Value>, next: seq<Value>)
    requires IndexedFamily(m, fam, items) && items <= next
    requires forall n: nat :: Indexed(fam, n) in e <==> |items| <= n < |next|
    requires forall n :: |items| <= n < |next| ==> e[Indexed(fam, n)] == next[n]
    ensures IndexedFamily(m + e, fam, next)
  {
  }

  /** The value `vmsummary` writes for a header field, before the device loop; None for the other fields. */
  function HeaderValue(vm: VmFacts, f: Field): Option<Value>
  {
    match f
    case Mem => Some(Str(vm.memText))
    case DiskGbTotal => Some(Num(vm.diskGbTotal))
    case Cpu => Some(Str(NatToString(vm.numCpu)))
    case Path => Some(Str(vm.vmPathName))
    case OsType => Some(TextOrNull(vm.guestFullName))
    case State => Some(Str(vm.powerState))
    case Annotation => Some(Str(if vm.annotation.Some? then vm.annotation.value else ""))
    case Net => Some(Nics(NicTable(vm.guestNics)))
    case TotalNics => Some(Num(vm.numEthernetCards))
    case MemoryReservation => Some(Flag(vm.memoryReservationLockedToMax))
    case _ => None
  }

  /** The header entries as a dictionary, in the order the script writes them. */
  function HeaderEntries(vm: VmFacts): map<Key, Value>
  {
    map[Fixed(Mem) := Str(vm.memText),
        Fixed(DiskGbTotal) := Num(vm.diskGbTotal),
        Fixed(Cpu) := Str(NatToString(vm.numCpu)),
        Fixed(Path) := Str(vm.vmPathName),
        Fixed(OsType) := TextOrNull(vm.guestFullName),
        Fixed(State) := Str(vm.powerState),
        Fixed(Annotation) := Str(if vm.annotation.Some? then vm.annotation.value else ""),
        Fixed(Net) := Nics(NicTable(vm.guestNics)),
        Fixed(TotalNics) := Num(vm.numEthernetCards),
        Fixed(MemoryReservation) := Flag(vm.memoryReservationLockedToMax)]
  }

  lemma HeaderEntriesLookup(vm: VmFacts, k: Key)
    ensures k in HeaderEntries(vm) <==> k.Fixed? && HeaderValue(vm, k.field).Some?
    ensures k in HeaderEntries(vm) ==> HeaderEntries(vm)[k] == HeaderValue(vm, k.field).value
  {
    match k
    case Indexed(_, _) =>
    case Fixed(f) =>
      match f
      case Mem =>
      case DiskGbTotal =>
      case Cpu =>
      case Path =>
      case OsType =>
      case State =>
      case Annotation =>
      case Net =>
      case TotalNics =>
      case MemoryReservation =>
      case _ =>
  }

  /** Which fields `vmsummary` writes: all but `folder`, and `ThinProv` only when the VM has a hard disk. */
  predicate SummaryField(f: Field, hasHardDisk: bool)
  {
    f != Folder && (f == ThinProv ==> hasHardDisk)
  }

  /** `vmsummary` writes every field but `folder`, and `ThinProv` only when the VM has a hard disk. */
  ghost predicate SummaryKeys(m: map<Key, Value>, hasHardDisk: bool)
  {
    forall f: Field :: Fixed(f) in m <==> SummaryField(f, hasHardDisk)
  }

  ghost predicate SummaryHeader(m: map<Key, Value>, vm: VmFacts)
  {
    forall f: Field :: HeaderValue(vm, f).Some? ==> HasFixed(m, f, HeaderValue(vm, f).value)
  }

  /** The three counts, `Snapshot`, and `ThinProv` from the last hard disk. */
  ghost predicate SummaryCounts(m: map<Key, Value>, vm: VmFacts)
  {
    var hw := vm.devices;
    && HasFixed(m, RdmIndexNum, Num(|Devices(hw, RdmDisk)|))
    && HasFixed(m, StorageIndexNum, Num(|Devices(hw, StorageDisk)|))
    && HasFixed(m, NetworkIndexNum, Num(|Devices(hw, Adapter)|))
    && HasFixed(m, Snapshot, Str(BoolText(vm.hasSnapshot)))
    && (LastHardDisk(hw).Some? ==> HasFixed(m, ThinProv, Str(ThinProvText(LastHardDisk(hw).value))))
  }

  ghost predicate SummaryFamilies(m: map<Key, Value>, devices: seq<VirtualDevice>)
  {
    forall fam: Family :: IndexedFamily(m, fam, FamilyItems(devices, fam))
  }

  /**
    The dictionary `vmsummary` returns for `vm`, described key by key: the header fields, the
    three counts, `Snapshot`, `ThinProv` exactly when there is a hard disk, and in each family
    the indices below its count.
  */
  ghost predicate IsSummaryOf(m: map<Key, Value>, vm: VmFacts)
  {
    && SummaryKeys(m, LastHardDisk(vm.devices).Some?)
    && SummaryHeader(m, vm)
    && SummaryCounts(m, vm)
    && SummaryFamilies(m, vm.devices)
  }

  /** The description above leaves no freedom: it fixes every key and every value. */
  lemma SummaryDetermined(m1: map<Key, Value>, m2: map<Key, Value>, vm: VmFacts)
    requires IsSummaryOf(m1, vm) && IsSummaryOf(m2, vm)
    ensures m1 == m2
  {
    forall k
      ensures (k in m1 <==> k in m2) && (k in m1 ==> m1[k] == m2[k])
    {
      match k
      case Fixed(f) =>
        FixedDetermined(m1, m2, vm, f);
      case Indexed(fam, n) =>
        var items := FamilyItems(vm.devices, fam);
        assert IndexedFamily(m1, fam, items) && IndexedFamily(m2, fam, items);
    }
  }

  /** Both maps agree on a fixed field: present in both or neither, with the same value. */
  lemma FixedDetermined(m1: map<Key, Value>, m2: map<Key, Value>, vm: VmFacts, f: Field)
    requires IsSummaryOf(m1, vm) && IsSummaryOf(m2, vm)
    ensures (Fixed(f) in m1 <==> Fixed(f) in m2) && (Fixed(f) in m1 ==> m1[Fixed(f)] == m2[Fixed(f)])
  {
    var hd := LastHardDisk(vm.devices).Some?;
    assert SummaryKeys(m1, hd) && SummaryKeys(m2, hd);
    assert Fixed(f) in m1 <==> SummaryField(f, hd);
    assert Fixed(f) in m2 <==> SummaryField(f, hd);
    if HeaderValue(vm, f).Some? {
      assert SummaryHeader(m1, vm) && SummaryHeader(m2, vm);
    } else {
      assert SummaryCounts(m1, vm) && SummaryCounts(m2, vm);
    }
  }

  /** `vmsummary(...)`: the header, then one pass over the device list with the counters `j`, `i`, `k`. */
  method VmSummary(vm: VmFacts) returns (vmsum: map<Key, Value>)
    ensures IsSummaryOf(vmsum, vm)
  {
    var header := SummaryHeaderEntries(vm);
    var j, i, k;
    vmsum, j, i, k := DeviceLoop(header, vm.devices);
    vmsum := vmsum[Fixed(RdmIndexNum) := Num(j)][Fixed(StorageIndexNum) := Num(i)][Fixed(NetworkIndexNum) := Num(k)];
    vmsum := vmsum[Fixed(Snapshot) := Str(if vm.hasSnapshot then "True" else "False")];
    SummaryShape(vm, vmsum);
  }

  /** The dictionary literal that opens `vmsummary`, with the NIC table from `getNICs`. */
  method SummaryHeaderEntries(vm: VmFacts) returns (header: map<Key, Value>)
    ensures header == HeaderEntries(vm)
  {
    var net := GetNics(vm.guestNics);
    header := map[Fixed(Mem) := Str(vm.memText),
                  Fixed(DiskGbTotal) := Num(vm.diskGbTotal),
                  Fixed(Cpu) := Str(NatToString(vm.numCpu)),
                  Fixed(Path) := Str(vm.vmPathName),
                  Fixed(OsType) := TextOrNull(vm.guestFullName),
                  Fixed(State) := Str(vm.powerState),
                  Fixed(Annotation) := Str(if vm.annotation.Some? then vm.annotation.value else ""),
                  Fixed(Net) := Nics(net),
                  Fixed(TotalNics) := Num(vm.numEthernetCards),
                  Fixed(MemoryReservation) := Flag(vm.memoryReservationLockedToMax)];
  }

  /** The device loop of `vmsummary`, starting from the header and counters at 0. */
  method DeviceLoop(header: map<Key, Value>, hw: seq<VirtualDevice>) returns (vmsum: map<Key, Value>, j: nat, i: nat, k: nat)
    ensures vmsum == header + DeviceEntries(hw)
    ensures j == |Devices(hw, RdmDisk)| && i == |Devices(hw, StorageDisk)| && k == |Devices(hw, Adapter)|
  {
    vmsum := header;
    j, i, k := 0, 0, 0;
    var n := 0;
    assert hw[..0] == [];
    assert header + DeviceEntries(hw[..0]) == header;
    while n < |hw|
      invariant 0 <= n <= |hw|
      invariant vmsum == header + DeviceEntries(hw[..n])
      invariant j == |Devices(hw[..n], RdmDisk)| && i == |Devices(hw[..n], StorageDisk)| && k == |Devices(hw[..n], Adapter)|
    {
      DeviceStep(hw, n);
      UnionAssociative(header, DeviceEntries(hw[..n]), DeviceEntry(hw[n], j, i, k));
      vmsum, j, i, k := RecordDevice(vmsum, hw[n], j, i, k);
      n := n + 1;
    }
    assert hw[..n] == hw;
  }

  /** The loop body for one device: a hard disk sets `ThinProv` and gets RDM or storage keys, an adapter its MAC. */
  method RecordDevice(vmsum: map<Key, Value>, d: VirtualDevice, j: nat, i: nat, k: nat)
    returns (vmsum': map<Key, Value>, j': nat, i': nat, k': nat)
    ensures vmsum' == vmsum + DeviceEntry(d, j, i, k)
    ensures j' == j + (if OfKind(d, RdmDisk) then 1 else 0)
    ensures i' == i + (if OfKind(d, StorageDisk) then 1 else 0)
    ensures k' == k + (if OfKind(d, Adapter) then 1 else 0)
  {
    vmsum', j', i', k' := vmsum, j, i, k;
    if Contains(d.deviceLabel, "Hard disk") {
      vmsum' := vmsum'[Fixed(ThinProv) := Str(if d.thinProvisioned == Some(true) then "True" else "False")];
      if Contains(d.diskMode, "independent_persistent") {
        vmsum' := vmsum'[Indexed(RdmDiskInfo, j) := Str(d.fileName)];
        vmsum' := vmsum'[Indexed(RdmDiskTotal, j) := Str(SizeText(d.capacityInKB))];
        j' := j + 1;
      } else {
        vmsum' := vmsum'[Indexed(StorageInfo, i) := Str(d.fileName)];
        vmsum' := vmsum'[Indexed(StorageTotalDisk, i) := Str(SizeText(d.capacityInKB))];
        i' := i + 1;
      }
    } else if Contains(d.deviceLabel, "Network adapter") {
      vmsum' := vmsum'[Indexed(NetworkAdapter, k) := Str(d.macAddress)];
      k' := k + 1;
    }
  }

  lemma UnionAssociative<K, V>(a: map<K, V>, b: map<K, V>, c: map<K, V>)
    ensures (a + b) + c == a + (b + c)
  {
  }

  /** One more device processed: how the entries and the three counters grow. */
  lemma DeviceStep(hw: seq<VirtualDevice>, n: nat)
    requires n < |hw|
    ensures DeviceEntries(hw[..n + 1]) == DeviceEntries(hw[..n])
              + DeviceEntry(hw[n], |Devices(hw[..n], RdmDisk)|, |Devices(hw[..n], StorageDisk)|, |Devices(hw[..n], Adapter)|)
    ensures |Devices(hw[..n + 1], RdmDisk)| == |Devices(hw[..n], RdmDisk)| + (if OfKind(hw[n], RdmDisk) then 1 else 0)
    ensures |Devices(hw[..n + 1], StorageDisk)| == |Devices(hw[..n], StorageDisk)| + (if OfKind(hw[n], StorageDisk) then 1 else 0)
    ensures |Devices(hw[..n + 1], Adapter)| == |Devices(hw[..n], Adapter)| + (if OfKind(hw[n], Adapter) then 1 else 0)
  {
    assert hw[..n + 1][..n] == hw[..n] && hw[..n + 1][n] == hw[n];
  }

  /** The map the method builds: header, device entries, then the counts and `Snapshot`. */
  function Assembled(vm: VmFacts): map<Key, Value>
  {
    (HeaderEntries(vm) + DeviceEntries(vm.devices))
      [Fixed(RdmIndexNum) := Num(|Devices(vm.devices, RdmDisk)|)]
      [Fixed(StorageIndexNum) := Num(|Devices(vm.devices, StorageDisk)|)]
      [Fixed(NetworkIndexNum) := Num(|Devices(vm.devices, Adapter)|)]
      [Fixed(Snapshot) := Str(BoolText(vm.hasSnapshot))]
  }

  lemma SummaryShape(vm: VmFacts, vmsum: map<Key, Value>)
    requires vmsum == Assembled(vm)
    ensures IsSummaryOf(vmsum, vm)
  {
    ShapeKeys(vm);
    ShapeHeader(vm);
    ShapeCounts(vm);
    ShapeFamilies(vm);
  }

  lemma ShapeCounts(vm: VmFacts)
    ensures SummaryCounts(Assembled(vm), vm)
  {
    DeviceEntriesThinProv(vm.devices);
    HeaderEntriesLookup(vm, Fixed(ThinProv));
  }

  lemma ShapeFamilies(vm: VmFacts)
    ensures SummaryFamilies(Assembled(vm), vm.devices)
  {
    var m := Assembled(vm);
    forall fam: Family
      ensures IndexedFamily(m, fam, FamilyItems(vm.devices, fam))
    {
      DeviceEntriesIndexed(vm.devices, fam);
      forall n: nat
        ensures Indexed(fam, n) in m <==> Indexed(fam, n) in DeviceEntries(vm.devices)
        ensures Indexed(fam, n) in m ==> m[Indexed(fam, n)] == DeviceEntries(vm.devices)[Indexed(fam, n)]
      {
        HeaderEntriesLookup(vm, Indexed(fam, n));
      }
    }
  }

  lemma ShapeKeys(vm: VmFacts)
    ensures SummaryKeys(Assembled(vm), LastHardDisk(vm.devices).Some?)
  {
    DeviceEntriesKeys(vm.devices);
    DeviceEntriesThinProv(vm.devices);
    var m := Assembled(vm);
    forall f: Field
      ensures Fixed(f) in m <==> SummaryField(f, LastHardDisk(vm.devices).Some?)
    {
      HeaderEntriesLookup(vm, Fixed(f));
      if f != ThinProv && f != Folder {
        assert HeaderValue(vm, f).Some? || f in {RdmIndexNum, StorageIndexNum, NetworkIndexNum, Snapshot};
      }
    }
  }

  lemma ShapeHeader(vm: VmFacts)
    ensures SummaryHeader(Assembled(vm), vm)
  {
    DeviceEntriesKeys(vm.devices);
    forall f: Field | HeaderValue(vm, f).Some?
      ensures HasFixed(Assembled(vm), f, HeaderValue(vm, f).value)
    {
      HeaderEntriesLookup(vm, Fixed(f));
      assert f !in {RdmIndexNum, StorageIndexNum, NetworkIndexNum, Snapshot};
    }
  }

  // ---------------------------------------------------------------------------------------
  // vm2dict
  // ---------------------------------------------------------------------------------------

  /** One VM's flattened dictionary. */
  type Record = map<Key, Value>

  /** `data[dc][cluster][host][vm]`. */
  type Tree = map<string, map<string, map<string, map<string, Record>>>>

  predicate HasVm(data: Tree, dc: string, cluster: string, host: string, vm: string)
  {
    dc in data && cluster in data[dc] && host in data[dc][cluster] && vm in data[dc][cluster][host]
  }

  /** The tree with one VM's record replaced and everything else as it was. */
  function Put(data: Tree, dc: string, cluster: string, host: string, vm: string, rec: Record): (r: Tree)
    requires HasVm(data, dc, cluster, host, vm)
    ensures HasVm(r, dc, cluster, host, vm) && r[dc][cluster][host][vm] == rec
    ensures r.Keys == data.Keys
    ensures forall d, c, h, v :: HasVm(r, d, c, h, v) <==> HasVm(data, d, c, h, v)
    ensures forall d, c, h, v :: HasVm(data, d, c, h, v) && (d, c, h, v) != (dc, cluster, host, vm) ==>
              HasVm(r, d, c, h, v) && r[d][c][h][v] == data[d][c][h][v]
  {
    data[dc := data[dc][cluster := data[dc][cluster][host := data[dc][cluster][host][vm := rec]]]]
  }

  /** The fields `vm2dict` copies one by one before its loops, in its order (`ThinProv` among them). */
  const FixedOrder: seq<Field> :=
    [Mem, DiskGbTotal, Cpu, Path, Net, OsType, State, Annotation, TotalNics, RdmIndexNum, ThinProv,
     StorageIndexNum, MemoryReservation, NetworkIndexNum]

  function FixedKeys(fields: seq<Field>): (r: seq<Key>)
    ensures |r| == |fields| && forall n :: 0 <= n < |r| ==> r[n] == Fixed(fields[n])
  {
    seq(|fields|, n requires 0 <= n < |fields| => Fixed(fields[n]))
  }

  /** The keys one pass of a `range` loop copies for index `i`, family by family. */
  function IndexKeys(fams: seq<Family>, i: nat): (r: seq<Key>)
    ensures forall k :: k in r <==> k.Indexed? && k.family in fams && k.index == i
  {
    if fams == [] then [] else [Indexed(fams[0], i)] + IndexKeys(fams[1..], i)
  }

  /** The keys of one loop over `range(n)` copying the families `fams` for each index. */
  function LoopKeys(fams: seq<Family>, n: nat): (r: seq<Key>)
    ensures forall k :: k in r <==> k.Indexed? && k.family in fams && k.index < n
  {
    if n == 0 then [] else LoopKeys(fams, n - 1) + IndexKeys(fams, n - 1)
  }

  /** Python `range(n)` has `max(n, 0)` elements. */
  function RangeLength(n: int): nat
  {
    if n > 0 then n else 0
  }

  /**
    Every key `vm2dict` reads, in order, given the three counts: the fixed fields, the storage
    loop, the RDM loop (entered only when the count is positive, which changes nothing), `Snapshot`,
    the adapter loop.
  */
  function CopyOrder(s: int, r: int, a: int): seq<Key>
  {
    FixedKeys(FixedOrder)
      + LoopKeys([StorageInfo, StorageTotalDisk], RangeLength(s))
      + LoopKeys([RdmDiskInfo, RdmDiskTotal], RangeLength(r))
      + [Fixed(Snapshot)]
      + LoopKeys([NetworkAdapter], RangeLength(a))
  }

  /** Copy `keys` from `summary` into `rec` one at a time; a missing key raises `KeyError` (None). */
  function CopyAll(rec: Record, summary: Record, keys: seq<Key>): Option<Record>
  {
    if keys == [] then Some(rec)
    else
      var p := CopyAll(rec, summary, keys[..|keys| - 1]);
      var k := keys[|keys| - 1];
      if p.Some? && k in summary then Some(p.value[k := summary[k]]) else None
  }

  /** The copy raises exactly when one of the keys is missing from `summary`. */
  lemma {:induction false} CopyAllSucceeds(rec: Record, summary: Record, keys: seq<Key>)
    ensures CopyAll(rec, summary, keys).Some? <==> forall k :: k in keys ==> k in summary
  {
    if keys != [] {
      var init, k := keys[..|keys| - 1], keys[|keys| - 1];
      assert keys == init + [k];
      CopyAllSucceeds(rec, summary, init);
    }
  }

  /** A successful copy holds `rec` overwritten by `summary` on exactly the copied keys. */
  lemma {:induction false} CopyAllContents(rec: Record, summary: Record, keys: seq<Key>)
    requires forall k :: k in keys ==> k in summary
    ensures CopyAll(rec, summary, keys).Some?
    ensures forall k :: k in CopyAll(rec, summary, keys).value <==> k in rec || k in keys
    ensures forall k :: k in CopyAll(rec, summary, keys).value ==>
              CopyAll(rec, summary, keys).value[k] == if k in keys then summary[k] else rec[k]
  {
    if keys != [] {
      var init, k := keys[..|keys| - 1], keys[|keys| - 1];
      assert keys == init + [k];
      CopyAllContents(rec, summary, init);
    }
    CopyAllSucceeds(rec, summary, keys);
  }

  /** The integer a count key holds; None when the key is missing or not an integer (`range` raises). */
  function CountOf(summary: Record, f: Field): Option<int>
  {
    if Fixed(f) in summary && summary[Fixed(f)].Num? then Some(summary[Fixed(f)].n) else None
  }

  /** The record `vm2dict` leaves for a VM whose record was `rec`, or None when it raises. */
  function Copied(rec: Record, folder: string, summary: Record): Option<Record>
  {
    var s, r, a := CountOf(summary, StorageIndexNum), CountOf(summary, RdmIndexNum), CountOf(summary, NetworkIndexNum);
    if s.None? || r.None? || a.None? then None
    else CopyAll(rec[Fixed(Folder) := Str(folder)], summary, CopyOrder(s.value, r.value, a.value))
  }

  /** A key copied by `vm2dict`: any fixed field, and indexed keys below their family's count. */
  predicate CopiedKey(k: Key, s: int, r: int, a: int)
  {
    match k
    case Fixed(f) => f != Folder
    case Indexed(fam, n) =>
      n < RangeLength(match KindOf(fam) case StorageDisk => s case RdmDisk => r case Adapter => a)
  }

  lemma CopyOrderKeys(s: int, r: int, a: int, k: Key)
    ensures k in CopyOrder(s, r, a) <==> CopiedKey(k, s, r, a)
  {
    var storage := LoopKeys([StorageInfo, StorageTotalDisk], RangeLength(s));
    var rdm := LoopKeys([RdmDiskInfo, RdmDiskTotal], RangeLength(r));
    var adapters := LoopKeys([NetworkAdapter], RangeLength(a));
    assert k in CopyOrder(s, r, a) <==>
      k in FixedKeys(FixedOrder) || k in storage || k in rdm || k == Fixed(Snapshot) || k in adapters;
    match k
    case Fixed(f) =>
      FixedOrderFields(f);
    case Indexed(fam, n) =>
  }

  /** The first block of `vm2dict` copies every fixed field except `Folder` and `Snapshot`. */
  lemma FixedOrderFields(f: Field)
    ensures Fixed(f) in FixedKeys(FixedOrder) <==> f != Folder && f != Snapshot
  {
    var fixed := FixedKeys(FixedOrder);
    if f != Folder && f != Snapshot {
      assert f == FixedOrder[0] || f == FixedOrder[1] || f == FixedOrder[2] || f == FixedOrder[3]
          || f == FixedOrder[4] || f == FixedOrder[5] || f == FixedOrder[6] || f == FixedOrder[7]
          || f == FixedOrder[8] || f == FixedOrder[9] || f == FixedOrder[10] || f == FixedOrder[11]
          || f == FixedOrder[12] || f == FixedOrder[13];
      var m :| 0 <= m < |FixedOrder| && FixedOrder[m] == f;
      assert fixed[m] == Fixed(f);
    }
  }

  /** The keys of `vmsummary`'s dictionary are the ones `vm2dict` copies, when there is a hard disk. */
  lemma SummaryKeysCopied(devices: seq<VirtualDevice>, summary: Record, k: Key)
    requires SummaryKeys(summary, true) && SummaryFamilies(summary, devices)
    ensures k in summary <==>
              CopiedKey(k, |Devices(devices, StorageDisk)|, |Devices(devices, RdmDisk)|, |Devices(devices, Adapter)|)
  {
    match k
    case Fixed(f) =>
      assert Fixed(f) in summary <==> SummaryField(f, true);
    case Indexed(fam, n) =>
      assert IndexedFamily(summary, fam, FamilyItems(devices, fam));
  }

  /** Copying exactly the keys of `summary` into `rec` gives `rec + summary`. */
  lemma CopyAllKeys(rec: Record, summary: Record, keys: seq<Key>)
    requires forall k :: k in keys <==> k in summary
    ensures CopyAll(rec, summary, keys) == Some(rec + summary)
  {
    CopyAllContents(rec, summary, keys);
    var c := CopyAll(rec, summary, keys).value;
    forall k
      ensures k in c <==> k in rec + summary
    {
    }
    forall k | k in c
      ensures c[k] == (rec + summary)[k]
    {
    }
    assert c == rec + summary;
  }


  /**
    `vm2dict` on the dictionary `vmsummary` built: when the VM has a hard disk, the stored record
    is exactly that dictionary plus `folder`; nothing is dropped and nothing is added.
  */
  lemma CopiedSummary(vm: VmFacts, summary: Record, folder: string)
    requires IsSummaryOf(summary, vm) && LastHardDisk(vm.devices).Some?
    ensures Copied(map[], folder, summary) == Some(summary[Fixed(Folder) := Str(folder)])
  {
    var hw := vm.devices;
    var s, r, a := |Devices(hw, StorageDisk)|, |Devices(hw, RdmDisk)|, |Devices(hw, Adapter)|;
    SummaryCopyOrder(vm, summary);
    var base := map[Fixed(Folder) := Str(folder)];
    CopyAllKeys(base, summary, CopyOrder(s, r, a));
    assert Fixed(Folder) !in summary by {
      assert SummaryKeys(summary, true) && SummaryFamilies(summary, hw);
      SummaryKeysCopied(hw, summary, Fixed(Folder));
    }
    SingletonUnion(Fixed(Folder), Str(folder), summary);
  }

  /** The counts `vm2dict` reads from the summary are the device counts, and its keys are the summary's. */
  lemma SummaryCopyOrder(vm: VmFacts, summary: Record)
    requires IsSummaryOf(summary, vm) && LastHardDisk(vm.devices).Some?
    ensures var hw := vm.devices;
      var s, r, a := |Devices(hw, StorageDisk)|, |Devices(hw, RdmDisk)|, |Devices(hw, Adapter)|;
      && CountOf(summary, StorageIndexNum) == Some(s)
      && CountOf(summary, RdmIndexNum) == Some(r)
      && CountOf(summary, NetworkIndexNum) == Some(a)
      && forall k :: k in CopyOrder(s, r, a) <==> k in summary
  {
    var hw := vm.devices;
    var s, r, a := |Devices(hw, StorageDisk)|, |Devices(hw, RdmDisk)|, |Devices(hw, Adapter)|;
    assert SummaryCounts(summary, vm);
    assert SummaryKeys(summary, true) && SummaryFamilies(summary, hw);
    forall k
      ensures k in CopyOrder(s, r, a) <==> k in summary
    {
      CopyOrderKeys(s, r, a, k);
      SummaryKeysCopied(hw, summary, k);
    }
  }

  lemma SingletonUnion<K, V>(k: K, v: V, m: map<K, V>)
    requires k !in m
    ensures map[k := v] + m == m[k := v]
  {
  }

  /**
    A VM without any hard disk has no `ThinProv` entry, so `vm2dict` raises `KeyError` on it
    (and the collector stops before writing its output).
  */
  lemma DisklessVmRaises(vm: VmFacts, summary: Record, rec: Record, folder: string)
    requires IsSummaryOf(summary, vm) && LastHardDisk(vm.devices).None?
    ensures Copied(rec, folder, summary) == None
  {
    var hw := vm.devices;
    var s, r, a := |Devices(hw, StorageDisk)|, |Devices(hw, RdmDisk)|, |Devices(hw, Adapter)|;
    assert CountOf(summary, StorageIndexNum) == Some(s);
    assert CountOf(summary, RdmIndexNum) == Some(r);
    assert CountOf(summary, NetworkIndexNum) == Some(a);
    CopyOrderKeys(s, r, a, Fixed(ThinProv));
    assert Fixed(ThinProv) !in summary;
    CopyAllSucceeds(rec[Fixed(Folder) := Str(folder)], summary, CopyOrder(s, r, a));
  }

  lemma CopyStep(rec: Record, summary: Record, done: seq<Key>, key: Key)
    requires CopyAll(rec, summary, done).Some? && key in summary
    ensures CopyAll(rec, summary, done + [key]) == Some(CopyAll(rec, summary, done).value[key := summary[key]])
  {
    assert (done + [key])[..|done|] == done;
  }

  /** Once a read has raised, reading more keys changes nothing. */
  lemma RaisedStaysRaised(rec: Record, summary: Record, done: seq<Key>, whole: seq<Key>)
    requires CopyAll(rec, summary, done).None? && forall k :: k in done ==> k in whole
    ensures CopyAll(rec, summary, whole).None?
  {
    CopyAllSucceeds(rec, summary, done);
    var k :| k in done && k !in summary;
    assert k in whole;
    CopyAllSucceeds(rec, summary, whole);
  }

  /** Copy `keys` one at a time after `done`, stopping (None) at the first one `summary` lacks. */
  method CopyKeys(ghost base: Record, ghost done: seq<Key>, rec: Record, summary: Record, keys: seq<Key>)
    returns (r: Option<Record>)
    requires CopyAll(base, summary, done) == Some(rec)
    ensures r == CopyAll(base, summary, done + keys)
  {
    var acc := rec;
    assert done + keys[..0] == done;
    for x := 0 to |keys|
      invariant CopyAll(base, summary, done + keys[..x]) == Some(acc)
    {
      var key := keys[x];
      if key !in summary {
        assert key in done + keys;
        CopyAllSucceeds(base, summary, done + keys);
        return None;
      }
      CopyStep(base, summary, done + keys[..x], key);
      assert done + keys[..x + 1] == done + keys[..x] + [key];
      acc := acc[key := summary[key]];
    }
    assert keys[..|keys|] == keys;
    return Some(acc);
  }

  lemma LoopKeysStep(done: seq<Key>, fams: seq<Family>, i: nat)
    ensures done + LoopKeys(fams, i) + IndexKeys(fams, i) == done + LoopKeys(fams, i + 1)
  {
  }

  lemma LoopKeysGrow(done: seq<Key>, fams: seq<Family>, i: nat, n: nat)
    requires i <= n
    ensures forall k :: k in done + LoopKeys(fams, i) ==> k in done + LoopKeys(fams, n)
  {
  }

  /** `for i in range(count)`: copy the keys of `fams` for each index in turn. */
  method CopyLoop(ghost base: Record, ghost done: seq<Key>, rec: Record, summary: Record, fams: seq<Family>, count: int)
    returns (r: Option<Record>)
    requires CopyAll(base, summary, done) == Some(rec)
    ensures r == CopyAll(base, summary, done + LoopKeys(fams, RangeLength(count)))
  {
    var acc := rec;
    assert done + LoopKeys(fams, 0) == done;
    for i := 0 to RangeLength(count)
      invariant CopyAll(base, summary, done + LoopKeys(fams, i)) == Some(acc)
    {
      var next := CopyKeys(base, done + LoopKeys(fams, i), acc, summary, IndexKeys(fams, i));
      LoopKeysStep(done, fams, i);
      if next.None? {
        LoopKeysGrow(done, fams, i + 1, RangeLength(count));
        RaisedStaysRaised(base, summary, done + LoopKeys(fams, i + 1), done + LoopKeys(fams, RangeLength(count)));
        return None;
      }
      acc := next.value;
    }
    return Some(acc);
  }

  /**
    The copying `vm2dict` does for one VM whose record was `rec0`: `folder`, the fixed fields, the
    storage loop, the RDM loop, `Snapshot`, the adapter loop. None when a read raises (`KeyError`
    on a missing key, `TypeError` when a count is not an integer).
  */
  method CopyVm(rec0: Record, folder: string, summary: Record) returns (result: Option<Record>)
    ensures result == Copied(rec0, folder, summary)
  {
    ghost var s, r, a := CountOf(summary, StorageIndexNum), CountOf(summary, RdmIndexNum), CountOf(summary, NetworkIndexNum);
    var base := rec0[Fixed(Folder) := Str(folder)];
    var fixed := FixedKeys(FixedOrder);
    var rec := CopyKeys(base, [], base, summary, fixed);
    assert [] + fixed == fixed;
    if rec.None? {
      if s.Some? && r.Some? && a.Some? {
        RaisedStaysRaised(base, summary, fixed, CopyOrder(s.value, r.value, a.value));
      }
      return None;
    }
    CopyAllSucceeds(base, summary, fixed);
    assert fixed[11] == Fixed(StorageIndexNum) && fixed[9] == Fixed(RdmIndexNum) && fixed[13] == Fixed(NetworkIndexNum);
    if !summary[Fixed(StorageIndexNum)].Num? || !summary[Fixed(RdmIndexNum)].Num? {
      return None;
    }
    var storageCount, rdmCount := summary[Fixed(StorageIndexNum)].n, summary[Fixed(RdmIndexNum)].n;
    var storageKeys := fixed + LoopKeys([StorageInfo, StorageTotalDisk], RangeLength(storageCount));
    rec := CopyLoop(base, fixed, rec.value, summary, [StorageInfo, StorageTotalDisk], storageCount);
    if rec.None? {
      if a.Some? {
        RaisedStaysRaised(base, summary, storageKeys, CopyOrder(storageCount, rdmCount, a.value));
      }
      return None;
    }
    var rdmKeys := storageKeys + LoopKeys([RdmDiskInfo, RdmDiskTotal], RangeLength(rdmCount));
    if rdmCount > 0 {
      rec := CopyLoop(base, storageKeys, rec.value, summary, [RdmDiskInfo, RdmDiskTotal], rdmCount);
      if rec.None? {
        if a.Some? {
          RaisedStaysRaised(base, summary, rdmKeys, CopyOrder(storageCount, rdmCount, a.value));
        }
        return None;
      }
    } else {
      assert rdmKeys == storageKeys;
    }
    var snapshotKeys := rdmKeys + [Fixed(Snapshot)];
    rec := CopyKeys(base, rdmKeys, rec.value, summary, [Fixed(Snapshot)]);
    if rec.None? {
      if a.Some? {
        RaisedStaysRaised(base, summary, snapshotKeys, CopyOrder(storageCount, rdmCount, a.value));
      }
      return None;
    }
    if !summary[Fixed(NetworkIndexNum)].Num? {
      return None;
    }
    var adapterCount := summary[Fixed(NetworkIndexNum)].n;
    result := CopyLoop(base, snapshotKeys, rec.value, summary, [NetworkAdapter], adapterCount);
  }

  /** The collector's output tree, filled VM by VM. */
  class Collection {
    var data: Tree

    constructor ()
      ensures data == map[]
    {
      data := map[];
    }

    /**
      `vm2dict(dc, cluster, host, vm, summary)`: the copied record replaces the VM's record. When
      a read raises the run ends there, so the half-written record is not modelled.
    */
    method StoreVm(dc: string, cluster: string, host: string, vm: string, folder: string, summary: Record)
      returns (ok: bool)
      requires HasVm(data, dc, cluster, host, vm)
      modifies this
      ensures ok <==> Copied(old(data)[dc][cluster][host][vm], folder, summary).Some?
      ensures ok ==> data == Put(old(data), dc, cluster, host, vm, Copied(old(data)[dc][cluster][host][vm], folder, summary).value)
      ensures !ok ==> data == old(data)
    {
      var rec := CopyVm(data[dc][cluster][host][vm], folder, summary);
      if rec.None? {
        return false;
      }
      data := Put(data, dc, cluster, host, vm, rec.value);
      return true;
    }
  }
}
