/**
  The decision logic of the per-device VLAN scripts (`create_vlans_netbox_on_huawei_vrp`,
  `..._cisco_ios`, `..._cisco_ios_telnet`, `..._cisco_nxos`): which switch VLANs take part,
  what name they get, which NetBox VLAN each one matches, and which NetBox VLANs become
  deletion candidates. The inventory itself and the writes are in module VlanInventory.
*/
module Vlans {
  import opened Wrappers
  import opened Text
  import opened Scan

  /** One record of the TextFSM output for a switch VLAN (the parser itself is not modelled). */
  datatype ParsedVlan = ParsedVlan(vlanId: string, name: string, status: string, description: string)

  /** A switch VLAN ready to be reconciled: its id as text and the name and status to write. */
  datatype SwitchVlan = SwitchVlan(id: string, name: string, status: string)

  /** The four supported platforms, one per script function. */
  datatype Vendor = Ios | IosTelnet | Nxos | Vrp

  /**
    Name written for a Huawei VLAN: the VRP name unchanged when it equals the description;
    `"<description> <id>"` when the name is the default `VLAN` or empty; `"<name> <id>"` otherwise.
  */
  function VrpName(v: ParsedVlan): (r: string)
    ensures r == [] <==> v.name == [] && v.description == []
    ensures v.name == v.description ==> r == v.name
    ensures v.name != v.description ==> |r| > |v.vlanId| && r[|r| - |v.vlanId| - 1..] == " " + v.vlanId
    ensures v.name != v.description && v.name != "VLAN" && v.name != [] ==> StartsWith(r, v.name + " ")
    ensures v.name != v.description && (v.name == "VLAN" || v.name == []) ==> StartsWith(r, v.description + " ")
    ensures v.name != v.description ==>
              |r| == |(if v.name == "VLAN" || v.name == [] then v.description else v.name)| + 1 + |v.vlanId|
  {
    if v.name == v.description then v.name
    else if v.name == "VLAN" || v.name == [] then v.description + " " + v.vlanId
    else v.name + " " + v.vlanId
  }

  /** VRP: every VLAN of `display vlan` takes part, named by VrpName and written as `active`. */
  function VrpVlans(parsed: seq<ParsedVlan>): (r: seq<SwitchVlan>)
    ensures |r| == |parsed|
    ensures forall i :: 0 <= i < |r| ==> r[i].id == parsed[i].vlanId && r[i].name == VrpName(parsed[i]) && r[i].status == "active"
  {
    seq(|parsed|, i requires 0 <= i < |parsed| => SwitchVlan(parsed[i].vlanId, VrpName(parsed[i]), "active"))
  }

  /** Cisco: `status in 'active'`, a substring test on the status text, not an equality. */
  predicate CiscoActive(status: string)
  {
    Contains("active", status)
  }

  function CiscoVlan(p: ParsedVlan): SwitchVlan
  {
    SwitchVlan(p.vlanId, p.name, p.status)
  }

  /** Cisco IOS / IOS telnet / NX-OS: only the VLANs passing CiscoActive take part, in parser order. */
  function CiscoVlans(parsed: seq<ParsedVlan>): (r: seq<SwitchVlan>)
    ensures |r| <= |parsed|
    ensures forall x :: x in r ==> exists p :: p in parsed && CiscoActive(p.status) && x == CiscoVlan(p)
    ensures forall p :: p in parsed && CiscoActive(p.status) ==> CiscoVlan(p) in r
  {
    if parsed == [] then []
    else
      var init := parsed[..|parsed| - 1];
      var last := parsed[|parsed| - 1];
      assert parsed == init + [last];
      CiscoVlans(init) + (if CiscoActive(last.status) then [CiscoVlan(last)] else [])
  }

  /** The filter keeps the switch's order: filtering a concatenation concatenates the filtered parts. */
  lemma {:induction false} CiscoVlansAppend(a: seq<ParsedVlan>, b: seq<ParsedVlan>)
    ensures CiscoVlans(a + b) == CiscoVlans(a) + CiscoVlans(b)
    decreases |b|
  {
    if b == [] {
      assert a + b == a;
    } else {
      var init := b[..|b| - 1];
      assert (a + b)[..|a + b| - 1] == a + init;
      CiscoVlansAppend(a, init);
    }
  }

  /** The switch VLANs a vendor's function reconciles. */
  function SwitchVlans(vendor: Vendor, parsed: seq<ParsedVlan>): seq<SwitchVlan>
  {
    if vendor == Vrp then VrpVlans(parsed) else CiscoVlans(parsed)
  }

  lemma CiscoFilterExamples()
    ensures CiscoActive("active") && CiscoActive("act") && CiscoActive("")
    ensures !CiscoActive("act/lshut") && !CiscoActive("suspended") && !CiscoActive("sus")
  {
    assert StartsWith("active", "act");
    assert StartsWith("active", "");
    ContainsHasChar("active", "act/lshut", 3);
    ContainsHasChar("active", "suspended", 0);
    ContainsHasChar("active", "sus", 0);
  }

  // ---------------------------------------------------------------------------------------
  // Matching and deletion candidates
  // ---------------------------------------------------------------------------------------

  /** `str(vid)` of each NetBox VLAN of the device's group, in listing order. */
  function VidStrings(listing: seq<nat>): (r: seq<string>)
    ensures |r| == |listing|
    ensures forall i :: 0 <= i < |r| ==> r[i] == NatToString(listing[i])
  {
    seq(|listing|, i requires 0 <= i < |listing| => NatToString(listing[i]))
  }

  /** `isvlan_exist`: some NetBox VLAN of the group has `str(vid) == id`. */
  predicate Matched(listing: seq<nat>, v: SwitchVlan)
  {
    v.id in VidStrings(listing)
  }

  /** How far the group scan runs for switch VLAN `v` (the break follows a successful update only). */
  function ScanLength(listing: seq<nat>, v: SwitchVlan, updateFails: set<string>): nat
  {
    Visited(VidStrings(listing), v.id, v.id !in updateFails)
  }

  /** `set_switch_vlan`: the ids of the switch VLANs that took part. */
  function SwitchIds(vlans: seq<SwitchVlan>): set<string>
  {
    set v | v in vlans :: v.id
  }

  /** `set_ipam_vlan` before the difference: every `str(vid)` some scan passed over. */
  function ScannedIds(vlans: seq<SwitchVlan>, listing: seq<nat>, updateFails: set<string>): set<string>
  {
    if vlans == [] then {}
    else
      var v := vlans[|vlans| - 1];
      ScannedIds(vlans[..|vlans| - 1], listing, updateFails)
        + Elements(VidStrings(listing)[..ScanLength(listing, v, updateFails)])
  }

  /** `set_ipam_vlan.difference_update(set_switch_vlan)`. */
  function DeleteCandidates(vlans: seq<SwitchVlan>, listing: seq<nat>, updateFails: set<string>): set<string>
  {
    ScannedIds(vlans, listing, updateFails) - SwitchIds(vlans)
  }

  /** What a complete sweep would delete: every group VLAN not on the switch. */
  function StaleIds(vlans: seq<SwitchVlan>, listing: seq<nat>): set<string>
  {
    Elements(VidStrings(listing)) - SwitchIds(vlans)
  }

  lemma {:induction false} ScannedIdsInListing(vlans: seq<SwitchVlan>, listing: seq<nat>, updateFails: set<string>)
    ensures ScannedIds(vlans, listing, updateFails) <= Elements(VidStrings(listing))
  {
    if vlans != [] {
      ScannedIdsInListing(vlans[..|vlans| - 1], listing, updateFails);
    }
  }

  /**
    Every deletion candidate is the `str(vid)` of a VLAN of the device's group that is not on the
    switch: a VLAN present on the switch is never deleted, and nothing outside the group is.
    The candidates are always among the stale ids.
  */
  lemma DeleteCandidatesAreStale(vlans: seq<SwitchVlan>, listing: seq<nat>, updateFails: set<string>)
    ensures DeleteCandidates(vlans, listing, updateFails) <= StaleIds(vlans, listing)
    ensures DeleteCandidates(vlans, listing, updateFails) !! SwitchIds(vlans)
  {
    ScannedIdsInListing(vlans, listing, updateFails);
  }

  /** When no switch VLAN survives the filter, `set_ipam_vlan` stays empty and nothing is deleted. */
  lemma NoSwitchVlansNoDeletes(listing: seq<nat>, updateFails: set<string>)
    ensures DeleteCandidates([], listing, updateFails) == {}
  {
  }

  /** A switch VLAN that is not updated (no match, or the update raised) makes its scan cover the whole group. */
  lemma {:induction false} UnupdatedVlanScansAll(vlans: seq<SwitchVlan>, listing: seq<nat>, updateFails: set<string>, i: nat)
    requires i < |vlans|
    requires !Matched(listing, vlans[i]) || vlans[i].id in updateFails
    ensures ScannedIds(vlans, listing, updateFails) == Elements(VidStrings(listing))
  {
    ScannedIdsInListing(vlans, listing, updateFails);
    var init := vlans[..|vlans| - 1];
    if i == |vlans| - 1 {
      var s := VidStrings(listing);
      assert s[..ScanLength(listing, vlans[i], updateFails)] == s;
    } else {
      assert init[i] == vlans[i];
      UnupdatedVlanScansAll(init, listing, updateFails, i);
    }
  }

  /**
    As soon as one switch VLAN is created (or its update fails), the sweep is complete: the
    candidates are exactly the group VLANs missing from the switch.
  */
  lemma CompleteSweepWhenSomethingUnupdated(vlans: seq<SwitchVlan>, listing: seq<nat>, updateFails: set<string>, i: nat)
    requires i < |vlans|
    requires !Matched(listing, vlans[i]) || vlans[i].id in updateFails
    ensures DeleteCandidates(vlans, listing, updateFails) == StaleIds(vlans, listing)
  {
    UnupdatedVlanScansAll(vlans, listing, updateFails, i);
  }

  /**
    The break-scan quirk: when every switch VLAN is found and updated, a stale group VLAN that
    the listing places after the last match is never scanned, hence never deleted.
  */
  lemma StaleVlanAfterLastMatchSurvives()
    ensures var vlans := [SwitchVlan("10", "users", "active")];
            var listing := [10, 99];
            DeleteCandidates(vlans, listing, {}) == {} && StaleIds(vlans, listing) == {"99"}
  {
    var vlans := [SwitchVlan("10", "users", "active")];
    var listing := [10, 99];
    var s := VidStrings(listing);
    assert NatToString(10) == "10" && NatToString(99) == "99";
    assert s == ["10", "99"];
    assert ScanLength(listing, vlans[0], {}) == 1;
    assert vlans[..0] == [];
    assert s[..1] == ["10"];
  }
}
