/**
  The NetBox side of the VLAN scripts: the VLAN table (keyed by VLAN group and vid), the
  state it is left in by one device's reconciliation, and the class whose method performs that
  reconciliation step by step as the script does (update or create per switch VLAN, then the
  deletion of `set_ipam_vlan - set_switch_vlan`).
*/
module VlanInventory {
  import opened Wrappers
  import opened Text
  import opened Scan
  import opened Vlans

  datatype VlanKey = VlanKey(group: nat, vid: nat)

  datatype Vlan = Vlan(name: string, status: string, site: nat)

  /** NetBox's VLANs; a vid is unique within its VLAN group. */
  type Table = map<VlanKey, Vlan>

  /**
    Which NetBox calls raise an exception, by the switch VLAN id they concern (network errors,
    validation, permissions). The scripts catch every one of them and carry on.
  */
  datatype Faults = Faults(update: set<string>, create: set<string>, delete: set<string>)

  /** Counters kept by each script function. */
  datatype Report = Report(created: nat, updated: nat, deleted: nat)

  /** `tuple(nb.ipam.vlans.filter(group_id=group))`: each VLAN of the group once, by vid. */
  ghost predicate IsGroupListing(t: Table, group: nat, listing: seq<nat>)
  {
    Distinct(listing) && forall vid :: vid in listing <==> VlanKey(group, vid) in t
  }

  /** `record.update({'name', 'status', 'vid': v.id})` on the matched VLAN; the vid text is its own `str(vid)`. */
  function UpdateVlan(t: Table, group: nat, v: SwitchVlan): Table
  {
    match ParseNat(v.id)
    case None => t
    case Some(vid) =>
      var key := VlanKey(group, vid);
      if key in t then t[key := Vlan(v.name, v.status, t[key].site)] else t
  }

  /** `nb.ipam.vlans.create(site, group, vid=v.id, name, status)`: NetBox parses the vid and refuses a duplicate. */
  function CreateVlan(t: Table, group: nat, site: nat, v: SwitchVlan, faults: Faults): Table
  {
    match ParseNat(v.id)
    case None => t
    case Some(vid) =>
      if VlanKey(group, vid) in t || v.id in faults.create then t
      else t[VlanKey(group, vid) := Vlan(v.name, v.status, site)]
  }

  /** One pass of the outer loop: update the match, or create when nothing matched. */
  function AfterVlan(t: Table, group: nat, site: nat, listing: seq<nat>, faults: Faults, v: SwitchVlan): Table
  {
    if Matched(listing, v) then
      if v.id in faults.update then t else UpdateVlan(t, group, v)
    else CreateVlan(t, group, site, v, faults)
  }

  /** The table after the outer loop has processed `vlans` in order. */
  function AfterVlans(t: Table, group: nat, site: nat, listing: seq<nat>, faults: Faults, vlans: seq<SwitchVlan>): Table
  {
    if vlans == [] then t
    else AfterVlan(AfterVlans(t, group, site, listing, faults, vlans[..|vlans| - 1]), group, site, listing, faults, vlans[|vlans| - 1])
  }

  /** The deletion loop: each candidate of the group is deleted unless its delete raises. */
  function DeleteVlans(t: Table, group: nat, candidates: set<string>, faults: Faults): Table
  {
    map k | k in t && !(k.group == group && NatToString(k.vid) in candidates - faults.delete) :: t[k]
  }

  /** The whole effect of one device's reconciliation on the VLAN table. */
  function Reconciled(t: Table, group: nat, site: nat, listing: seq<nat>, faults: Faults, vlans: seq<SwitchVlan>): Table
  {
    DeleteVlans(AfterVlans(t, group, site, listing, faults, vlans), group, DeleteCandidates(vlans, listing, faults.update), faults)
  }

  /** `vlan_number_count`: one per unmatched switch VLAN, whether or not the create raised. */
  function CreatedCount(listing: seq<nat>, vlans: seq<SwitchVlan>): nat
  {
    if vlans == [] then 0
    else CreatedCount(listing, vlans[..|vlans| - 1]) + (if Matched(listing, vlans[|vlans| - 1]) then 0 else 1)
  }

  /** `vlan_updated_count`: one per matched switch VLAN whose update went through. */
  function UpdatedCount(listing: seq<nat>, faults: Faults, vlans: seq<SwitchVlan>): nat
  {
    if vlans == [] then 0
    else
      var v := vlans[|vlans| - 1];
      UpdatedCount(listing, faults, vlans[..|vlans| - 1]) + (if Matched(listing, v) && v.id !in faults.update then 1 else 0)
  }

  // ---------------------------------------------------------------------------------------
  // Properties of the reconciled table
  // ---------------------------------------------------------------------------------------

  /** A string of the listing's `str(vid)`s names the vid it came from. */
  lemma ListedVid(listing: seq<nat>, id: string) returns (vid: nat)
    requires id in VidStrings(listing)
    ensures vid in listing && NatToString(vid) == id && ParseNat(id) == Some(vid)
  {
    var s := VidStrings(listing);
    var i :| 0 <= i < |s| && s[i] == id;
    vid := listing[i];
    ParseNatToString(vid);
  }

  lemma MatchedVid(listing: seq<nat>, v: SwitchVlan) returns (vid: nat)
    requires Matched(listing, v)
    ensures vid in listing && NatToString(vid) == v.id && ParseNat(v.id) == Some(vid)
  {
    vid := ListedVid(listing, v.id);
  }

  /** The outer loop never removes a VLAN and touches only the device's group. */
  lemma {:induction false} AfterVlansFrame(t: Table, group: nat, site: nat, listing: seq<nat>, faults: Faults, vlans: seq<SwitchVlan>)
    ensures t.Keys <= AfterVlans(t, group, site, listing, faults, vlans).Keys
    ensures forall k: VlanKey :: k.group != group ==>
              (k in AfterVlans(t, group, site, listing, faults, vlans) <==> k in t)
    ensures forall k :: k in t && k.group != group ==> AfterVlans(t, group, site, listing, faults, vlans)[k] == t[k]
  {
    if vlans != [] {
      AfterVlansFrame(t, group, site, listing, faults, vlans[..|vlans| - 1]);
    }
  }

  /** Reconciling one device leaves every other VLAN group exactly as it was. */
  lemma OtherGroupsUntouched(t: Table, group: nat, site: nat, listing: seq<nat>, faults: Faults, vlans: seq<SwitchVlan>, k: VlanKey)
    requires k.group != group
    ensures k in Reconciled(t, group, site, listing, faults, vlans) <==> k in t
    ensures k in t ==> Reconciled(t, group, site, listing, faults, vlans)[k] == t[k]
  {
    AfterVlansFrame(t, group, site, listing, faults, vlans);
  }

  /**
    A VLAN disappears only if it belonged to the device's group, was scanned, is absent from
    the switch, and its delete went through.
  */
  lemma DeletedOnlyIfStale(t: Table, group: nat, site: nat, listing: seq<nat>, faults: Faults, vlans: seq<SwitchVlan>, k: VlanKey)
    requires k in t && k !in Reconciled(t, group, site, listing, faults, vlans)
    ensures k.group == group
    ensures NatToString(k.vid) in DeleteCandidates(vlans, listing, faults.update)
    ensures NatToString(k.vid) in StaleIds(vlans, listing) && NatToString(k.vid) !in faults.delete
  {
    AfterVlansFrame(t, group, site, listing, faults, vlans);
    DeleteCandidatesAreStale(vlans, listing, faults.update);
  }

  /** A VLAN reported by the switch is never deleted by the run that saw it. */
  lemma SwitchVlanNeverDeleted(t: Table, group: nat, site: nat, listing: seq<nat>, faults: Faults, vlans: seq<SwitchVlan>, k: VlanKey)
    requires k in AfterVlans(t, group, site, listing, faults, vlans)
    requires NatToString(k.vid) in SwitchIds(vlans)
    ensures k in Reconciled(t, group, site, listing, faults, vlans)
  {
  }

  /** An id string NetBox reads back to a vid whose `str` is that same string. */
  predicate Canonical(id: string)
  {
    ParseNat(id).Some? && NatToString(ParseNat(id).value) == id
  }

  function KeyOf(group: nat, v: SwitchVlan): VlanKey
    requires Canonical(v.id)
  {
    VlanKey(group, ParseNat(v.id).value)
  }

  predicate NoFaults(faults: Faults)
  {
    faults.update == {} && faults.create == {} && faults.delete == {}
  }

  /** With no failing call, one pass of the outer loop keeps every key and leaves its switch VLAN in the table. */
  lemma AfterVlanHasKey(t: Table, before: Table, group: nat, site: nat, listing: seq<nat>, faults: Faults, v: SwitchVlan)
    requires NoFaults(faults)
    requires IsGroupListing(t, group, listing)
    requires t.Keys <= before.Keys
    requires Canonical(v.id)
    ensures before.Keys <= AfterVlan(before, group, site, listing, faults, v).Keys
    ensures KeyOf(group, v) in AfterVlan(before, group, site, listing, faults, v)
  {
    if Matched(listing, v) {
      var vid := MatchedVid(listing, v);
      assert KeyOf(group, v) == VlanKey(group, vid);
    }
  }

  /** With no failing call, after the outer loop each switch VLAN is in the table (updated or created). */
  lemma {:induction false} SwitchVlansPresent(t: Table, group: nat, site: nat, listing: seq<nat>, faults: Faults, vlans: seq<SwitchVlan>)
    requires NoFaults(faults)
    requires IsGroupListing(t, group, listing)
    requires forall v :: v in vlans ==> Canonical(v.id)
    ensures forall v :: v in vlans ==> KeyOf(group, v) in AfterVlans(t, group, site, listing, faults, vlans)
  {
    if vlans != [] {
      var init := vlans[..|vlans| - 1];
      var v := vlans[|vlans| - 1];
      SwitchVlansPresent(t, group, site, listing, faults, init);
      AfterVlansFrame(t, group, site, listing, faults, init);
      var before := AfterVlans(t, group, site, listing, faults, init);
      AfterVlanHasKey(t, before, group, site, listing, faults, v);
      assert AfterVlans(t, group, site, listing, faults, vlans) == AfterVlan(before, group, site, listing, faults, v);
      forall w | w in vlans
        ensures KeyOf(group, w) in AfterVlans(t, group, site, listing, faults, vlans)
      {
        if w != v {
          assert w in init;
        }
      }
    }
  }

  /** Group keys after the outer loop: those listed before, plus the switch VLANs created. */
  lemma {:induction false} AfterVlansGroupKeys(t: Table, group: nat, site: nat, listing: seq<nat>, faults: Faults, vlans: seq<SwitchVlan>, k: VlanKey)
    requires IsGroupListing(t, group, listing)
    requires forall v :: v in vlans ==> Canonical(v.id)
    requires k.group == group && k in AfterVlans(t, group, site, listing, faults, vlans)
    ensures k.vid in listing || NatToString(k.vid) in SwitchIds(vlans)
  {
    if vlans != [] {
      var init := vlans[..|vlans| - 1];
      var v := vlans[|vlans| - 1];
      var before := AfterVlans(t, group, site, listing, faults, init);
      if k in before {
        AfterVlansGroupKeys(t, group, site, listing, faults, init, k);
        assert SwitchIds(init) <= SwitchIds(vlans);
      } else {
        assert ParseNat(v.id) == Some(k.vid);
      }
    }
  }

  /**
    Convergence (in the case the quirk does not hide anything: some switch VLAN had to be
    created). With no failing call and canonical ids, the VLAN ids of the device's group after
    the pass are exactly the switch's.
  */
  lemma ConvergesWhenSomethingCreated(t: Table, group: nat, site: nat, listing: seq<nat>, faults: Faults, vlans: seq<SwitchVlan>, i: nat)
    requires NoFaults(faults)
    requires IsGroupListing(t, group, listing)
    requires forall v :: v in vlans ==> Canonical(v.id)
    requires i < |vlans| && !Matched(listing, vlans[i])
    ensures forall k: VlanKey :: k.group == group ==>
              (k in Reconciled(t, group, site, listing, faults, vlans) <==> NatToString(k.vid) in SwitchIds(vlans))
  {
    var after := AfterVlans(t, group, site, listing, faults, vlans);
    var r := Reconciled(t, group, site, listing, faults, vlans);
    CompleteSweepWhenSomethingUnupdated(vlans, listing, faults.update, i);
    SwitchVlansPresent(t, group, site, listing, faults, vlans);
    forall k: VlanKey | k.group == group
      ensures k in r <==> NatToString(k.vid) in SwitchIds(vlans)
    {
      if NatToString(k.vid) in SwitchIds(vlans) {
        var v :| v in vlans && v.id == NatToString(k.vid);
        ParseNatToString(k.vid);
        assert KeyOf(group, v) == k;
      } else if k in after {
        AfterVlansGroupKeys(t, group, site, listing, faults, vlans, k);
        assert NatToString(k.vid) in Elements(VidStrings(listing));
      }
    }
  }

  /** One more switch VLAN processed: how each accumulated quantity grows. */
  lemma PrefixStep(t: Table, group: nat, site: nat, listing: seq<nat>, faults: Faults, observed: seq<SwitchVlan>, n: nat)
    requires n < |observed|
    ensures var p, q, v := observed[..n], observed[..n + 1], observed[n];
      && AfterVlans(t, group, site, listing, faults, q) == AfterVlan(AfterVlans(t, group, site, listing, faults, p), group, site, listing, faults, v)
      && ScannedIds(q, listing, faults.update) == ScannedIds(p, listing, faults.update) + Elements(VidStrings(listing)[..ScanLength(listing, v, faults.update)])
      && SwitchIds(q) == SwitchIds(p) + {v.id}
      && CreatedCount(listing, q) == CreatedCount(listing, p) + (if Matched(listing, v) then 0 else 1)
      && UpdatedCount(listing, faults, q) == UpdatedCount(listing, faults, p) + (if Matched(listing, v) && v.id !in faults.update then 1 else 0)
  {
    var p, q := observed[..n], observed[..n + 1];
    assert q[..|q| - 1] == p && q[|q| - 1] == observed[n];
    assert q == p + [observed[n]];
  }

  lemma CountStep(done: set<string>, c: string, failing: set<string>)
    requires c !in done
    ensures |(done + {c}) - failing| == |done - failing| + (if c in failing then 0 else 1)
  {
    if c in failing {
      assert (done + {c}) - failing == done - failing;
    } else {
      assert (done + {c}) - failing == (done - failing) + {c};
    }
  }

  lemma DeleteNothing(t: Table, group: nat, faults: Faults)
    ensures DeleteVlans(t, group, {}, faults) == t
  {
  }

  /** Deleting one more candidate `c == str(vid)` removes exactly the key `(group, vid)`, unless its delete raises. */
  lemma DeleteStep(after: Table, group: nat, done: set<string>, c: string, vid: nat, faults: Faults)
    requires NatToString(vid) == c
    ensures DeleteVlans(after, group, done + {c}, faults)
              == if c in faults.delete then DeleteVlans(after, group, done, faults)
                 else DeleteVlans(after, group, done, faults) - {VlanKey(group, vid)}
  {
    forall x: VlanKey | x in after
      ensures NatToString(x.vid) == c <==> x.vid == vid
    {
      NatToStringInjective(x.vid, vid);
    }
  }

  // ---------------------------------------------------------------------------------------
  // The inventory object and the per-device procedure
  // ---------------------------------------------------------------------------------------

  /** The NetBox VLAN table, updated in place by the scripts' calls. */
  class Ipam {
    var vlans: Table

    constructor (vlans: Table)
      ensures this.vlans == vlans
    {
      this.vlans := vlans;
    }

    /**
      The body shared by the four script functions once the switch VLANs are known: for each
      switch VLAN, scan the group listing (breaking after a successful update), create when
      nothing matched, then delete `set_ipam_vlan - set_switch_vlan` from the group.
    */
    method ReconcileGroup(group: nat, site: nat, listing: seq<nat>, observed: seq<SwitchVlan>, faults: Faults)
      returns (report: Report)
      requires IsGroupListing(vlans, group, listing)
      modifies this
      ensures vlans == Reconciled(old(vlans), group, site, listing, faults, observed)
      ensures report.created == CreatedCount(listing, observed)
      ensures report.updated == UpdatedCount(listing, faults, observed)
      ensures report.deleted == |DeleteCandidates(observed, listing, faults.update) - faults.delete|
    {
      var strs := VidStrings(listing);
      var setIpam: set<string> := {};
      var setSwitch: set<string> := {};
      var created, updated, deleted := 0, 0, 0;
      var n := 0;
      while n < |observed|
        invariant 0 <= n <= |observed|
        invariant vlans == AfterVlans(old(vlans), group, site, listing, faults, observed[..n])
        invariant setIpam == ScannedIds(observed[..n], listing, faults.update)
        invariant setSwitch == SwitchIds(observed[..n])
        invariant created == CreatedCount(listing, observed[..n])
        invariant updated == UpdatedCount(listing, faults, observed[..n])
      {
        PrefixStep(old(vlans), group, site, listing, faults, observed, n);
        AfterVlansFrame(old(vlans), group, site, listing, faults, observed[..n]);
        var v := observed[n];
        var found, k := ScanAndUpdate(group, listing, v, faults);
        setIpam := setIpam + Elements(strs[..k]);
        setSwitch := setSwitch + {v.id};
        if !found {
          CreateOne(group, site, v, faults);
          created := created + 1;
        } else if v.id !in faults.update {
          updated := updated + 1;
        }
        n := n + 1;
      }
      assert observed[..n] == observed;
      var after := vlans;
      AfterVlansFrame(old(vlans), group, site, listing, faults, observed);
      setIpam := setIpam - setSwitch;
      assert setIpam == DeleteCandidates(observed, listing, faults.update);
      DeleteCandidatesAreStale(observed, listing, faults.update);
      deleted := DeleteCandidatesFromGroup(group, setIpam, listing, faults, after);
      report := Report(created, updated, deleted);
    }

    /**
      The inner loop for one switch VLAN: every listed VLAN passed over is recorded, the first
      match is updated, and the loop breaks only when that update went through.
    */
    method ScanAndUpdate(group: nat, listing: seq<nat>, v: SwitchVlan, faults: Faults) returns (found: bool, k: nat)
      requires forall vid :: vid in listing ==> VlanKey(group, vid) in vlans
      modifies this
      ensures found == Matched(listing, v)
      ensures k == ScanLength(listing, v, faults.update)
      ensures vlans == if found && v.id !in faults.update then UpdateVlan(old(vlans), group, v) else old(vlans)
    {
      var strs := VidStrings(listing);
      found, k := Search(strs, v.id, v.id !in faults.update);
      if found && v.id !in faults.update {
        assert listing[k - 1] in listing && strs[k - 1] == NatToString(listing[k - 1]);
        UpdateListed(group, listing[k - 1], v);
      }
    }

    /** `record.update(...)` on the listed VLAN whose `str(vid)` matched. */
    method UpdateListed(group: nat, vid: nat, v: SwitchVlan)
      requires VlanKey(group, vid) in vlans && NatToString(vid) == v.id
      modifies this
      ensures vlans == UpdateVlan(old(vlans), group, v)
    {
      ParseNatToString(vid);
      var key := VlanKey(group, vid);
      vlans := vlans[key := Vlan(v.name, v.status, vlans[key].site)];
    }

    /** `nb.ipam.vlans.create(...)` inside its try block; the counter is the caller's. */
    method CreateOne(group: nat, site: nat, v: SwitchVlan, faults: Faults)
      modifies this
      ensures vlans == CreateVlan(old(vlans), group, site, v, faults)
    {
      var vid := ParseNat(v.id);
      if vid.Some? {
        var key := VlanKey(group, vid.value);
        if key !in vlans && v.id !in faults.create {
          vlans := vlans[key := Vlan(v.name, v.status, site)];
        }
      }
    }

    /**
      The deletion loop over a Python set (any order): `nb.ipam.vlans.get(group_id, vid=c)` then
      `.delete()` in a try block; the counter counts the deletes that went through.
    */
    method DeleteCandidatesFromGroup(group: nat, candidates: set<string>, listing: seq<nat>, faults: Faults, ghost after: Table)
      returns (deleted: nat)
      requires vlans == after
      requires candidates <= Elements(VidStrings(listing))
      modifies this
      ensures vlans == DeleteVlans(after, group, candidates, faults)
      ensures deleted == |candidates - faults.delete|
    {
      deleted := 0;
      DeleteNothing(after, group, faults);
      var rest := candidates;
      ghost var done: set<string> := {};
      while rest != {}
        invariant done + rest == candidates && done !! rest
        invariant vlans == DeleteVlans(after, group, done, faults)
        invariant deleted == |done - faults.delete|
        decreases rest
      {
        var c :| c in rest;
        var gone := DeleteListed(group, c, listing, faults, after, done);
        if gone {
          deleted := deleted + 1;
        }
        rest := rest - {c};
        done := done + {c};
      }
      assert done == candidates;
    }

    /**
      One candidate: `nb.ipam.vlans.get(vid=..., group_id=...)` (outside the try, assumed not to
      raise), then `.delete()`, the only call inside the try block.
    */
    method DeleteListed(group: nat, c: string, listing: seq<nat>, faults: Faults, ghost after: Table, ghost done: set<string>)
      returns (gone: bool)
      requires c in VidStrings(listing)
      requires vlans == DeleteVlans(after, group, done, faults) && c !in done
      modifies this
      ensures vlans == DeleteVlans(after, group, done + {c}, faults)
      ensures gone == (c !in faults.delete)
      ensures |(done + {c}) - faults.delete| == |done - faults.delete| + (if gone then 1 else 0)
    {
      CountStep(done, c, faults.delete);
      ghost var listed := ListedVid(listing, c);
      var vid := ParseNat(c).value;
      DeleteStep(after, group, done, c, vid, faults);
      gone := c !in faults.delete;
      if gone {
        vlans := vlans - {VlanKey(group, vid)};
      }
    }
  }
}
