/** The check for colliding VNIs, VLAN ids and VLAN names over all managed devices. */
module VlanCollisions {
  import opened Common

  /** A vxlan of the settings; a field is None when it is missing or of the wrong type. */
  datatype Vxlan = Vxlan(vni: Option<int>, vlanId: Option<int>, vlanName: Option<string>)

  datatype InternalVlans = InternalVlans(low: Option<int>, high: Option<int>)

  datatype DeviceSettings = DeviceSettings(vxlans: Option<seq<(string, Vxlan)>>, internal: Option<InternalVlans>)

  datatype Conflict = VniReused | VlanIdReused | VlanIdTwiceOnDevice | VlanIdInternal | VlanNameTwiceOnDevice

  datatype Range = Range(start: int, stop: int) {
    predicate Contains(x: int) { start <= x < stop }
  }

  /** Inclusive of both ends, empty unless both are given. */
  function GetInternalVlanRange(settings: DeviceSettings): Range {
    match settings.internal
    case Some(InternalVlans(Some(low), Some(high))) => Range(low, high + 1)
    case _ => Range(0, 0)
  }

  // ------------------------------------------------------------------ the specification

  datatype Entry = Entry(host: string, name: string, vxlan: Vxlan, internal: Range)

  predicate HasVni(e: Entry) { e.vxlan.vni.Some? }
  predicate HasId(e: Entry) { HasVni(e) && e.vxlan.vlanId.Some? }
  predicate HasName(e: Entry) { HasId(e) && e.vxlan.vlanName.Some? }

  /** What the check is run against: management VLANs, access switches and whether VLAN ids are global. */
  datatype Rules = Rules(mgmtVlans: set<int>, access: set<string>, unique: bool)

  ghost predicate VniNames(es: set<Entry>) {
    forall e, f :: e in es && f in es && HasVni(e) && HasVni(f) && e.vxlan.vni == f.vxlan.vni ==> e.name == f.name
  }

  ghost predicate IdNames(es: set<Entry>, rules: Rules) {
    rules.unique ==>
      && (forall e, f :: e in es && f in es && HasId(e) && HasId(f) && e.vxlan.vlanId == f.vxlan.vlanId ==>
            e.name == f.name)
      && (forall e :: e in es && HasId(e) && e.vxlan.vlanId.value in rules.mgmtVlans ==> e.name == "management")
  }

  ghost predicate DistinctIds(es: set<Entry>) {
    forall e, f ::
      e in es && f in es && HasId(e) && HasId(f) && e.host == f.host && e.vxlan.vlanId == f.vxlan.vlanId ==> e == f
  }

  ghost predicate OutsideInternal(es: set<Entry>) {
    forall e :: e in es && HasId(e) ==> !e.internal.Contains(e.vxlan.vlanId.value)
  }

  ghost predicate DistinctNames(es: set<Entry>, rules: Rules) {
    forall e, f ::
      e in es && f in es && HasName(e) && HasName(f) && e.host == f.host && e.vxlan.vlanName == f.vxlan.vlanName
      ==> e.host !in rules.access || e == f
  }

  ghost predicate CollisionFree(es: set<Entry>, rules: Rules) {
    VniNames(es) && IdNames(es, rules) && DistinctIds(es) && OutsideInternal(es) && DistinctNames(es, rules)
  }

  /** The clause a conflict says is broken. */
  ghost predicate Holds(c: Conflict, es: set<Entry>, rules: Rules) {
    match c
    case VniReused => VniNames(es)
    case VlanIdReused => IdNames(es, rules)
    case VlanIdTwiceOnDevice => DistinctIds(es)
    case VlanIdInternal => OutsideInternal(es)
    case VlanNameTwiceOnDevice => DistinctNames(es, rules)
  }

  /** The rule that is reported when several are broken. */
  ghost function FirstBroken(es: set<Entry>, rules: Rules): Option<Conflict> {
    if !VniNames(es) then Some(VniReused)
    else if !IdNames(es, rules) then Some(VlanIdReused)
    else if !DistinctIds(es) then Some(VlanIdTwiceOnDevice)
    else if !OutsideInternal(es) then Some(VlanIdInternal)
    else if !DistinctNames(es, rules) then Some(VlanNameTwiceOnDevice)
    else None
  }

  // ---------------------------------------------------------------------- the accumulators

  datatype Seen = Seen(
    globalVlans: map<int, string>,
    globalVnis: map<int, string>,
    deviceVlanIds: map<string, set<int>>,
    deviceVlanNames: map<string, set<string>>)

  ghost predicate VnisTracked(vnis: map<int, string>, es: set<Entry>) {
    && (forall e :: e in es && HasVni(e) ==> e.vxlan.vni.value in vnis && vnis[e.vxlan.vni.value] == e.name)
    && (forall v :: v in vnis ==> exists e :: e in es && HasVni(e) && e.vxlan.vni.value == v)
  }

  ghost predicate VlansTracked(vlans: map<int, string>, es: set<Entry>, rules: Rules) {
    rules.unique ==>
      && (forall e :: e in es && HasId(e) ==> e.vxlan.vlanId.value in vlans && vlans[e.vxlan.vlanId.value] == e.name)
      && (forall v :: v in rules.mgmtVlans ==> v in vlans && vlans[v] == "management")
      && (forall v :: v in vlans ==>
            v in rules.mgmtVlans || exists e :: e in es && HasId(e) && e.vxlan.vlanId.value == v)
  }

  ghost predicate IdsTracked(ids: map<string, set<int>>, es: set<Entry>) {
    && (forall e :: e in es && HasId(e) ==> e.host in ids && e.vxlan.vlanId.value in ids[e.host])
    && (forall h, v :: h in ids && v in ids[h] ==>
          exists e :: e in es && HasId(e) && e.host == h && e.vxlan.vlanId.value == v)
  }

  ghost predicate NamesTracked(names: map<string, set<string>>, es: set<Entry>) {
    && (forall e :: e in es && HasName(e) ==> e.host in names && e.vxlan.vlanName.value in names[e.host])
    && (forall h, v :: h in names && v in names[h] ==>
          exists e :: e in es && HasName(e) && e.host == h && e.vxlan.vlanName.value == v)
  }

  ghost predicate Tracked(seen: Seen, es: set<Entry>, rules: Rules) {
    && VnisTracked(seen.globalVnis, es) && VlansTracked(seen.globalVlans, es, rules)
    && IdsTracked(seen.deviceVlanIds, es) && NamesTracked(seen.deviceVlanNames, es)
  }

  // ------------------------------------------------------------------------- the check

  method CheckVni(seen: Seen, e: Entry, ghost es: set<Entry>) returns (r: Result<Seen, Conflict>)
    requires HasVni(e) && VnisTracked(seen.globalVnis, es) && VniNames(es)
    ensures r.Ok? <==> VniNames(es + {e})
    ensures r.Err? ==> r.error == VniReused
    ensures r.Ok? ==> VnisTracked(r.value.globalVnis, es + {e}) && r.value == seen.(globalVnis := r.value.globalVnis)
  {
    var vni, vnis := e.vxlan.vni.value, seen.globalVnis;
    assert e in es + {e};
    if vni in vnis && vnis[vni] != e.name {
      ghost var f :| f in es && HasVni(f) && f.vxlan.vni.value == vni;
      assert f in es + {e};
      return Err(VniReused);
    } else if vni !in vnis {
      vnis := vnis[vni := e.name];
    }
    forall v | v in vnis ensures exists x :: x in es + {e} && HasVni(x) && x.vxlan.vni.value == v {
      if v in seen.globalVnis {
        var x :| x in es && HasVni(x) && x.vxlan.vni.value == v;
        assert x in es + {e};
      }
    }
    return Ok(seen.(globalVnis := vnis));
  }

  method CheckVlanId(seen: Seen, e: Entry, rules: Rules, ghost es: set<Entry>) returns (r: Result<Seen, Conflict>)
    requires HasId(e) && e !in es && VlansTracked(seen.globalVlans, es, rules) && IdsTracked(seen.deviceVlanIds, es)
    requires IdNames(es, rules) && DistinctIds(es) && OutsideInternal(es)
    ensures r.Ok? <==> IdNames(es + {e}, rules) && DistinctIds(es + {e}) && OutsideInternal(es + {e})
    ensures r.Err? ==>
              r.error == if !IdNames(es + {e}, rules) then VlanIdReused
                         else if !DistinctIds(es + {e}) then VlanIdTwiceOnDevice else VlanIdInternal
    ensures r.Ok? ==> VlansTracked(r.value.globalVlans, es + {e}, rules) && IdsTracked(r.value.deviceVlanIds, es + {e})
    ensures r.Ok? ==> r.value == seen.(globalVlans := r.value.globalVlans, deviceVlanIds := r.value.deviceVlanIds)
  {
    var id, ids := e.vxlan.vlanId.value, seen.deviceVlanIds;
    ReusedIff(seen, e, rules, es);
    TwiceIff(seen, e, es);
    InternalIff(e, es);
    if rules.unique && id in seen.globalVlans && seen.globalVlans[id] != e.name {
      return Err(VlanIdReused);
    } else if e.host in ids && id in ids[e.host] {
      return Err(VlanIdTwiceOnDevice);
    } else if e.host in ids {
      ids := ids[e.host := ids[e.host] + {id}];
    } else {
      ids := ids[e.host := {id}];
    }
    IdsGrow(seen, e, es);
    if e.internal.Contains(id) { return Err(VlanIdInternal); }
    VlansGrow(seen, e, rules, es);
    return Ok(seen.(globalVlans := seen.globalVlans[id := e.name], deviceVlanIds := ids));
  }

  lemma ReusedIff(seen: Seen, e: Entry, rules: Rules, es: set<Entry>)
    requires HasId(e) && VlansTracked(seen.globalVlans, es, rules) && IdNames(es, rules)
    ensures IdNames(es + {e}, rules) <==>
            var id := e.vxlan.vlanId.value; rules.unique && id in seen.globalVlans ==> seen.globalVlans[id] == e.name
  {
    var id := e.vxlan.vlanId.value;
    assert e in es + {e};
    if rules.unique && id in seen.globalVlans && seen.globalVlans[id] != e.name && id !in rules.mgmtVlans {
      var f :| f in es && HasId(f) && f.vxlan.vlanId.value == id;
      assert f in es + {e};
    }
  }

  lemma TwiceIff(seen: Seen, e: Entry, es: set<Entry>)
    requires HasId(e) && e !in es && IdsTracked(seen.deviceVlanIds, es) && DistinctIds(es)
    ensures DistinctIds(es + {e}) <==>
            (e.host in seen.deviceVlanIds ==> e.vxlan.vlanId.value !in seen.deviceVlanIds[e.host])
  {
    var id, ids := e.vxlan.vlanId.value, seen.deviceVlanIds;
    assert e in es + {e};
    if e.host in ids && id in ids[e.host] {
      var f :| f in es && HasId(f) && f.host == e.host && f.vxlan.vlanId.value == id;
      assert f in es + {e};
    }
  }

  lemma InternalIff(e: Entry, es: set<Entry>)
    requires HasId(e) && OutsideInternal(es)
    ensures OutsideInternal(es + {e}) <==> !e.internal.Contains(e.vxlan.vlanId.value)
  {
    assert e in es + {e};
  }

  lemma IdsGrow(seen: Seen, e: Entry, es: set<Entry>)
    requires HasId(e) && IdsTracked(seen.deviceVlanIds, es)
    ensures var was := if e.host in seen.deviceVlanIds then seen.deviceVlanIds[e.host] else {};
            IdsTracked(seen.deviceVlanIds[e.host := was + {e.vxlan.vlanId.value}], es + {e})
  {
    var was := if e.host in seen.deviceVlanIds then seen.deviceVlanIds[e.host] else {};
    var ids := seen.deviceVlanIds[e.host := was + {e.vxlan.vlanId.value}];
    forall h, v | h in ids && v in ids[h]
      ensures exists x :: x in es + {e} && HasId(x) && x.host == h && x.vxlan.vlanId.value == v
    {
      if h in seen.deviceVlanIds && v in seen.deviceVlanIds[h] {
        var x :| x in es && HasId(x) && x.host == h && x.vxlan.vlanId.value == v;
        assert x in es + {e};
      } else {
        assert e in es + {e};
      }
    }
  }

  lemma VlansGrow(seen: Seen, e: Entry, rules: Rules, es: set<Entry>)
    requires HasId(e) && VlansTracked(seen.globalVlans, es, rules)
    requires var id := e.vxlan.vlanId.value; rules.unique && id in seen.globalVlans ==> seen.globalVlans[id] == e.name
    ensures VlansTracked(seen.globalVlans[e.vxlan.vlanId.value := e.name], es + {e}, rules)
  {
    var vlans := seen.globalVlans[e.vxlan.vlanId.value := e.name];
    if rules.unique {
      forall v | v in vlans && v !in rules.mgmtVlans
        ensures exists x :: x in es + {e} && HasId(x) && x.vxlan.vlanId.value == v
      {
        if v in seen.globalVlans {
          var x :| x in es && HasId(x) && x.vxlan.vlanId.value == v;
          assert x in es + {e};
        } else {
          assert e in es + {e};
        }
      }
    }
  }

  method CheckVlanName(seen: Seen, e: Entry, rules: Rules, ghost es: set<Entry>) returns (r: Result<Seen, Conflict>)
    requires HasName(e) && e !in es && NamesTracked(seen.deviceVlanNames, es) && DistinctNames(es, rules)
    ensures r.Ok? <==> DistinctNames(es + {e}, rules)
    ensures r.Err? ==> r.error == VlanNameTwiceOnDevice
    ensures r.Ok? ==> NamesTracked(r.value.deviceVlanNames, es + {e})
    ensures r.Ok? ==> r.value == seen.(deviceVlanNames := r.value.deviceVlanNames)
  {
    var name, names := e.vxlan.vlanName.value, seen.deviceVlanNames;
    assert e in es + {e};
    if e.host in names && name in names[e.host] && e.host in rules.access {
      ghost var f :| f in es && HasName(f) && f.host == e.host && f.vxlan.vlanName.value == name;
      assert f in es + {e};
      return Err(VlanNameTwiceOnDevice);
    } else if e.host in names {
      names := names[e.host := names[e.host] + {name}];
    } else {
      names := names[e.host := {name}];
    }
    forall h, v | h in names && v in names[h]
      ensures exists x :: x in es + {e} && HasName(x) && x.host == h && x.vxlan.vlanName.value == v
    {
      if h in seen.deviceVlanNames && v in seen.deviceVlanNames[h] {
        var x :| x in es && HasName(x) && x.host == h && x.vxlan.vlanName.value == v;
        assert x in es + {e};
      }
    }
    return Ok(seen.(deviceVlanNames := names));
  }

  /** A vxlan without a VNI, VLAN id or VLAN name leaves the parts it does not reach as they are. */
  lemma WithoutVni(seen: Seen, e: Entry, es: set<Entry>)
    requires !HasVni(e)
    ensures VniNames(es) ==> VniNames(es + {e})
    ensures VnisTracked(seen.globalVnis, es) ==> VnisTracked(seen.globalVnis, es + {e})
  {
    assert forall x :: x in es ==> x in es + {e};
  }

  lemma WithoutId(seen: Seen, e: Entry, rules: Rules, es: set<Entry>)
    requires !HasId(e)
    ensures IdNames(es, rules) ==> IdNames(es + {e}, rules)
    ensures DistinctIds(es) ==> DistinctIds(es + {e})
    ensures OutsideInternal(es) ==> OutsideInternal(es + {e})
    ensures VlansTracked(seen.globalVlans, es, rules) ==> VlansTracked(seen.globalVlans, es + {e}, rules)
    ensures IdsTracked(seen.deviceVlanIds, es) ==> IdsTracked(seen.deviceVlanIds, es + {e})
  {
    assert forall x :: x in es ==> x in es + {e};
  }

  lemma WithoutName(seen: Seen, e: Entry, rules: Rules, es: set<Entry>)
    requires !HasName(e)
    ensures DistinctNames(es, rules) ==> DistinctNames(es + {e}, rules)
    ensures NamesTracked(seen.deviceVlanNames, es) ==> NamesTracked(seen.deviceVlanNames, es + {e})
  {
    assert forall x :: x in es ==> x in es + {e};
  }

  /** One vxlan of one device: each part is reached only when the fields it needs are there. */
  method CheckVxlan(seen: Seen, e: Entry, rules: Rules, ghost es: set<Entry>) returns (r: Result<Seen, Conflict>)
    requires e !in es && Tracked(seen, es, rules) && CollisionFree(es, rules)
    ensures r.Ok? <==> CollisionFree(es + {e}, rules)
    ensures r.Ok? ==> Tracked(r.value, es + {e}, rules)
    ensures r.Err? ==> FirstBroken(es + {e}, rules) == Some(r.error)
  {
    if e.vxlan.vni.None? {
      WithoutVni(seen, e, es);
      WithoutId(seen, e, rules, es);
      WithoutName(seen, e, rules, es);
      return Ok(seen);
    }
    var afterVni := CheckVni(seen, e, es);
    if afterVni.Err? { return afterVni; }
    if e.vxlan.vlanId.None? {
      WithoutId(afterVni.value, e, rules, es);
      WithoutName(afterVni.value, e, rules, es);
      return afterVni;
    }
    var afterId := CheckVlanId(afterVni.value, e, rules, es);
    if afterId.Err? { return afterId; }
    if e.vxlan.vlanName.None? {
      WithoutName(afterId.value, e, rules, es);
      return afterId;
    }
    var afterName := CheckVlanName(afterId.value, e, rules, es);
    return afterName;
  }

  // --------------------------------------------------------------------- all the devices

  function VxlansOf(settings: DeviceSettings): seq<(string, Vxlan)> {
    match settings.vxlans case Some(vs) => vs case None => []
  }

  function EntryOf(device: (string, DeviceSettings), vxlan: (string, Vxlan)): Entry {
    Entry(device.0, vxlan.0, vxlan.1, GetInternalVlanRange(device.1))
  }

  /** Everything the settings of the devices define. */
  ghost function Entries(devices: seq<(string, DeviceSettings)>): set<Entry> {
    set i, j | 0 <= i < |devices| && 0 <= j < |VxlansOf(devices[i].1)| :: EntryOf(devices[i], VxlansOf(devices[i].1)[j])
  }

  ghost function EntriesUpTo(devices: seq<(string, DeviceSettings)>, n: nat, m: nat): set<Entry>
    requires n <= |devices|
  {
    set i, j | 0 <= i < |devices| && 0 <= j < |VxlansOf(devices[i].1)| && (i < n || (i == n && j < m))
      :: EntryOf(devices[i], VxlansOf(devices[i].1)[j])
  }

  /** Both levels are dictionaries: host names differ, and so do the vxlan names of one device. */
  ghost predicate Keyed(devices: seq<(string, DeviceSettings)>) {
    && (forall i, j :: 0 <= i < j < |devices| ==> devices[i].0 != devices[j].0)
    && (forall k :: 0 <= k < |devices| ==>
          forall i, j :: 0 <= i < j < |VxlansOf(devices[k].1)| ==>
            VxlansOf(devices[k].1)[i].0 != VxlansOf(devices[k].1)[j].0)
  }

  lemma FewerConflicts(small: set<Entry>, large: set<Entry>, rules: Rules, c: Conflict)
    requires small <= large && Holds(c, large, rules)
    ensures Holds(c, small, rules)
  {
  }

  lemma NextEntry(devices: seq<(string, DeviceSettings)>, i: nat, j: nat)
    requires Keyed(devices) && i < |devices| && j < |VxlansOf(devices[i].1)|
    ensures var e := EntryOf(devices[i], VxlansOf(devices[i].1)[j]);
            e !in EntriesUpTo(devices, i, j) && EntriesUpTo(devices, i, j + 1) == EntriesUpTo(devices, i, j) + {e}
  {
  }

  lemma NextDevice(devices: seq<(string, DeviceSettings)>, i: nat)
    requires i < |devices|
    ensures EntriesUpTo(devices, i, |VxlansOf(devices[i].1)|) == EntriesUpTo(devices, i + 1, 0)
  {
  }

  lemma Rejected(devices: seq<(string, DeviceSettings)>, n: nat, m: nat, c: Conflict, rules: Rules)
    requires FailsAt(devices, rules, n, m, c)
    ensures !Holds(c, Entries(devices), rules) && !CollisionFree(Entries(devices), rules)
    ensures exists i, j :: FailsAt(devices, rules, i, j, c)
  {
    assert !Holds(c, EntriesUpTo(devices, n, m + 1), rules);
    if Holds(c, Entries(devices), rules) {
      FewerConflicts(EntriesUpTo(devices, n, m + 1), Entries(devices), rules, c);
    }
  }

  /** Nothing collides before vxlan m of device n, and with it the reported rule is the first one broken. */
  ghost predicate FailsAt(devices: seq<(string, DeviceSettings)>, rules: Rules, n: nat, m: nat, c: Conflict) {
    && n < |devices| && m < |VxlansOf(devices[n].1)| && CollisionFree(EntriesUpTo(devices, n, m), rules)
    && FirstBroken(EntriesUpTo(devices, n, m + 1), rules) == Some(c)
  }

  /** The vxlans of device i. */
  method CheckDevice(devices: seq<(string, DeviceSettings)>, i: nat, start: Seen, rules: Rules)
    returns (r: Result<Seen, Conflict>)
    requires Keyed(devices) && i < |devices|
    requires Tracked(start, EntriesUpTo(devices, i, 0), rules) && CollisionFree(EntriesUpTo(devices, i, 0), rules)
    ensures r.Err? ==> exists m :: FailsAt(devices, rules, i, m, r.error)
    ensures r.Ok? ==>
              && Tracked(r.value, EntriesUpTo(devices, i + 1, 0), rules)
              && CollisionFree(EntriesUpTo(devices, i + 1, 0), rules)
  {
    NextDevice(devices, i);
    if devices[i].1.vxlans.None? { return Ok(start); }
    var vxlans, seen := devices[i].1.vxlans.value, start;
    for j := 0 to |vxlans|
      invariant Tracked(seen, EntriesUpTo(devices, i, j), rules) && CollisionFree(EntriesUpTo(devices, i, j), rules)
    {
      NextEntry(devices, i, j);
      var next := CheckVxlan(seen, EntryOf(devices[i], vxlans[j]), rules, EntriesUpTo(devices, i, j));
      if next.Err? {
        assert FailsAt(devices, rules, i, j, next.error);
        return next;
      }
      seen := next.value;
    }
    return Ok(seen);
  }

  method CheckVlanCollisions(devices: seq<(string, DeviceSettings)>, rules: Rules) returns (r: Result<(), Conflict>)
    requires Keyed(devices)
    ensures r.Ok? <==> CollisionFree(Entries(devices), rules)
    ensures r.Err? ==> !Holds(r.error, Entries(devices), rules)
    ensures r.Err? ==> exists n, m :: FailsAt(devices, rules, n, m, r.error)
  {
    var seen := Seen(map v | v in rules.mgmtVlans :: "management", map[], map[], map[]);
    assert EntriesUpTo(devices, 0, 0) == {};
    for i := 0 to |devices|
      invariant Tracked(seen, EntriesUpTo(devices, i, 0), rules) && CollisionFree(EntriesUpTo(devices, i, 0), rules)
    {
      var next := CheckDevice(devices, i, seen, rules);
      if next.Err? {
        ghost var m :| FailsAt(devices, rules, i, m, next.error);
        Rejected(devices, i, m, next.error, rules);
        return Err(next.error);
      }
      seen := next.value;
    }
    assert EntriesUpTo(devices, |devices|, 0) == Entries(devices);
    return Ok(());
  }

  /** Every device of a is in b with the same vxlans in some order and the same internal range. */
  ghost predicate Within(a: seq<(string, DeviceSettings)>, b: seq<(string, DeviceSettings)>) {
    forall i :: 0 <= i < |a| ==> exists k :: 0 <= k < |b| && SameDevice(a[i], b[k])
  }

  ghost predicate SameDevice(x: (string, DeviceSettings), y: (string, DeviceSettings)) {
    && x.0 == y.0 && GetInternalVlanRange(x.1) == GetInternalVlanRange(y.1)
    && forall v :: v in VxlansOf(x.1) <==> v in VxlansOf(y.1)
  }

  lemma WithinEntries(a: seq<(string, DeviceSettings)>, b: seq<(string, DeviceSettings)>)
    requires Within(a, b)
    ensures Entries(a) <= Entries(b)
  {
    forall e | e in Entries(a) ensures e in Entries(b) {
      var i, j :| 0 <= i < |a| && 0 <= j < |VxlansOf(a[i].1)| && e == EntryOf(a[i], VxlansOf(a[i].1)[j]);
      var k :| 0 <= k < |b| && SameDevice(a[i], b[k]);
      assert VxlansOf(a[i].1)[j] in VxlansOf(b[k].1);
      var n :| 0 <= n < |VxlansOf(b[k].1)| && VxlansOf(b[k].1)[n] == VxlansOf(a[i].1)[j];
      assert e == EntryOf(b[k], VxlansOf(b[k].1)[n]);
    }
  }

  /** Dropping devices keeps a configuration accepted, and reordering devices or vxlans never matters. */
  lemma VerdictIgnoresOrder(a: seq<(string, DeviceSettings)>, b: seq<(string, DeviceSettings)>, rules: Rules)
    requires Within(a, b)
    ensures CollisionFree(Entries(b), rules) ==> CollisionFree(Entries(a), rules)
    ensures Within(b, a) ==> (CollisionFree(Entries(a), rules) <==> CollisionFree(Entries(b), rules))
  {
    WithinEntries(a, b);
    if Within(b, a) { WithinEntries(b, a); }
  }

  // --------------------------------------------------- the rules over the settings themselves

  /** Vxlan j of device i is there. */
  predicate IsAt(devices: seq<(string, DeviceSettings)>, i: int, j: int) {
    0 <= i < |devices| && devices[i].1.vxlans.Some? && 0 <= j < |devices[i].1.vxlans.value|
  }

  function NameAt(devices: seq<(string, DeviceSettings)>, i: int, j: int): string
    requires IsAt(devices, i, j)
  {
    devices[i].1.vxlans.value[j].0
  }

  function VxlanAt(devices: seq<(string, DeviceSettings)>, i: int, j: int): Vxlan
    requires IsAt(devices, i, j)
  {
    devices[i].1.vxlans.value[j].1
  }

  predicate VniAt(devices: seq<(string, DeviceSettings)>, i: int, j: int) {
    IsAt(devices, i, j) && VxlanAt(devices, i, j).vni.Some?
  }

  /** A VLAN id counts only next to a VNI, and a VLAN name only next to both. */
  predicate IdAt(devices: seq<(string, DeviceSettings)>, i: int, j: int) {
    VniAt(devices, i, j) && VxlanAt(devices, i, j).vlanId.Some?
  }

  predicate VlanNameAt(devices: seq<(string, DeviceSettings)>, i: int, j: int) {
    IdAt(devices, i, j) && VxlanAt(devices, i, j).vlanName.Some?
  }

  /** One vxlan name for each VNI, over all devices. */
  ghost predicate OneNamePerVni(devices: seq<(string, DeviceSettings)>) {
    forall i, j, k, l ::
      VniAt(devices, i, j) && VniAt(devices, k, l) && VxlanAt(devices, i, j).vni == VxlanAt(devices, k, l).vni
      ==> NameAt(devices, i, j) == NameAt(devices, k, l)
  }

  /** One vxlan name for each VLAN id over all devices, "management" for management VLANs. */
  ghost predicate OneNamePerId(devices: seq<(string, DeviceSettings)>, mgmtVlans: set<int>) {
    && (forall i, j, k, l ::
          IdAt(devices, i, j) && IdAt(devices, k, l) && VxlanAt(devices, i, j).vlanId == VxlanAt(devices, k, l).vlanId
          ==> NameAt(devices, i, j) == NameAt(devices, k, l))
    && (forall i, j :: IdAt(devices, i, j) && VxlanAt(devices, i, j).vlanId.value in mgmtVlans ==>
          NameAt(devices, i, j) == "management")
  }

  ghost predicate IdOncePerDevice(devices: seq<(string, DeviceSettings)>) {
    forall i, j, l ::
      IdAt(devices, i, j) && IdAt(devices, i, l) && VxlanAt(devices, i, j).vlanId == VxlanAt(devices, i, l).vlanId
      ==> j == l
  }

  /** No VLAN id lies in the internal range of its device, the ends of the range included. */
  ghost predicate NoneInternal(devices: seq<(string, DeviceSettings)>) {
    forall i, j :: IdAt(devices, i, j) ==>
      match devices[i].1.internal
      case Some(InternalVlans(Some(low), Some(high))) => !(low <= VxlanAt(devices, i, j).vlanId.value <= high)
      case _ => true
  }

  ghost predicate NameOncePerAccess(devices: seq<(string, DeviceSettings)>, access: set<string>) {
    forall i, j, l ::
      VlanNameAt(devices, i, j) && VlanNameAt(devices, i, l) && devices[i].0 in access
      && VxlanAt(devices, i, j).vlanName == VxlanAt(devices, i, l).vlanName
      ==> j == l
  }

  ghost function EntryAt(devices: seq<(string, DeviceSettings)>, i: int, j: int): Entry
    requires IsAt(devices, i, j)
  {
    EntryOf(devices[i], devices[i].1.vxlans.value[j])
  }

  lemma EntriesAre(devices: seq<(string, DeviceSettings)>)
    ensures forall i, j :: IsAt(devices, i, j) ==> EntryAt(devices, i, j) in Entries(devices)
    ensures forall e :: e in Entries(devices) ==> exists i, j :: IsAt(devices, i, j) && EntryAt(devices, i, j) == e
  {
    forall i, j | IsAt(devices, i, j) ensures EntryAt(devices, i, j) in Entries(devices) {
      assert VxlansOf(devices[i].1)[j] == devices[i].1.vxlans.value[j];
    }
    forall e | e in Entries(devices) ensures exists i, j :: IsAt(devices, i, j) && EntryAt(devices, i, j) == e {
      var i, j :| && 0 <= i < |devices| && 0 <= j < |VxlansOf(devices[i].1)|
                  && e == EntryOf(devices[i], VxlansOf(devices[i].1)[j]);
      assert IsAt(devices, i, j) && EntryAt(devices, i, j) == e;
    }
  }

  lemma EntryIs(devices: seq<(string, DeviceSettings)>, i: int, j: int)
    requires IsAt(devices, i, j)
    ensures var e := EntryAt(devices, i, j);
            && e.host == devices[i].0 && e.name == NameAt(devices, i, j) && e.vxlan == VxlanAt(devices, i, j)
            && (HasVni(e) <==> VniAt(devices, i, j)) && (HasId(e) <==> IdAt(devices, i, j))
            && (HasName(e) <==> VlanNameAt(devices, i, j))
            && (forall x :: e.internal.Contains(x) <==>
                  match devices[i].1.internal
                  case Some(InternalVlans(Some(low), Some(high))) => low <= x <= high
                  case _ => false)
  {
  }

  lemma SameEntry(devices: seq<(string, DeviceSettings)>, i: int, j: int, k: int, l: int)
    requires Keyed(devices) && IsAt(devices, i, j) && IsAt(devices, k, l)
    ensures EntryAt(devices, i, j).host == EntryAt(devices, k, l).host <==> i == k
    ensures EntryAt(devices, i, j) == EntryAt(devices, k, l) <==> i == k && j == l
  {
    if i == k && j < l { assert VxlansOf(devices[i].1)[j].0 != VxlansOf(devices[i].1)[l].0; }
    if i == k && l < j { assert VxlansOf(devices[i].1)[l].0 != VxlansOf(devices[i].1)[j].0; }
  }

  lemma VniRule(devices: seq<(string, DeviceSettings)>)
    ensures VniNames(Entries(devices)) <==> OneNamePerVni(devices)
  {
    EntriesAre(devices);
    forall i, j | IsAt(devices, i, j) { EntryIs(devices, i, j); }
  }

  lemma IdRule(devices: seq<(string, DeviceSettings)>, rules: Rules)
    ensures IdNames(Entries(devices), rules) <==> (rules.unique ==> OneNamePerId(devices, rules.mgmtVlans))
  {
    EntriesAre(devices);
    forall i, j | IsAt(devices, i, j) { EntryIs(devices, i, j); }
  }

  lemma OnceRule(devices: seq<(string, DeviceSettings)>)
    requires Keyed(devices)
    ensures DistinctIds(Entries(devices)) <==> IdOncePerDevice(devices)
  {
    EntriesAre(devices);
    forall i, j | IsAt(devices, i, j) { EntryIs(devices, i, j); }
    forall i, j, k, l | IsAt(devices, i, j) && IsAt(devices, k, l) { SameEntry(devices, i, j, k, l); }
  }

  lemma InternalRule(devices: seq<(string, DeviceSettings)>)
    ensures OutsideInternal(Entries(devices)) <==> NoneInternal(devices)
  {
    EntriesAre(devices);
    forall i, j | IsAt(devices, i, j) { EntryIs(devices, i, j); }
  }

  lemma NameRule(devices: seq<(string, DeviceSettings)>, rules: Rules)
    requires Keyed(devices)
    ensures DistinctNames(Entries(devices), rules) <==> NameOncePerAccess(devices, rules.access)
  {
    EntriesAre(devices);
    forall i, j | IsAt(devices, i, j) { EntryIs(devices, i, j); }
    forall i, j, k, l | IsAt(devices, i, j) && IsAt(devices, k, l) { SameEntry(devices, i, j, k, l); }
  }

  /** The five rules over the settings of the devices, without the check's own terms. */
  lemma AcceptedIff(devices: seq<(string, DeviceSettings)>, rules: Rules)
    requires Keyed(devices)
    ensures CollisionFree(Entries(devices), rules) <==>
            && OneNamePerVni(devices) && (rules.unique ==> OneNamePerId(devices, rules.mgmtVlans))
            && IdOncePerDevice(devices) && NoneInternal(devices) && NameOncePerAccess(devices, rules.access)
  {
    VniRule(devices);
    IdRule(devices, rules);
    OnceRule(devices);
    InternalRule(devices);
    NameRule(devices, rules);
  }
}
