/** Where each file of a host stands in the order of reading, under which name, and how it is filtered. */
module SettingsOrder {
  import opened Common
  import opened FilterYaml
  import opened MergeDict
  import opened Settings
  import opened SettingsInheritance

  /** The place of a file: global, fabric, type, the late global files, the group, the device or its model. */
  function Place(p: Path): nat
    requires |p| > 1
  {
    if p[0] == "global" then
      if p[1] == "base_system.yml" then 0 else if p[1] == "routing.yml" then 3 else 4
    else if p[0] == "fabric" then 1
    else if p[0] == "groups" then 5 + PlaceInDir(p)
    else if p[0] == "devices" then 8 + PlaceInDir(p)
    else if p[1] == "base_system.yml" then 2
    else 11
  }

  function PlaceInDir(p: Path): nat
    requires |p| > 1
  {
    if |p| < 3 || p[2] == "base_system.yml" then 0 else if p[2] == "interfaces.yml" then 1 else 2
  }

  ghost predicate InOrder(files: seq<Read>) {
    && (forall i :: 0 <= i < |files| ==> |files[i].path| > 1)
    && (forall i, j :: 0 <= i < j < |files| ==> Place(files[i].path) < Place(files[j].path))
  }

  ghost predicate PlacedWithin(files: seq<Read>, lo: nat, hi: nat) {
    forall i :: 0 <= i < |files| ==> |files[i].path| > 1 && lo <= Place(files[i].path) <= hi
  }

  lemma OrderedAppend(a: seq<Read>, b: seq<Read>, m: nat, lo: nat, hi: nat)
    requires InOrder(a) && InOrder(b) && lo <= m < hi && PlacedWithin(a, lo, m) && PlacedWithin(b, m + 1, hi)
    ensures InOrder(a + b) && PlacedWithin(a + b, lo, hi)
  {
    assert forall i :: 0 <= i < |a + b| ==> (a + b)[i] == if i < |a| then a[i] else b[i - |a|];
  }

  lemma UpperInOrder(host: Host, t: DevType, groups: set<string>)
    ensures InOrder(UpperReads(host, t, groups)) && PlacedWithin(UpperReads(host, t, groups), 0, 4)
  {
    var files := UpperReads(host, t, groups);
    var last := |files| - 1;
    assert files[0].path == ["global", "base_system.yml"];
    assert files[last - 1].path == ["global", "routing.yml"] && files[last].path == ["global", "vxlans.yml"];
    assert Fabric(t) ==> files[1].path == ["fabric", "base_system.yml"];
    assert t != UNKNOWN ==> files[last - 2].path == [TypeDir(t), "base_system.yml"];
    assert |files| == (if t == UNKNOWN then 3 else if Fabric(t) then 5 else 4);
  }

  lemma ThreeInOrder(files: seq<Read>, top: string, name: string)
    requires |files| == 3 && top in {"groups", "devices"} && files[0].path == [top, name, "base_system.yml"]
    requires files[1].path == [top, name, "interfaces.yml"] && files[2].path == [top, name, "routing.yml"]
    ensures var first := if top == "groups" then 5 else 8; InOrder(files) && PlacedWithin(files, first, first + 2)
  {
  }

  lemma ModelIsLast(r: Read, t: DevType, rest: string)
    requires Fabric(t) && r.path == [TypeDir(t), "interfaces_" + rest]
    ensures Place(r.path) == 11
  {
    assert r.path[1][0] == 'i' && "base_system.yml"[0] == 'b';
  }

  lemma DeviceInOrder(w: World, repo: Repo, host: Host, t: DevType, model: string, groups: set<string>)
    ensures var files := DeviceReads(w, repo, host, t, model, groups); InOrder(files) && PlacedWithin(files, 8, 11)
  {
    var files := DeviceReads(w, repo, host, t, model, groups);
    if IsDir(repo, ["devices", host]) {
      ThreeInOrder(files, "devices", host);
    } else if UsesModelFile(w, repo, host, t, model) {
      assert "interfaces_" + w.lower(model) + ".yml" == "interfaces_" + (w.lower(model) + ".yml");
      ModelIsLast(files[0], t, w.lower(model) + ".yml");
    }
  }

  /** Every file is read in its place, and no place is taken twice. */
  lemma ReadInOrder(w: World, repo: Repo, host: Host, t: DevType, model: string)
    requires GROUPS_FILE in repo
    ensures InOrder(Files(w, repo, host, t, model))
  {
    var groups, primary := w.groupsOf(repo[GROUPS_FILE], host), Primary(w, repo, host);
    var g, d := GroupReads(repo, primary), DeviceReads(w, repo, host, t, model, groups);
    UpperInOrder(host, t, groups);
    if g != [] { ThreeInOrder(g, "groups", primary); }
    DeviceInOrder(w, repo, host, t, model, groups);
    OrderedAppend(g, d, 7, 5, 11);
    OrderedAppend(UpperReads(host, t, groups), g + d, 4, 0, 11);
  }

  /**
   A distribution or core switch without a directory of its own reads its model file last, if there
   is one under the sanitized name.
   */
  lemma ModelFileIsRead(w: World, repo: Repo, host: Host, t: DevType, model: string, dir: string)
    requires GROUPS_FILE in repo && !IsDir(repo, ["devices", host]) && model != ""
    requires (t == DIST && dir == "dist") || (t == CORE && dir == "core")
    requires [dir, "interfaces_" + w.sanitize(model) + ".yml"] in repo
    ensures var files := Files(w, repo, host, t, model);
            && files != []
            && files[|files| - 1] == Read([dir, "interfaces_" + w.lower(model) + ".yml"],
                                          dir + "->interfaces_" + w.sanitize(model) + ".yml", None)
  {
    var groups := w.groupsOf(repo[GROUPS_FILE], host);
    var d := DeviceReads(w, repo, host, t, model, groups);
    assert |d| == 1;
    assert Files(w, repo, host, t, model)[|Files(w, repo, host, t, model)| - 1] == d[0];
  }

  // ----------------------------------------------------------------- names and filters

  /** The name a file is read under. */
  ghost predicate Named(r: Read, sanitized: string) {
    && |r.path| > 1
    && (r.path[0] == "global" ==> r.name == "global->" + r.path[1])
    && (r.path[0] == "fabric" ==> r.name == "fabric->base_system.yml")
    && (r.path[0] == "groups" ==> r.name == "groups->" + r.path[1] + "->base_system.yml")
    && (r.path[0] == "devices" ==> |r.path| == 3 && r.name == "device->" + r.path[1] + "->" + r.path[2])
    && (r.path[0] in {"access", "dist", "core"} ==>
          r.name == if r.path[1] == "base_system.yml" then "devicetype->base_system.yml"
                    else r.path[0] + "->interfaces_" + sanitized + ".yml")
  }

  /** Global files and the routing file of the device are filtered for the groups, vxlans for the host as well. */
  ghost predicate FilteredAs(r: Read, host: Host, groups: set<string>) {
    && |r.path| > 1
    && var vxlans := r.path == ["global", "vxlans.yml"];
    && var routing := |r.path| == 3 && r.path[0] == "devices" && r.path[2] == "routing.yml";
    && (r.target.Some? <==> vxlans || (groups != {} && (r.path[0] == "global" || routing)))
    && (r.target.Some? ==> r.target.value == Target(groups, if vxlans then Some(host) else None))
  }

  /** The five reads of the upper part. */
  ghost predicate IsUpperRead(r: Read, host: Host, t: DevType, groups: set<string>) {
    || r == Read(["global", "base_system.yml"], "global->base_system.yml", Select(groups, None))
    || r == Read(["fabric", "base_system.yml"], "fabric->base_system.yml", None)
    || (t != UNKNOWN && r == Read([TypeDir(t), "base_system.yml"], "devicetype->base_system.yml", None))
    || r == Read(["global", "routing.yml"], "global->routing.yml", Select(groups, None))
    || r == Read(["global", "vxlans.yml"], "global->vxlans.yml", Select(groups, Some(host)))
  }

  lemma UpperIsOneOf(host: Host, t: DevType, groups: set<string>, i: nat)
    requires i < |UpperReads(host, t, groups)|
    ensures IsUpperRead(UpperReads(host, t, groups)[i], host, t, groups)
  {
  }

  lemma GlobalNames()
    ensures "global->" + "base_system.yml" == "global->base_system.yml"
    ensures "global->" + "routing.yml" == "global->routing.yml"
    ensures "global->" + "vxlans.yml" == "global->vxlans.yml"
  {
  }

  lemma UpperAsNamed(r: Read, host: Host, t: DevType, groups: set<string>, sanitized: string)
    requires IsUpperRead(r, host, t, groups)
    ensures Named(r, sanitized) && FilteredAs(r, host, groups)
  {
    GlobalNames();
  }

  lemma GroupAsNamed(repo: Repo, primary: string, i: nat, host: Host, groups: set<string>, sanitized: string)
    requires i < |GroupReads(repo, primary)|
    ensures Named(GroupReads(repo, primary)[i], sanitized) && FilteredAs(GroupReads(repo, primary)[i], host, groups)
  {
  }

  lemma DeviceAsNamed(w: World, repo: Repo, host: Host, t: DevType, model: string, groups: set<string>, i: nat)
    requires i < |DeviceReads(w, repo, host, t, model, groups)|
    ensures var r := DeviceReads(w, repo, host, t, model, groups)[i];
            Named(r, w.sanitize(model)) && FilteredAs(r, host, groups)
  {
    var r := DeviceReads(w, repo, host, t, model, groups)[i];
    if IsDir(repo, ["devices", host]) {
      assert r.path[2] == ["base_system.yml", "interfaces.yml", "routing.yml"][i];
      assert "device->" + host + "->" + r.path[2]
          == "device->" + host + ["->base_system.yml", "->interfaces.yml", "->routing.yml"][i];
    } else {
      assert "interfaces_" + w.lower(model) + ".yml" == "interfaces_" + (w.lower(model) + ".yml");
      ModelIsLast(r, t, w.lower(model) + ".yml");
    }
  }

  /** The names under which files are recorded and whom they are filtered for. */
  lemma NamedAndFiltered(w: World, repo: Repo, host: Host, t: DevType, model: string, i: nat)
    requires GROUPS_FILE in repo && i < |Files(w, repo, host, t, model)|
    ensures var r := Files(w, repo, host, t, model)[i];
            Named(r, w.sanitize(model)) && FilteredAs(r, host, w.groupsOf(repo[GROUPS_FILE], host))
  {
    var groups, primary := w.groupsOf(repo[GROUPS_FILE], host), Primary(w, repo, host);
    var u, g := UpperReads(host, t, groups), GroupReads(repo, primary);
    var r := Files(w, repo, host, t, model)[i];
    if i < |u| {
      UpperIsOneOf(host, t, groups, i);
      UpperAsNamed(r, host, t, groups, w.sanitize(model));
    } else if i < |u| + |g| {
      assert r == g[i - |u|];
      GroupAsNamed(repo, primary, i - |u|, host, groups, w.sanitize(model));
    } else {
      assert r == DeviceReads(w, repo, host, t, model, groups)[i - |u| - |g|];
      DeviceAsNamed(w, repo, host, t, model, groups, i - |u| - |g|);
    }
  }

  /** Data for other groups is dropped inside up to 99 dictionaries; inside a hundred it comes through. */
  lemma FilteredUpToHundred(repo: Repo, r: Read, n: nat, y: Yaml)
    requires r.path in repo && r.target.Some? && 1 <= n <= 100 && repo[r.path] == Nested(n, y)
    requires y.YDict? && Filter(y, r.target.value, 1) == YNull
    ensures Contents(repo, r) == if n < 100 then map[] else repo[r.path].entries
  {
    var t := r.target.value;
    TruthyIff(y);
    assert Truthy(y) by { assert y.entries != map[]; }
    FilterReaches(n, y, t, FILTER_DEPTH);
    if n < 100 { assert Filter(y, t, FILTER_DEPTH - n) == YNull; }
  }

  // ------------------------------------------------------------ defaults and downstream

  /** A key no file defines is there exactly if it is one of six, with an empty value and origin "default". */
  lemma DefaultsRemain(w: World, repo: Repo, files: seq<Read>, k: string)
    requires ReadAll(w, repo, files, Start()).Ok? && forall i :: 0 <= i < |files| ==> !Defines(repo, files[i], k)
    ensures var out := ReadAll(w, repo, files, Start()).value;
            && (k in out.data <==>
                  k in {"ntp_servers", "radius_servers", "snmp_servers", "dns_servers", "vrfs", "vxlans"})
            && (k in out.data ==> out.data[k] == (if k == "vxlans" then YDict(map[]) else YList([])))
            && (k in out.data ==> out.origin[k] == "default")
  {
    UndefinedKeyStays(w, repo, files, Start(), k);
  }

  /** Only distribution switches look at their neighbours. */
  lemma NothingFromBelow(w: World, repo: Repo, host: Host, t: DevType, model: string)
    requires Verified(w, repo) && (host in w.devices ==> w.devices[host].devtype != DIST)
    requires Upper(w, repo, host, t).Ok?
    ensures GetSettings(w, repo, host, t, model) == Lower(w, repo, host, t, model, Upper(w, repo, host, t).value)
  {
  }

  /** at lists, in order, the positions of xs that ys is made of. */
  ghost predicate Picks(xs: seq<Host>, ys: seq<Host>, at: seq<nat>) {
    && |at| == |ys|
    && (forall i, j :: 0 <= i < j < |at| ==> at[i] < at[j])
    && (forall i :: 0 <= i < |at| ==> at[i] < |xs| && ys[i] == xs[at[i]])
  }

  lemma PicksLast(xs: seq<Host>, ys: seq<Host>, at: seq<nat>)
    requires xs != [] && Picks(xs[..|xs| - 1], ys, at)
    ensures Picks(xs, ys, at) && Picks(xs, ys + [xs[|xs| - 1]], at + [|xs| - 1])
  {
  }

  /** The switches below are the access switches among the neighbours, each where it stands in their order. */
  lemma {:induction false} BelowInOrder(w: World, hosts: seq<Host>) returns (at: seq<nat>)
    ensures Picks(hosts, AccessOnly(w, hosts), at)
    ensures forall k: nat :: k < |hosts| ==>
                               (k in at <==> hosts[k] in w.devices && w.devices[hosts[k]].devtype == ACCESS)
  {
    at := [];
    if hosts != [] {
      var last, before := |hosts| - 1, hosts[..|hosts| - 1];
      var at0 := BelowInOrder(w, before);
      PicksLast(hosts, AccessOnly(w, before), at0);
      at := if IsAccess(w, hosts[last]) then at0 + [last] else at0;
      forall k: nat | k < |hosts|
        ensures k in at <==> hosts[k] in w.devices && w.devices[hosts[k]].devtype == ACCESS
      {
        if k < last { assert before[k] == hosts[k]; }
      }
    }
  }
}
