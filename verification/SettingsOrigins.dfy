/** Which file the reported origin of a setting tells. */
module SettingsOrigins {
  import opened Common
  import opened FilterYaml
  import opened MergeDict
  import opened Settings
  import opened SettingsInheritance

  predicate FromGroup(r: Read) { r.path != [] && r.path[0] == "groups" }

  /** No two files of the list share a name, and none is a group file. */
  ghost predicate OwnNames(files: seq<Read>) {
    && (forall i :: 0 <= i < |files| ==> !FromGroup(files[i]))
    && (forall i, j :: 0 <= i < j < |files| ==> files[i].name != files[j].name)
  }

  const GROUPS_PREFIX := "groups->"

  /** How the names of global, fabric and type files begin. */
  predicate UpperName(name: string) {
    && |name| > 8
    && ((name[0] == 'g' && name[1] == 'l') || name[0] == 'f' || (name[0] == 'd' && name[4] == 'c' && name[6] == 't'))
  }

  lemma UpperLiterals()
    ensures UpperName("global->base_system.yml") && |"global->base_system.yml"| == 23
    ensures UpperName("fabric->base_system.yml") && "fabric->base_system.yml"[0] == 'f'
    ensures UpperName("devicetype->base_system.yml") && "devicetype->base_system.yml"[0] == 'd'
    ensures UpperName("global->routing.yml") && |"global->routing.yml"| == 19
    ensures UpperName("global->vxlans.yml") && |"global->vxlans.yml"| == 18
    ensures "global->base_system.yml"[0] == "global->routing.yml"[0] == "global->vxlans.yml"[0] == 'g'
  {
  }

  lemma UpperNames(host: Host, t: DevType, groups: set<string>)
    ensures OwnNames(UpperReads(host, t, groups))
    ensures forall i :: 0 <= i < |UpperReads(host, t, groups)| ==> UpperName(UpperReads(host, t, groups)[i].name)
  {
    UpperLiterals();
    var files := UpperReads(host, t, groups);
    var last := |files| - 1;
    assert files[0].name == "global->base_system.yml" && files[0].path[0] == "global";
    assert files[last - 1].name == "global->routing.yml" && files[last].name == "global->vxlans.yml";
    assert files[last - 1].path[0] == files[last].path[0] == "global";
    assert Fabric(t) ==> files[1].name == "fabric->base_system.yml" && files[1].path[0] == "fabric";
    assert t != UNKNOWN ==> files[last - 2].name == "devicetype->base_system.yml";
    assert t != UNKNOWN ==> files[last - 2].path[0] == TypeDir(t);
    assert |files| == (if t == UNKNOWN then 3 else if Fabric(t) then 5 else 4);
  }

  lemma PrefixChar(prefix: string, rest: string, k: nat)
    requires k < |prefix|
    ensures (prefix + rest)[k] == prefix[k]
  {
  }

  /** How the name of a group file begins. */
  predicate GroupName(name: string) { |name| > 1 && name[0] == 'g' && name[1] == 'r' }

  lemma GroupNamesAlike(repo: Repo, primary: string, i: nat)
    requires i < |GroupReads(repo, primary)|
    ensures FromGroup(GroupReads(repo, primary)[i])
    ensures GroupReads(repo, primary)[i].name == GROUPS_PREFIX + primary + "->base_system.yml"
    ensures GroupName(GroupReads(repo, primary)[i].name)
  {
    PrefixChar(GROUPS_PREFIX, primary + "->base_system.yml", 0);
    PrefixChar(GROUPS_PREFIX, primary + "->base_system.yml", 1);
    assert GROUPS_PREFIX + primary + "->base_system.yml" == GROUPS_PREFIX + (primary + "->base_system.yml");
  }

  /** How the name of a device or model file begins. */
  predicate DeviceName(name: string) {
    || (|name| > 6 && name[0] == 'd' && name[6] == '-')
    || (|name| > 4 && (name[0] == 'd' || name[0] == 'c') && name[4] == '-')
  }

  lemma DeviceDirNames(host: Host, files: seq<Read>)
    requires |files| == 3 && forall i :: 0 <= i < 3 ==> files[i].path != [] && files[i].path[0] == "devices"
    requires files[0].name == "device->" + host + "->base_system.yml"
    requires files[1].name == "device->" + host + "->interfaces.yml"
    requires files[2].name == "device->" + host + "->routing.yml"
    ensures OwnNames(files) && forall i :: 0 <= i < 3 ==> DeviceName(files[i].name)
  {
    var prefix := "device->";
    assert prefix[0] == 'd' && prefix[6] == '-';
    assert |files[0].name| == |host| + 25 && |files[1].name| == |host| + 24 && |files[2].name| == |host| + 21;
    forall i | 0 <= i < 3 ensures files[i].name[..8] == prefix {
      assert (prefix + host)[..8] == prefix;
    }
    assert forall i :: 0 <= i < 3 ==> files[i].name[0] == files[i].name[..8][0];
    assert forall i :: 0 <= i < 3 ==> files[i].name[6] == files[i].name[..8][6];
  }

  lemma ModelFileName(t: DevType, r: Read, rest: string)
    requires Fabric(t) && r.name == TypeDir(t) + "->" + rest && r.path != [] && r.path[0] == TypeDir(t)
    ensures DeviceName(r.name) && OwnNames([r])
  {
    var prefix := TypeDir(t) + "->";
    assert prefix == if t == DIST then "dist->" else "core->";
    PrefixChar(prefix, rest, 0);
    PrefixChar(prefix, rest, 4);
  }

  lemma DeviceNames(w: World, repo: Repo, host: Host, t: DevType, model: string, groups: set<string>)
    ensures OwnNames(DeviceReads(w, repo, host, t, model, groups))
    ensures forall i :: 0 <= i < |DeviceReads(w, repo, host, t, model, groups)| ==>
                          DeviceName(DeviceReads(w, repo, host, t, model, groups)[i].name)
  {
    var files := DeviceReads(w, repo, host, t, model, groups);
    if IsDir(repo, ["devices", host]) {
      DeviceDirNames(host, files);
    } else if UsesModelFile(w, repo, host, t, model) {
      var rest := "interfaces_" + w.sanitize(model) + ".yml";
      assert TypeDir(t) + "->interfaces_" == TypeDir(t) + "->" + "interfaces_";
      assert files[0].name == TypeDir(t) + "->" + rest;
      ModelFileName(t, files[0], rest);
    }
  }

  /** Where file i of the list stands and how it is named. */
  lemma PlaceOf(w: World, repo: Repo, host: Host, t: DevType, model: string, i: nat)
    requires GROUPS_FILE in repo && i < |Files(w, repo, host, t, model)|
    ensures var (r, groups) := (Files(w, repo, host, t, model)[i], w.groupsOf(repo[GROUPS_FILE], host));
            var (u, g) := (UpperReads(host, t, groups), GroupReads(repo, Primary(w, repo, host)));
            var d := DeviceReads(w, repo, host, t, model, groups);
            if i < |u| then r == u[i] && UpperName(r.name) && !FromGroup(r)
            else if i < |u| + |g| then
              r == g[i - |u|] && FromGroup(r) && GroupName(r.name) && r.name == g[0].name
            else i - |u| - |g| < |d| && r == d[i - |u| - |g|] && DeviceName(r.name) && !FromGroup(r)
  {
    var groups := w.groupsOf(repo[GROUPS_FILE], host);
    var u, g := UpperReads(host, t, groups), GroupReads(repo, Primary(w, repo, host));
    var d := DeviceReads(w, repo, host, t, model, groups);
    UpperNames(host, t, groups);
    DeviceNames(w, repo, host, t, model, groups);
    assert Files(w, repo, host, t, model) == u + (g + d);
    if |u| <= i < |u| + |g| {
      GroupNamesAlike(repo, Primary(w, repo, host), i - |u|);
      GroupNamesAlike(repo, Primary(w, repo, host), 0);
    }
  }

  /** Two of the files of a host are recorded under one name exactly when both are group files. */
  lemma OriginNamesFileIff(w: World, repo: Repo, host: Host, t: DevType, model: string, i: nat, j: nat)
    requires GROUPS_FILE in repo && i < j < |Files(w, repo, host, t, model)|
    ensures var files := Files(w, repo, host, t, model);
            files[i].name == files[j].name <==> FromGroup(files[i]) && FromGroup(files[j])
  {
    var (x, y) := (Files(w, repo, host, t, model)[i], Files(w, repo, host, t, model)[j]);
    var groups := w.groupsOf(repo[GROUPS_FILE], host);
    PlaceOf(w, repo, host, t, model, i);
    PlaceOf(w, repo, host, t, model, j);
    UpperNames(host, t, groups);
    DeviceNames(w, repo, host, t, model, groups);
  }

  /** The name is that of file i and of no other. */
  ghost predicate OnlyNameOf(files: seq<Read>, name: string, i: nat) {
    forall j :: 0 <= j < |files| && files[j].name == name ==> j == i
  }

  /** A group file is never the only one. */
  lemma GroupFilesComeTogether(w: World, repo: Repo, host: Host, t: DevType, model: string, i: nat)
    requires GROUPS_FILE in repo && i < |Files(w, repo, host, t, model)|
    requires FromGroup(Files(w, repo, host, t, model)[i])
    ensures exists j :: && 0 <= j < |Files(w, repo, host, t, model)| && j != i
                        && FromGroup(Files(w, repo, host, t, model)[j])
  {
    var files, groups := Files(w, repo, host, t, model), w.groupsOf(repo[GROUPS_FILE], host);
    var first := |UpperReads(host, t, groups)|;
    PlaceOf(w, repo, host, t, model, i);
    PlaceOf(w, repo, host, t, model, first);
    PlaceOf(w, repo, host, t, model, first + 1);
    assert FromGroup(files[if i == first then first + 1 else first]);
  }

  /** The reported origin of a setting tells which file decided it exactly when that file is no group file. */
  lemma OriginIdentifiesIff(w: World, repo: Repo, host: Host, t: DevType, model: string, k: string, i: nat)
    requires Verified(w, repo) && GetSettings(w, repo, host, t, model).Ok?
    requires LastToDefine(repo, Files(w, repo, host, t, model), k, i)
    ensures k in GetSettings(w, repo, host, t, model).value.origin
    ensures var (files, origin) := (Files(w, repo, host, t, model), GetSettings(w, repo, host, t, model).value.origin);
            OnlyNameOf(files, origin[k], i) <==> !FromGroup(files[i])
  {
    var files := Files(w, repo, host, t, model);
    SettingComesFrom(w, repo, host, t, model, k, i);
    forall j | 0 <= j < |files| && j != i
      ensures files[j].name == files[i].name <==> FromGroup(files[i]) && FromGroup(files[j])
    {
      OriginNamesFileIff(w, repo, host, t, model, if i < j then i else j, if i < j then j else i);
    }
    if FromGroup(files[i]) { GroupFilesComeTogether(w, repo, host, t, model, i); }
  }

  /** A setting of a group is reported under the base_system.yml of that group, whichever file it stands in. */
  lemma GroupOrigin(w: World, repo: Repo, host: Host, t: DevType, model: string, k: string, i: nat)
    requires Verified(w, repo) && GetSettings(w, repo, host, t, model).Ok?
    requires LastToDefine(repo, Files(w, repo, host, t, model), k, i) && FromGroup(Files(w, repo, host, t, model)[i])
    ensures k in GetSettings(w, repo, host, t, model).value.origin
    ensures GetSettings(w, repo, host, t, model).value.origin[k]
            == "groups->" + Primary(w, repo, host) + "->base_system.yml"
  {
    SettingComesFrom(w, repo, host, t, model, k, i);
    PlaceOf(w, repo, host, t, model, i);
    GroupNamesAlike(repo, Primary(w, repo, host), 0);
  }
}
