/** Which file a setting comes from, and when that is the one the documented inheritance names. */
module SettingsInheritance {
  import opened Common
  import opened FilterYaml
  import opened MergeDict
  import opened Settings

  /** The documented levels: global, fabric, core/dist/access, group, device. */
  function Level(p: Path): nat
    requires p != []
  {
    if p[0] == "global" then 0
    else if p[0] == "fabric" then 1
    else if p[0] == "groups" then 3
    else if p[0] == "devices" then 4
    else 2
  }

  /** All files of a host in the order they are read. */
  function Files(w: World, repo: Repo, host: Host, t: DevType, model: string): seq<Read>
    requires GROUPS_FILE in repo
  {
    UpperReads(host, t, w.groupsOf(repo[GROUPS_FILE], host)) + LowerReads(w, repo, host, t, model)
  }

  /** The merged settings that are handed to the schema. */
  function BeforeSchema(w: World, repo: Repo, host: Host, t: DevType, model: string)
    : Result<Layered<Yaml>, SettingsError>
    requires GROUPS_FILE in repo
  {
    var upper :- Upper(w, repo, host, t);
    var merged :- if IsDist(w, host) then Downstream(w, repo, w.devices[host].neighbors, upper) else Ok(upper);
    ReadAll(w, repo, LowerReads(w, repo, host, t, model), merged)
  }

  lemma LowerEndsWithSchema(w: World, repo: Repo, host: Host, t: DevType, model: string, l: Layered<Yaml>)
    requires GROUPS_FILE in repo && Complete(l) && Lower(w, repo, host, t, model, l).Ok?
    ensures ReadAll(w, repo, LowerReads(w, repo, host, t, model), l).Ok?
    ensures var (lower, out) := (ReadAll(w, repo, LowerReads(w, repo, host, t, model), l).value,
                                 Lower(w, repo, host, t, model, l).value);
            w.schema(lower.data) == Some(out.data) && out.origin == lower.origin
  {
  }

  lemma SchemaComesLast(w: World, repo: Repo, host: Host, t: DevType, model: string)
    requires Verified(w, repo) && GetSettings(w, repo, host, t, model).Ok?
    ensures BeforeSchema(w, repo, host, t, model).Ok?
    ensures var (l, out) := (BeforeSchema(w, repo, host, t, model).value, GetSettings(w, repo, host, t, model).value);
            w.schema(l.data) == Some(out.data) && out.origin == l.origin
  {
    PipelineLoads(w, repo, host, t, model);
    var upper := Upper(w, repo, host, t).value;
    var merged := if IsDist(w, host) then Downstream(w, repo, w.devices[host].neighbors, upper).value else upper;
    Pipeline(w, repo, host, t, model, upper, merged);
    LowerEndsWithSchema(w, repo, host, t, model, merged);
  }

  ghost predicate AddsVxlans(l: Layered<Yaml>, out: Layered<Yaml>) {
    && out.origin == l.origin && out.data.Keys == l.data.Keys
    && forall k :: k in l.data && k != "vxlans" ==> out.data[k] == l.data[k]
  }

  lemma AddMissingAddsVxlans(l: Layered<Yaml>, vxlans: Dict)
    requires Complete(l) && AddMissing(l, vxlans).Ok?
    ensures AddsVxlans(l, AddMissing(l, vxlans).value)
  {
  }

  lemma {:induction false} AddAllAddsVxlans(contributions: seq<Result<Dict, SettingsError>>, l: Layered<Yaml>)
    requires Complete(l) && AddAll(contributions, l).Ok?
    ensures AddsVxlans(l, AddAll(contributions, l).value)
    decreases |contributions|
  {
    if contributions != [] {
      var vxlans := contributions[0].value;
      AddMissingAddsVxlans(l, vxlans);
      AddAllAddsVxlans(contributions[1..], AddMissing(l, vxlans).value);
    }
  }

  /** Downstream switches add to the vxlans and to nothing else. */
  lemma DownstreamAddsVxlans(w: World, repo: Repo, hosts: seq<Host>, l: Layered<Yaml>)
    requires Complete(l) && Downstream(w, repo, hosts, l).Ok?
    ensures AddsVxlans(l, Downstream(w, repo, hosts, l).value)
  {
    AddAllAddsVxlans(Contributions(w, repo, AccessOnly(w, hosts)), l);
  }

  predicate Defines(repo: Repo, r: Read, k: string) { k in Contents(repo, r) }

  /** File i is the last one that defines the key. */
  ghost predicate LastToDefine(repo: Repo, files: seq<Read>, k: string, i: nat) {
    && i < |files| && Defines(repo, files[i], k)
    && forall j :: i < j < |files| ==> !Defines(repo, files[j], k)
  }

  lemma LastOfTwoLists(repo: Repo, a: seq<Read>, b: seq<Read>, k: string, i: nat)
    requires LastToDefine(repo, a + b, k, i)
    ensures i >= |a| ==> LastToDefine(repo, b, k, i - |a|)
    ensures i < |a| ==> LastToDefine(repo, a, k, i) && forall j :: 0 <= j < |b| ==> !Defines(repo, b[j], k)
  {
    assert forall j :: 0 <= j < |a| ==> (a + b)[j] == a[j];
    forall j | 0 <= j < |b| ensures (a + b)[|a| + j] == b[j] {}
    if i < |a| {
      forall j | 0 <= j < |b| ensures !Defines(repo, b[j], k) { assert (a + b)[|a| + j] == b[j]; }
    } else {
      forall j | i - |a| < j < |b| ensures !Defines(repo, b[j], k) { assert (a + b)[|a| + j] == b[j]; }
    }
  }

  /**
   The name the last file that defines a key is read under is reported as its origin. The file gives
   the value, except that downstream switches add to the vxlans a distribution switch has from above.
   */
  lemma SettingComesFrom(w: World, repo: Repo, host: Host, t: DevType, model: string, k: string, i: nat)
    requires Verified(w, repo) && GetSettings(w, repo, host, t, model).Ok?
    requires LastToDefine(repo, Files(w, repo, host, t, model), k, i)
    ensures BeforeSchema(w, repo, host, t, model).Ok?
    ensures var (files, l) := (Files(w, repo, host, t, model), BeforeSchema(w, repo, host, t, model).value);
            && k in GetSettings(w, repo, host, t, model).value.origin
            && GetSettings(w, repo, host, t, model).value.origin[k] == files[i].name
            && (!IsDist(w, host) || k != "vxlans" || i >= |UpperReads(host, t, w.groupsOf(repo[GROUPS_FILE], host))| ==>
                  k in l.data && l.data[k] == Contents(repo, files[i])[k])
  {
    SchemaComesLast(w, repo, host, t, model);
    var a, b := UpperReads(host, t, w.groupsOf(repo[GROUPS_FILE], host)), LowerReads(w, repo, host, t, model);
    var upper := Upper(w, repo, host, t).value;
    var merged := if IsDist(w, host) then Downstream(w, repo, w.devices[host].neighbors, upper).value else upper;
    if IsDist(w, host) { DownstreamAddsVxlans(w, repo, w.devices[host].neighbors, upper); }
    LastOfTwoLists(repo, a, b, k, i);
    if i >= |a| {
      LastFileWins(w, repo, b, merged, k, i - |a|);
    } else {
      LastFileWins(w, repo, a, Start(), k, i);
      UndefinedKeyStays(w, repo, b, merged, k);
    }
  }

  // --------------------------------------------------------------- the documented order

  /** When a file is read: two global files come after those of the fabric and the type, model files come last. */
  function Stage(p: Path): nat
    requires p != []
  {
    if p == ["global", "base_system.yml"] then 0
    else if p[0] == "fabric" then 1
    else if p[0] == "global" then 3
    else if p[0] == "groups" then 4
    else if p[0] == "devices" then 5
    else if p[1..] == ["base_system.yml"] then 2
    else 6
  }

  ghost predicate Staged(files: seq<Read>) {
    && (forall i :: 0 <= i < |files| ==> files[i].path != [])
    && forall i, j :: 0 <= i < j < |files| ==> Stage(files[i].path) <= Stage(files[j].path)
  }

  ghost predicate StagesWithin(files: seq<Read>, lo: nat, hi: nat) {
    forall i :: 0 <= i < |files| ==> files[i].path != [] && lo <= Stage(files[i].path) <= hi
  }

  lemma StagedAppend(a: seq<Read>, b: seq<Read>, m: nat, lo: nat, hi: nat)
    requires Staged(a) && Staged(b) && lo <= m <= hi && StagesWithin(a, lo, m) && StagesWithin(b, m, hi)
    ensures Staged(a + b) && StagesWithin(a + b, lo, hi)
  {
    assert forall i :: 0 <= i < |a + b| ==> (a + b)[i] == if i < |a| then a[i] else b[i - |a|];
  }

  lemma UpperStages(host: Host, t: DevType, groups: set<string>)
    ensures var files := UpperReads(host, t, groups);
            && 3 <= |files| <= 5 && (forall i :: 0 <= i < |files| ==> files[i].path != [])
            && Stage(files[0].path) == 0 && Stage(files[|files| - 1].path) == 3 && Stage(files[|files| - 2].path) == 3
            && (|files| == 4 ==> 1 <= Stage(files[1].path) <= 2)
            && (|files| == 5 ==> Stage(files[1].path) == 1 && Stage(files[2].path) == 2)
  {
  }

  lemma UpperIsStaged(host: Host, t: DevType, groups: set<string>)
    ensures Staged(UpperReads(host, t, groups)) && StagesWithin(UpperReads(host, t, groups), 0, 3)
  {
    UpperStages(host, t, groups);
  }

  lemma GroupsAreStaged(repo: Repo, primary: string)
    ensures Staged(GroupReads(repo, primary)) && StagesWithin(GroupReads(repo, primary), 4, 4)
  {
  }

  /** The model file is not another type's base_system.yml. */
  lemma DevicesAreStaged(w: World, repo: Repo, host: Host, t: DevType, model: string, groups: set<string>)
    ensures Staged(DeviceReads(w, repo, host, t, model, groups))
    ensures StagesWithin(DeviceReads(w, repo, host, t, model, groups), 5, 6)
  {
    if !IsDir(repo, ["devices", host]) && UsesModelFile(w, repo, host, t, model) {
      var p := ModelFile(t, w.lower(model));
      assert p[1..] == ["interfaces_" + w.lower(model) + ".yml"];
      assert p[1][0] == 'i' && "base_system.yml"[0] == 'b';
    }
  }

  lemma FilesAreStaged(w: World, repo: Repo, host: Host, t: DevType, model: string)
    requires GROUPS_FILE in repo
    ensures Staged(Files(w, repo, host, t, model))
  {
    var groups := w.groupsOf(repo[GROUPS_FILE], host);
    var g, d := GroupReads(repo, Primary(w, repo, host)), DeviceReads(w, repo, host, t, model, groups);
    UpperIsStaged(host, t, groups);
    GroupsAreStaged(repo, Primary(w, repo, host));
    DevicesAreStaged(w, repo, host, t, model, groups);
    StagedAppend(g, d, 5, 4, 6);
    StagedAppend(UpperReads(host, t, groups), g + d, 4, 0, 6);
  }

  /** Some file of the stage defines the key. */
  ghost predicate DefinedAt(repo: Repo, files: seq<Read>, k: string, stage: nat)
    requires Staged(files)
  {
    exists j :: 0 <= j < |files| && Stage(files[j].path) == stage && Defines(repo, files[j], k)
  }

  /** No file of a higher documented level defines the key. */
  ghost predicate FollowsDocumentation(repo: Repo, files: seq<Read>, k: string, i: nat)
    requires Staged(files) && i < |files|
  {
    forall j :: 0 <= j < |files| && Defines(repo, files[j], k) ==> Level(files[j].path) <= Level(files[i].path)
  }

  /** global/routing.yml or vxlans.yml override the fabric or the type, or a model file overrides the group. */
  ghost predicate OutOfOrder(repo: Repo, files: seq<Read>, k: string)
    requires Staged(files)
  {
    || (&& DefinedAt(repo, files, k, 3) && (DefinedAt(repo, files, k, 1) || DefinedAt(repo, files, k, 2))
        && !DefinedAt(repo, files, k, 4) && !DefinedAt(repo, files, k, 5) && !DefinedAt(repo, files, k, 6))
    || (DefinedAt(repo, files, k, 6) && (DefinedAt(repo, files, k, 4) || DefinedAt(repo, files, k, 5)))
  }

  lemma LevelByStage(p: Path)
    requires p != []
    ensures Level(p)
            == match Stage(p) case 0 => 0 case 1 => 1 case 2 => 2 case 3 => 0 case 4 => 3 case 5 => 4 case _ => 2
    ensures Stage(p) <= 6
  {
  }

  /** The documented inheritance decides a setting exactly when no such pair of files defines it. */
  lemma DocumentedOrderIff(w: World, repo: Repo, host: Host, t: DevType, model: string, k: string, i: nat)
    requires GROUPS_FILE in repo && LastToDefine(repo, Files(w, repo, host, t, model), k, i)
    ensures Staged(Files(w, repo, host, t, model))
    ensures FollowsDocumentation(repo, Files(w, repo, host, t, model), k, i)
            <==> !OutOfOrder(repo, Files(w, repo, host, t, model), k)
  {
    FilesAreStaged(w, repo, host, t, model);
    StagedOrderIff(repo, Files(w, repo, host, t, model), k, i);
  }

  lemma StagedOrderIff(repo: Repo, files: seq<Read>, k: string, i: nat)
    requires Staged(files) && LastToDefine(repo, files, k, i)
    ensures FollowsDocumentation(repo, files, k, i) <==> !OutOfOrder(repo, files, k)
  {
    var top := Stage(files[i].path);
    LevelByStage(files[i].path);
    assert DefinedAt(repo, files, k, top);
    forall j | 0 <= j < |files| && Defines(repo, files[j], k)
      ensures Stage(files[j].path) <= top && DefinedAt(repo, files, k, Stage(files[j].path))
    {
      LevelByStage(files[j].path);
    }
    if !FollowsDocumentation(repo, files, k, i) {
      var j :| 0 <= j < |files| && Defines(repo, files[j], k) && Level(files[j].path) > Level(files[i].path);
      LevelByStage(files[j].path);
    }
  }

  // ------------------------------------------------------------------- what is read

  /** The files the layout provides for a host. */
  ghost predicate Provided(w: World, repo: Repo, host: Host, t: DevType, model: string, p: Path)
    requires GROUPS_FILE in repo
  {
    var primary := Primary(w, repo, host);
    || p in {["global", "base_system.yml"], ["global", "routing.yml"], ["global", "vxlans.yml"]}
    || (t in {DIST, CORE} && p == ["fabric", "base_system.yml"])
    || IsTypeFile(t, p)
    || (primary != "" && IsDir(repo, ["groups", primary]) && IsHostFile("groups", primary, p))
    || (IsDir(repo, ["devices", host]) && IsHostFile("devices", host, p))
    || (!IsDir(repo, ["devices", host]) && IsModelFile(w, repo, t, model, p))
  }

  ghost predicate IsTypeFile(t: DevType, p: Path) {
    || (t == ACCESS && p == ["access", "base_system.yml"])
    || (t == DIST && p == ["dist", "base_system.yml"])
    || (t == CORE && p == ["core", "base_system.yml"])
  }

  /** Distribution and core switches have interface files for a model, looked up under the sanitized name. */
  ghost predicate IsModelFile(w: World, repo: Repo, t: DevType, model: string, p: Path) {
    && model != ""
    && (|| (&& t == DIST && ["dist", "interfaces_" + w.sanitize(model) + ".yml"] in repo
            && p == ["dist", "interfaces_" + w.lower(model) + ".yml"])
        || (&& t == CORE && ["core", "interfaces_" + w.sanitize(model) + ".yml"] in repo
            && p == ["core", "interfaces_" + w.lower(model) + ".yml"]))
  }

  ghost predicate IsHostFile(top: string, name: string, p: Path) {
    p in {[top, name, "base_system.yml"], [top, name, "interfaces.yml"], [top, name, "routing.yml"]}
  }

  ghost predicate Reads(files: seq<Read>, p: Path) { exists i :: 0 <= i < |files| && files[i].path == p }

  lemma ReadsAppend(a: seq<Read>, b: seq<Read>, p: Path)
    ensures Reads(a + b, p) <==> Reads(a, p) || Reads(b, p)
  {
    if i :| 0 <= i < |a| && a[i].path == p { assert (a + b)[i].path == p; }
    if i :| 0 <= i < |b| && b[i].path == p { assert (a + b)[|a| + i].path == p; }
  }

  lemma UpperReadsIff(host: Host, t: DevType, groups: set<string>, p: Path)
    ensures Reads(UpperReads(host, t, groups), p) <==>
            || p in {["global", "base_system.yml"], ["global", "routing.yml"], ["global", "vxlans.yml"]}
            || (t in {DIST, CORE} && p == ["fabric", "base_system.yml"])
            || IsTypeFile(t, p)
  {
    var files := UpperReads(host, t, groups);
    assert files[0].path == ["global", "base_system.yml"];
    assert files[|files| - 2].path == ["global", "routing.yml"] && files[|files| - 1].path == ["global", "vxlans.yml"];
    assert Fabric(t) ==> files[1].path == ["fabric", "base_system.yml"];
    assert t != UNKNOWN ==> files[|files| - 3].path == [TypeDir(t), "base_system.yml"];
    assert forall q :: IsTypeFile(t, q) <==> t != UNKNOWN && q == [TypeDir(t), "base_system.yml"];
  }

  lemma ThreeReads(top: string, name: string, files: seq<Read>, p: Path)
    requires |files| == 3 && files[0].path == [top, name, "base_system.yml"]
    requires files[1].path == [top, name, "interfaces.yml"] && files[2].path == [top, name, "routing.yml"]
    ensures Reads(files, p) <==> IsHostFile(top, name, p)
  {
  }

  lemma GroupReadsIff(repo: Repo, primary: string, p: Path)
    ensures Reads(GroupReads(repo, primary), p) <==>
            primary != "" && IsDir(repo, ["groups", primary]) && IsHostFile("groups", primary, p)
  {
    if GroupReads(repo, primary) != [] { ThreeReads("groups", primary, GroupReads(repo, primary), p); }
  }

  lemma DeviceReadsIff(w: World, repo: Repo, host: Host, t: DevType, model: string, groups: set<string>, p: Path)
    ensures Reads(DeviceReads(w, repo, host, t, model, groups), p) <==>
            || (IsDir(repo, ["devices", host]) && IsHostFile("devices", host, p))
            || (!IsDir(repo, ["devices", host]) && IsModelFile(w, repo, t, model, p))
  {
    var files := DeviceReads(w, repo, host, t, model, groups);
    if IsDir(repo, ["devices", host]) {
      ThreeReads("devices", host, files, p);
    } else if UsesModelFile(w, repo, host, t, model) {
      assert |files| == 1 && files[0].path == ModelFile(t, w.lower(model));
    }
  }

  /** No provided file is left out and no other file is read. */
  lemma ReadIffProvided(w: World, repo: Repo, host: Host, t: DevType, model: string, p: Path)
    requires GROUPS_FILE in repo
    ensures Reads(Files(w, repo, host, t, model), p) <==> Provided(w, repo, host, t, model, p)
  {
    var groups := w.groupsOf(repo[GROUPS_FILE], host);
    var g, d := GroupReads(repo, Primary(w, repo, host)), DeviceReads(w, repo, host, t, model, groups);
    ReadsAppend(UpperReads(host, t, groups), g + d, p);
    ReadsAppend(g, d, p);
    UpperReadsIff(host, t, groups, p);
    GroupReadsIff(repo, Primary(w, repo, host), p);
    DeviceReadsIff(w, repo, host, t, model, groups, p);
  }

  /** Whom the data of a file is filtered for: the groups of the host, and in vxlans.yml the host itself as well. */
  function FilteredFor(host: Host, groups: set<string>, p: Path): Target {
    Target(groups, if p == ["global", "vxlans.yml"] then Some(host) else None)
  }

  /** What a global file contributes selects nothing for other groups or hosts only. */
  lemma GlobalFilesAreFiltered(repo: Repo, host: Host, t: DevType, groups: set<string>, i: nat)
    requires groups != {} && i < |UpperReads(host, t, groups)|
    requires var p := UpperReads(host, t, groups)[i].path; p != [] && p[0] == "global"
    ensures var r := UpperReads(host, t, groups)[i];
            Clean(YDict(Contents(repo, r)), FilteredFor(host, groups, r.path), FILTER_DEPTH)
  {
    var r := UpperReads(host, t, groups)[i];
    var target := FilteredFor(host, groups, r.path);
    GlobalTarget(host, t, groups, i);
    if r.path in repo && repo[r.path].YDict? {
      FilterIsClean(repo[r.path], target, FILTER_DEPTH);
    }
  }

  lemma GlobalTarget(host: Host, t: DevType, groups: set<string>, i: nat)
    requires groups != {} && i < |UpperReads(host, t, groups)|
    requires var p := UpperReads(host, t, groups)[i].path; p != [] && p[0] == "global"
    ensures var r := UpperReads(host, t, groups)[i]; r.target == Some(FilteredFor(host, groups, r.path))
  {
    var files := UpperReads(host, t, groups);
    assert files[0].path == ["global", "base_system.yml"];
    assert files[|files| - 2].path == ["global", "routing.yml"] && files[|files| - 1].path == ["global", "vxlans.yml"];
    assert forall j :: 0 < j < |files| - 2 ==> files[j].path[0] != "global";
  }
}
