/** The layered settings of one host, folded from the files of a settings repository. */
module Settings {
  import opened Common
  import opened FilterYaml
  import opened MergeDict

  type Host = string
  type Path = seq<string>
  type Repo = map<Path, Yaml>
  type Dict = map<string, Yaml>

  datatype DevType = ACCESS | DIST | CORE | UNKNOWN

  datatype SettingsError =
    | VerifyPathError | FileNotFound | SyntaxError | TypeError | AttributeError | MissingKey

  /** A device row; neighbors is the iteration order of the set of linked devices. */
  datatype DevRow = DevRow(devtype: DevType, neighbors: seq<Host>)

  /** What the pipeline takes from outside the repository. The groups functions read groups.yml. */
  datatype World = World(
    devices: map<Host, DevRow>,
    validHostname: string -> bool,
    groupNames: Yaml -> set<string>,
    groupsOf: (Yaml, Host) -> set<string>,
    primaryOf: Yaml -> map<Host, string>,
    sanitize: string -> string,
    lower: string -> string,
    schema: Dict -> Option<Dict>)

  const DEFAULTS: Dict := map[
                            "ntp_servers" := YList([]), "radius_servers" := YList([]), "snmp_servers" := YList([]),
                            "dns_servers" := YList([]), "vrfs" := YList([]), "vxlans" := YDict(map[])]

  const GROUPS_FILE: Path := ["global", "groups.yml"]

  const MANDATORY: set<Path> := {
    ["global", "base_system.yml"], GROUPS_FILE, ["global", "routing.yml"], ["global", "vxlans.yml"],
    ["fabric", "base_system.yml"], ["core", "base_system.yml"], ["dist", "base_system.yml"],
    ["access", "base_system.yml"]}

  const FILTER_DEPTH := 100

  // ------------------------------------------------------------ directory structure

  predicate IsDir(repo: Repo, dir: Path) {
    exists p :: p in repo && dir < p
  }

  predicate HasHostFiles(repo: Repo, top: string, name: string) {
    && [top, name, "base_system.yml"] in repo && [top, name, "interfaces.yml"] in repo
    && [top, name, "routing.yml"] in repo
  }

  predicate Hidden(name: string) { name != "" && name[0] == '.' }

  function GroupNames(w: World, repo: Repo): set<string>
    requires GROUPS_FILE in repo
  {
    w.groupNames(repo[GROUPS_FILE])
  }

  predicate Verified(w: World, repo: Repo) {
    && MANDATORY <= repo.Keys
    && IsDir(repo, ["devices"]) && IsDir(repo, ["groups"])
    && (forall p :: p in repo && |p| > 2 && p[0] == "devices" && !Hidden(p[1]) && w.validHostname(p[1]) ==>
          HasHostFiles(repo, "devices", p[1]))
    && (forall p :: p in repo && |p| > 2 && p[0] == "groups" && !Hidden(p[1]) && p[1] in GroupNames(w, repo) ==>
          HasHostFiles(repo, "groups", p[1]))
  }

  // --------------------------------------------------------------------- reading

  /** One read_settings call; target is None when it is made without groups and hostname. */
  datatype Read = Read(path: Path, name: string, target: Option<Target>)

  function Select(groups: set<string>, host: Option<Host>): Option<Target> {
    if groups == {} && host.None? then None else Some(Target(groups, host))
  }

  function ReadSettings(w: World, repo: Repo, r: Read, l: Layered<Yaml>): (out: Result<Layered<Yaml>, SettingsError>)
    requires Complete(l)
    ensures out.Ok? ==> Complete(out.value)
  {
    if r.path !in repo then Err(FileNotFound)
    else
      var y := repo[r.path];
      if !Truthy(y) || !y.YDict? then Ok(l)
      else match r.target
           case None => Ok(Merge(l, y.entries, r.name))
           case Some(t) =>
             if w.schema(y.entries).None? || !WellTyped(y, FILTER_DEPTH) then Err(SyntaxError)
             else match Filter(y, t, FILTER_DEPTH)
                  case YDict(m) => Ok(Merge(l, m, r.name))
                  case _ => Err(TypeError)
  }

  function ReadAll(w: World, repo: Repo, files: seq<Read>, l: Layered<Yaml>)
    : (out: Result<Layered<Yaml>, SettingsError>)
    requires Complete(l)
    ensures out.Ok? ==> Complete(out.value)
    decreases |files|
  {
    if files == [] then Ok(l)
    else
      var next :- ReadSettings(w, repo, files[0], l);
      ReadAll(w, repo, files[1..], next)
  }

  function TypeDir(t: DevType): string {
    match t case ACCESS => "access" case DIST => "dist" case CORE => "core" case UNKNOWN => "unknown"
  }

  predicate Fabric(t: DevType) { t == DIST || t == CORE }

  function UpperReads(host: Host, t: DevType, groups: set<string>): seq<Read> {
    [Read(["global", "base_system.yml"], "global->base_system.yml", Select(groups, None))]
    + (if Fabric(t) then [Read(["fabric", "base_system.yml"], "fabric->base_system.yml", None)] else [])
    + (if t == UNKNOWN then [] else [Read([TypeDir(t), "base_system.yml"], "devicetype->base_system.yml", None)])
    + [Read(["global", "routing.yml"], "global->routing.yml", Select(groups, None)),
       Read(["global", "vxlans.yml"], "global->vxlans.yml", Select(groups, Some(host)))]
  }

  function GroupReads(repo: Repo, primary: string): seq<Read> {
    if primary == "" || !IsDir(repo, ["groups", primary]) then []
    else
      var name := "groups->" + primary + "->base_system.yml";
      [Read(["groups", primary, "base_system.yml"], name, None),
       Read(["groups", primary, "interfaces.yml"], name, None),
       Read(["groups", primary, "routing.yml"], name, None)]
  }

  function ModelFile(t: DevType, model: string): Path { [TypeDir(t), "interfaces_" + model + ".yml"] }

  /** The model file is looked up under its sanitized name but read under its lower-cased one. */
  predicate UsesModelFile(w: World, repo: Repo, host: Host, t: DevType, model: string) {
    !IsDir(repo, ["devices", host]) && Fabric(t) && model != "" && ModelFile(t, w.sanitize(model)) in repo
  }

  function DeviceReads(w: World, repo: Repo, host: Host, t: DevType, model: string, groups: set<string>): seq<Read> {
    if IsDir(repo, ["devices", host]) then
      [Read(["devices", host, "base_system.yml"], "device->" + host + "->base_system.yml", None),
       Read(["devices", host, "interfaces.yml"], "device->" + host + "->interfaces.yml", None),
       Read(["devices", host, "routing.yml"], "device->" + host + "->routing.yml", Select(groups, None))]
    else if UsesModelFile(w, repo, host, t, model) then
      [Read(ModelFile(t, w.lower(model)), TypeDir(t) + "->interfaces_" + w.sanitize(model) + ".yml", None)]
    else []
  }

  /** The primary group, "" when the host has none. */
  function Primary(w: World, repo: Repo, host: Host): string
    requires GROUPS_FILE in repo
  {
    var m := w.primaryOf(repo[GROUPS_FILE]);
    if host in m then m[host] else ""
  }

  function LowerReads(w: World, repo: Repo, host: Host, t: DevType, model: string): seq<Read>
    requires GROUPS_FILE in repo
  {
    GroupReads(repo, Primary(w, repo, host)) + DeviceReads(w, repo, host, t, model, w.groupsOf(repo[GROUPS_FILE], host))
  }

  // ------------------------------------------------------------------ get_settings

  predicate IsDist(w: World, host: Host) { host in w.devices && w.devices[host].devtype == DIST }

  predicate IsAccess(w: World, host: Host) { host in w.devices && w.devices[host].devtype == ACCESS }

  function Start(): (l: Layered<Yaml>)
    ensures Complete(l)
  {
    Layered(DEFAULTS, map k | k in DEFAULTS :: "default")
  }

  /** Add the vxlans of one downstream switch that are not there yet. */
  function AddMissing(l: Layered<Yaml>, vxlans: Dict): (out: Result<Layered<Yaml>, SettingsError>)
    requires Complete(l)
    ensures out.Ok? ==> Complete(out.value)
  {
    if vxlans == map[] then Ok(l)
    else if "vxlans" !in l.data then Err(MissingKey)
    else if !l.data["vxlans"].YDict? then Err(AttributeError)
    else Ok(l.(data := l.data["vxlans" := YDict(vxlans + l.data["vxlans"].entries)]))
  }

  function VxlansOf(settings: Dict): Result<Dict, SettingsError> {
    if "vxlans" !in settings then Err(MissingKey)
    else if !settings["vxlans"].YDict? then Err(AttributeError)
    else Ok(settings["vxlans"].entries)
  }

  /** The layers up to the global vxlans. */
  function Upper(w: World, repo: Repo, host: Host, t: DevType): (out: Result<Layered<Yaml>, SettingsError>)
    requires GROUPS_FILE in repo
    ensures out.Ok? ==> Complete(out.value)
  {
    ReadAll(w, repo, UpperReads(host, t, w.groupsOf(repo[GROUPS_FILE], host)), Start())
  }

  /** The group and device layers and the final schema check. */
  function Lower(w: World, repo: Repo, host: Host, t: DevType, model: string, l: Layered<Yaml>)
    : Result<Layered<Yaml>, SettingsError>
    requires GROUPS_FILE in repo && Complete(l)
  {
    var lower :- ReadAll(w, repo, LowerReads(w, repo, host, t, model), l);
    match w.schema(lower.data)
    case None => Err(SyntaxError)
    case Some(settings) => Ok(Layered(settings, lower.origin))
  }

  /** The hosts of the list that are access switches. */
  function AccessOnly(w: World, hosts: seq<Host>): (r: seq<Host>)
    ensures forall h :: h in r <==> h in hosts && IsAccess(w, h)
  {
    if hosts == [] then []
    else
      var last := hosts[|hosts| - 1];
      assert hosts == hosts[..|hosts| - 1] + [last];
      AccessOnly(w, hosts[..|hosts| - 1]) + (if IsAccess(w, last) then [last] else [])
  }

  /** What one access switch hands to the distribution switch above it. */
  function Contribution(w: World, repo: Repo, n: Host): Result<Dict, SettingsError>
    requires IsAccess(w, n)
    decreases 0, 2, 0
  {
    var ds :- GetSettings(w, repo, n, ACCESS, "");
    VxlansOf(ds.data)
  }

  function Contributions(w: World, repo: Repo, hosts: seq<Host>): seq<Result<Dict, SettingsError>>
    requires forall h :: h in hosts ==> IsAccess(w, h)
    decreases 0, 3, |hosts|
  {
    if hosts == [] then [] else [Contribution(w, repo, hosts[0])] + Contributions(w, repo, hosts[1..])
  }

  /** Add what each switch hands over in turn; the first failure ends it. */
  function AddAll(contributions: seq<Result<Dict, SettingsError>>, l: Layered<Yaml>)
    : (out: Result<Layered<Yaml>, SettingsError>)
    requires Complete(l)
    ensures out.Ok? ==> Complete(out.value)
    decreases |contributions|
  {
    if contributions == [] then Ok(l)
    else
      var vxlans :- contributions[0];
      var next :- AddMissing(l, vxlans);
      AddAll(contributions[1..], next)
  }

  function Downstream(w: World, repo: Repo, hosts: seq<Host>, l: Layered<Yaml>)
    : (out: Result<Layered<Yaml>, SettingsError>)
    requires Complete(l)
    ensures out.Ok? ==> Complete(out.value)
    decreases 1, 0, 0
  {
    AddAll(Contributions(w, repo, AccessOnly(w, hosts)), l)
  }

  function GetSettings(w: World, repo: Repo, host: Host, t: DevType, model: string)
    : Result<Layered<Yaml>, SettingsError>
    decreases if IsDist(w, host) then 1 else 0, 1, 0
  {
    if !Verified(w, repo) then Err(VerifyPathError)
    else
      var upper :- Upper(w, repo, host, t);
      var merged :- if IsDist(w, host) then Downstream(w, repo, w.devices[host].neighbors, upper) else Ok(upper);
      Lower(w, repo, host, t, model, merged)
  }

  /** The layers one by one, for a repository in order. */
  lemma Pipeline(w: World, repo: Repo, host: Host, t: DevType, model: string,
                 upper: Layered<Yaml>, merged: Layered<Yaml>)
    requires Verified(w, repo) && Complete(upper) && Complete(merged) && Upper(w, repo, host, t) == Ok(upper)
    requires if IsDist(w, host) then Downstream(w, repo, w.devices[host].neighbors, upper) == Ok(merged)
             else merged == upper
    ensures GetSettings(w, repo, host, t, model) == Lower(w, repo, host, t, model, merged)
  {
  }

  lemma PipelineLoads(w: World, repo: Repo, host: Host, t: DevType, model: string)
    requires Verified(w, repo) && GetSettings(w, repo, host, t, model).Ok?
    ensures Upper(w, repo, host, t).Ok?
    ensures IsDist(w, host) ==> Downstream(w, repo, w.devices[host].neighbors, Upper(w, repo, host, t).value).Ok?
  {
  }

  method GetDownstreamDependencies(w: World, repo: Repo, host: Host, l: Layered<Yaml>)
    returns (out: Result<Layered<Yaml>, SettingsError>)
    requires Complete(l)
    ensures out == if IsDist(w, host) then Downstream(w, repo, w.devices[host].neighbors, l) else Ok(l)
  {
    if host !in w.devices || w.devices[host].devtype != DIST { return Ok(l); }
    var neighbors := w.devices[host].neighbors;
    var dsHostnames: seq<Host> := [];
    for i := 0 to |neighbors|
      invariant dsHostnames == AccessOnly(w, neighbors[..i])
    {
      assert neighbors[..i + 1][..i] == neighbors[..i];
      if neighbors[i] in w.devices && w.devices[neighbors[i]].devtype == ACCESS {
        dsHostnames := dsHostnames + [neighbors[i]];
      }
    }
    assert neighbors[..|neighbors|] == neighbors;
    var current := l;
    for i := 0 to |dsHostnames|
      invariant Complete(current)
      invariant Downstream(w, repo, neighbors, l) == AddAll(Contributions(w, repo, dsHostnames[i..]), current)
    {
      assert dsHostnames[i..][1..] == dsHostnames[i + 1..] && dsHostnames[i..][0] == dsHostnames[i];
      ghost var rest := Contributions(w, repo, dsHostnames[i + 1..]);
      assert ([Contribution(w, repo, dsHostnames[i])] + rest)[1..] == rest;
      var ds := GetSettings(w, repo, dsHostnames[i], ACCESS, "");
      if ds.Err? { return Err(ds.error); }
      if "vxlans" !in ds.value.data { return Err(MissingKey); }
      if !ds.value.data["vxlans"].YDict? { return Err(AttributeError); }
      var added := AddVxlans(current, ds.value.data["vxlans"].entries);
      if added.Err? { return Err(added.error); }
      current := added.value;
    }
    return Ok(current);
  }

  method AddVxlans(l: Layered<Yaml>, vxlans: Dict) returns (out: Result<Layered<Yaml>, SettingsError>)
    requires Complete(l)
    ensures out == AddMissing(l, vxlans)
    ensures out == Err(MissingKey) <==> vxlans != map[] && "vxlans" !in l.data
    ensures out == Err(AttributeError) <==> vxlans != map[] && "vxlans" in l.data && !l.data["vxlans"].YDict?
    ensures vxlans == map[] ==> out == Ok(l)
  {
    var todo, data := vxlans.Keys, l.data;
    while todo != {}
      invariant todo <= vxlans.Keys
      invariant todo == vxlans.Keys ==> data == l.data
      invariant todo != vxlans.Keys ==> "vxlans" in l.data && l.data["vxlans"].YDict?
      invariant todo != vxlans.Keys ==>
                  data == l.data["vxlans" := YDict((vxlans - todo) + l.data["vxlans"].entries)]
      decreases todo
    {
      var k :| k in todo;
      if "vxlans" !in data { return Err(MissingKey); }
      if !data["vxlans"].YDict? { return Err(AttributeError); }
      ghost var was := l.data["vxlans"].entries;
      assert data["vxlans"].entries == (vxlans - todo) + was;
      if k !in data["vxlans"].entries {
        data := data["vxlans" := YDict(data["vxlans"].entries[k := vxlans[k]])];
      }
      todo := todo - {k};
      assert data["vxlans"].entries == (vxlans - todo) + was;
    }
    assert vxlans - {} == vxlans;
    return Ok(l.(data := data));
  }

  // ---------------------------------------------------------------- values and origins

  /** The dictionary one file contributes: filtered where a target is given, empty for an ignored file. */
  function Contents(repo: Repo, r: Read): Dict {
    if r.path !in repo || !repo[r.path].YDict? then map[]
    else match r.target
         case None => repo[r.path].entries
         case Some(t) => match Filter(repo[r.path], t, FILTER_DEPTH) case YDict(m) => m case _ => map[]
  }

  function Layers(repo: Repo, files: seq<Read>): seq<Layer<Yaml>> {
    seq(|files|, i requires 0 <= i < |files| => Layer(files[i].name, Contents(repo, files[i])))
  }

  lemma MergeNothing(l: Layered<Yaml>, name: string)
    requires Complete(l)
    ensures Merge(l, map[], name) == l
  {
  }

  lemma ReadIsMerge(w: World, repo: Repo, r: Read, l: Layered<Yaml>)
    requires Complete(l) && ReadSettings(w, repo, r, l).Ok?
    ensures ReadSettings(w, repo, r, l).value == Merge(l, Contents(repo, r), r.name)
  {
    MergeNothing(l, r.name);
    var y := repo[r.path];
    if y.YDict? && !Truthy(y) && r.target.Some? {
      assert FilterEntries(y.entries, r.target.value, FILTER_DEPTH - 1) == map[];
    }
  }

  lemma {:induction false} ReadAllIsFold(w: World, repo: Repo, files: seq<Read>, l: Layered<Yaml>)
    requires Complete(l) && ReadAll(w, repo, files, l).Ok?
    ensures ReadAll(w, repo, files, l).value == Fold(l, Layers(repo, files))
    decreases |files|
  {
    if files != [] {
      var next := ReadSettings(w, repo, files[0], l).value;
      ReadIsMerge(w, repo, files[0], l);
      ReadAllIsFold(w, repo, files[1..], next);
      assert Layers(repo, files)[1..] == Layers(repo, files[1..]);
    }
  }

  /** The last file that defines a key gives its value and is named as its origin. */
  lemma LastFileWins(w: World, repo: Repo, files: seq<Read>, l: Layered<Yaml>, k: string, i: nat)
    requires Complete(l) && ReadAll(w, repo, files, l).Ok? && i < |files| && k in Contents(repo, files[i])
    requires forall j :: i < j < |files| ==> k !in Contents(repo, files[j])
    ensures var out := ReadAll(w, repo, files, l).value;
            k in out.data && out.data[k] == Contents(repo, files[i])[k] && out.origin[k] == files[i].name
  {
    ReadAllIsFold(w, repo, files, l);
    LastLayerWins(l, Layers(repo, files), k, i);
  }

  /** A key no file defines keeps what it had. */
  lemma UndefinedKeyStays(w: World, repo: Repo, files: seq<Read>, l: Layered<Yaml>, k: string)
    requires Complete(l) && ReadAll(w, repo, files, l).Ok?
    requires forall j :: 0 <= j < |files| ==> k !in Contents(repo, files[j])
    ensures var out := ReadAll(w, repo, files, l).value;
            && (k in out.data <==> k in l.data)
            && (k in l.data ==> out.data[k] == l.data[k] && out.origin[k] == l.origin[k])
  {
    ReadAllIsFold(w, repo, files, l);
    LastLayerWins(l, Layers(repo, files), k, |files|);
  }
}
