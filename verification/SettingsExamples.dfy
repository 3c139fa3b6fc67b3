/** Repositories on which the documented inheritance, the model file and the origin of a group setting go wrong. */
module SettingsExamples {
  import opened Common
  import opened FilterYaml
  import opened MergeDict
  import opened Settings
  import opened SettingsInheritance
  import opened SettingsOrigins
  import opened SettingsFiles

  const GROUP := "DEFAULT"
  const HOST := "dist1"

  /** A distribution switch without neighbours whose primary group is the built-in one. */
  ghost predicate Switch(w: World) {
    && HOST in w.devices && w.devices[HOST] == DevRow(DIST, []) && w.validHostname(HOST)
    && forall y :: w.groupsOf(y, HOST) == {GROUP} && w.primaryOf(y) == map[HOST := GROUP] && w.groupNames(y) == {GROUP}
  }

  function OneSwitch(schema: Dict -> Option<Dict>): World {
    World(map[HOST := DevRow(DIST, [])], h => h == HOST, _ => {GROUP}, (_, _) => {GROUP}, _ => map[HOST := GROUP],
          ModelNameSanitize, LowerCase, schema)
  }

  /** There is such a world for every schema. */
  lemma OneSwitchIsSwitch(schema: Dict -> Option<Dict>)
    ensures Switch(OneSwitch(schema)) && OneSwitch(schema).schema == schema
    ensures OneSwitch(schema).sanitize == ModelNameSanitize && OneSwitch(schema).lower == LowerCase
  {
  }

  const READMES: set<Path> := {["devices", "README"], ["groups", "README"]}

  const EIGHT: set<Path> := {
    ["global", "base_system.yml"], ["global", "groups.yml"], ["global", "routing.yml"], ["global", "vxlans.yml"],
    ["fabric", "base_system.yml"], ["core", "base_system.yml"], ["dist", "base_system.yml"],
    ["access", "base_system.yml"]}

  /** Eight files, with nothing in them but an empty list of groups, and two that make directories. */
  function Skeleton(): Repo {
    map p | p in EIGHT + READMES :: if p == GROUPS_FILE then YDict(map["groups" := YList([])]) else YNull
  }

  /** The skeleton with files added or filled. */
  function With(files: Repo): Repo { Skeleton() + files }

  lemma SkeletonAt(p: Path)
    requires p in EIGHT + READMES
    ensures |p| == 2 && |p[1]| <= 15 && p in Skeleton() && (p != GROUPS_FILE ==> Skeleton()[p] == YNull)
  {
  }

  /** A path of the repository is one of the added files or of the skeleton. */
  lemma WithAt(files: Repo, p: Path)
    requires p in With(files)
    ensures p in files ==> With(files)[p] == files[p]
    ensures p !in files ==> |p| == 2 && |p[1]| <= 15 && (p != GROUPS_FILE ==> With(files)[p] == YNull)
  {
    if p !in files { SkeletonAt(p); }
  }

  /** The added files leave groups.yml alone and come with all host files of their directory. */
  ghost predicate Fits(files: Repo) {
    && GROUPS_FILE !in files
    && forall p :: p in files && |p| > 2 ==> HasHostFiles(files, p[0], p[1])
  }

  lemma FitIsVerified(w: World, repo: Repo)
    requires MANDATORY <= repo.Keys && READMES <= repo.Keys
    requires forall p :: p in repo && |p| > 2 ==> HasHostFiles(repo, p[0], p[1])
    ensures Verified(w, repo)
  {
    var devices, groups := ["devices", "README"], ["groups", "README"];
    assert devices in READMES && groups in READMES;
    assert devices in repo && groups in repo;
    assert ["devices"] < devices && ["groups"] < groups;
  }

  lemma SkeletonKeys(files: Repo)
    ensures MANDATORY <= With(files).Keys && READMES <= With(files).Keys && files.Keys <= With(files).Keys
  {
    assert Skeleton().Keys == EIGHT + READMES && MANDATORY == EIGHT;
  }

  lemma WithIsVerified(w: World, repo: Repo, files: Repo)
    requires Fits(files) && repo == With(files)
    ensures Verified(w, repo)
  {
    SkeletonKeys(files);
    forall p | p in repo && |p| > 2 ensures HasHostFiles(repo, p[0], p[1]) {
      WithAt(files, p);
      assert HasHostFiles(files, p[0], p[1]);
    }
    FitIsVerified(w, repo);
  }

  lemma NoDir(files: Repo, dir: Path)
    requires |dir| == 2 && forall p :: p in files ==> !(dir < p)
    ensures !IsDir(With(files), dir)
  {
    forall p | p in With(files) ensures !(dir < p) { WithAt(files, p); }
  }

  // ------------------------------------------------------------ what the switch reads

  function UpperList(): seq<Read> {
    [Read(["global", "base_system.yml"], "global->base_system.yml", Some(Target({GROUP}, None))),
     Read(["fabric", "base_system.yml"], "fabric->base_system.yml", None),
     Read(["dist", "base_system.yml"], "devicetype->base_system.yml", None),
     Read(["global", "routing.yml"], "global->routing.yml", Some(Target({GROUP}, None))),
     Read(["global", "vxlans.yml"], "global->vxlans.yml", Some(Target({GROUP}, Some(HOST))))]
  }

  lemma UpperIsListed()
    ensures UpperReads(HOST, DIST, {GROUP}) == UpperList()
  {
  }

  lemma ListedAt(i: nat)
    requires i < 5
    ensures UpperList()[i].path in MANDATORY && UpperList()[i].path != GROUPS_FILE && |UpperList()[i].path| == 2
  {
    assert GROUPS_FILE[1] == "groups.yml" && |GROUPS_FILE[1]| == 10;
    assert |UpperList()[3].path[1]| == 11;
  }

  lemma ReadsOf(w: World, repo: Repo)
    requires Switch(w) && GROUPS_FILE in repo && !IsDir(repo, ["devices", HOST])
    ensures Files(w, repo, HOST, DIST, "") == UpperList() + GroupReads(repo, GROUP)
  {
    UpperIsListed();
    var files := Files(w, repo, HOST, DIST, "");
    assert LowerReads(w, repo, HOST, DIST, "") == GroupReads(repo, GROUP) + [] == GroupReads(repo, GROUP);
  }

  /** Files that define one key at most leave the defaults but for that key. */
  lemma OneKey(w: World, repo: Repo, files: seq<Read>, k: string, i: nat)
    requires ReadAll(w, repo, files, Start()).Ok? && LastToDefine(repo, files, k, i)
    requires forall j :: 0 <= j < |files| ==> Contents(repo, files[j]).Keys <= {k}
    ensures ReadAll(w, repo, files, Start()).value.data == DEFAULTS[k := Contents(repo, files[i])[k]]
  {
    var out := ReadAll(w, repo, files, Start()).value.data;
    LastFileWins(w, repo, files, Start(), k, i);
    forall x | x != k ensures (x in out <==> x in DEFAULTS) && (x in DEFAULTS ==> out[x] == DEFAULTS[x]) {
      UndefinedKeyStays(w, repo, files, Start(), x);
    }
  }

  /** Without neighbours the settings are what the files give and the schema makes of it. */
  lemma LoadsAlone(w: World, repo: Repo, host: Host, t: DevType, model: string)
    requires Verified(w, repo) && (IsDist(w, host) ==> w.devices[host].neighbors == [])
    requires var read := ReadAll(w, repo, Files(w, repo, host, t, model), Start());
             read.Ok? && w.schema(read.value.data).Some?
    ensures GetSettings(w, repo, host, t, model).Ok?
  {
    var files := UpperReads(host, t, w.groupsOf(repo[GROUPS_FILE], host));
    ReadAllAppend(w, repo, files, LowerReads(w, repo, host, t, model), Start());
    var upper := Upper(w, repo, host, t).value;
    assert AccessOnly(w, []) == [] && Downstream(w, repo, [], upper) == Ok(upper);
    Pipeline(w, repo, host, t, model, upper, upper);
  }

  /** The settings load, the key has the value before the schema, and name is reported as its origin. */
  ghost predicate Reports(w: World, repo: Repo, host: Host, t: DevType, model: string, k: string, value: Yaml,
                          name: string)
    requires GROUPS_FILE in repo
  {
    && BeforeSchema(w, repo, host, t, model).Ok? && GetSettings(w, repo, host, t, model).Ok?
    && var data, origin := BeforeSchema(w, repo, host, t, model).value.data,
                           GetSettings(w, repo, host, t, model).value.origin;
    && k in data && data[k] == value && k in origin && origin[k] == name
  }

  /** A switch without neighbours whose files define one key only, file i last. */
  lemma OneKeyLoads(w: World, repo: Repo, host: Host, t: DevType, model: string, files: seq<Read>, k: string, i: nat,
                    value: Yaml)
    requires Verified(w, repo) && (IsDist(w, host) ==> w.devices[host].neighbors == [])
    requires files == Files(w, repo, host, t, model) && AllLoadable(w, repo, files)
    requires LastToDefine(repo, files, k, i) && Contents(repo, files[i])[k] == value && k != "vxlans"
    requires forall j :: 0 <= j < |files| ==> Contents(repo, files[j]).Keys <= {k}
    requires w.schema(DEFAULTS[k := value]).Some?
    ensures Reports(w, repo, host, t, model, k, value, files[i].name)
  {
    ReadAllLoadsIff(w, repo, files, Start());
    OneKey(w, repo, files, k, i);
    LoadsAlone(w, repo, host, t, model);
    SettingComesFrom(w, repo, host, t, model, k, i);
  }

  /** The file is there, and empty or not filtered. */
  lemma EasyToLoad(w: World, repo: Repo, r: Read)
    requires r.path in repo && (r.target.None? || repo[r.path] == YNull)
    ensures Loadable(w, repo, r)
    ensures repo[r.path] == YNull ==> Contents(repo, r) == map[]
    ensures r.target.None? && repo[r.path].YDict? ==> Contents(repo, r) == repo[r.path].entries
  {
  }

  lemma FilterPlain(k: string, x: string, t: Target, depth: nat)
    requires !Selector(k) && x != "" && depth > 1
    ensures WellTyped(YDict(map[k := YStr(x)]), depth)
    ensures Filter(YDict(map[k := YStr(x)]), t, depth) == YDict(map[k := YStr(x)])
  {
    var m := map[k := YStr(x)];
    assert WellTyped(YStr(x), depth - 1) && EntryWellTyped(k, YStr(x), depth - 1);
    assert Filter(YStr(x), t, depth - 1) == YStr(x);
    assert FilterValue(k, YStr(x), t, depth - 1) == YStr(x) && Kept(k, YStr(x), t, depth - 1);
    assert FilterEntries(m, t, depth - 1) == m;
    assert !Restricted(m);
  }

  // ------------------------------------------------------------ the documented order

  const FABRIC_FILE: Path := ["fabric", "base_system.yml"]
  const ROUTING_FILE: Path := ["global", "routing.yml"]
  const DOMAIN := "domain_name"
  const FABRIC_DOMAIN := YStr("fabric.example")
  const GLOBAL_DOMAIN := YStr("global.example")

  /** The domain name is given for the fabric and in the global routing file. */
  function TwoDomains(): Repo {
    map[FABRIC_FILE := YDict(map[DOMAIN := FABRIC_DOMAIN]), ROUTING_FILE := YDict(map[DOMAIN := GLOBAL_DOMAIN])]
  }

  lemma DomainPaths(p: Path)
    requires p in TwoDomains()
    ensures |p| == 2 && (p[0] == "fabric" || |p[1]| == 11)
  {
  }

  lemma TwoDomainsFit(repo: Repo)
    requires repo == With(TwoDomains())
    ensures Fits(TwoDomains()) && GROUPS_FILE in repo
    ensures !IsDir(repo, ["devices", HOST]) && !IsDir(repo, ["groups", GROUP])
  {
    assert GROUPS_FILE[0] == "global" && |GROUPS_FILE[1]| == 10;
    forall p | p in TwoDomains() ensures |p| == 2 && p != GROUPS_FILE { DomainPaths(p); }
    NoDir(TwoDomains(), ["devices", HOST]);
    NoDir(TwoDomains(), ["groups", GROUP]);
    SkeletonKeys(TwoDomains());
    assert GROUPS_FILE in MANDATORY;
  }

  /** What each of the five files says about the domain. */
  ghost predicate DomainAt(repo: Repo, j: nat)
    requires j < 5
  {
    Contents(repo, UpperList()[j])
    == if j == 1 then map[DOMAIN := FABRIC_DOMAIN] else if j == 3 then map[DOMAIN := GLOBAL_DOMAIN] else map[]
  }

  lemma FabricFile(w: World, repo: Repo)
    requires repo == With(TwoDomains())
    ensures DomainAt(repo, 1) && Loadable(w, repo, UpperList()[1])
  {
    assert FABRIC_FILE in TwoDomains();
    EasyToLoad(w, repo, UpperList()[1]);
  }

  lemma RoutingFile(w: World, repo: Repo)
    requires repo == With(TwoDomains()) && w.schema(map[DOMAIN := GLOBAL_DOMAIN]).Some?
    ensures DomainAt(repo, 3) && Loadable(w, repo, UpperList()[3])
  {
    assert ROUTING_FILE in TwoDomains() && repo[ROUTING_FILE] == YDict(map[DOMAIN := GLOBAL_DOMAIN]);
    FilterPlain(DOMAIN, "global.example", Target({GROUP}, None), FILTER_DEPTH);
  }

  lemma OtherFile(w: World, repo: Repo, j: nat)
    requires repo == With(TwoDomains()) && j < 5 && j != 1 && j != 3
    ensures DomainAt(repo, j) && Loadable(w, repo, UpperList()[j])
  {
    var p := UpperList()[j].path;
    ListedAt(j);
    SkeletonKeys(TwoDomains());
    assert |p[1]| != 11 && p[0] != "fabric";
    forall q | q in TwoDomains() ensures q != p { DomainPaths(q); }
    WithAt(TwoDomains(), p);
    EasyToLoad(w, repo, UpperList()[j]);
  }

  lemma DomainFiles(w: World, repo: Repo)
    requires repo == With(TwoDomains()) && w.schema(map[DOMAIN := GLOBAL_DOMAIN]).Some?
    ensures AllLoadable(w, repo, UpperList()) && LastToDefine(repo, UpperList(), DOMAIN, 3)
    ensures Defines(repo, UpperList()[1], DOMAIN)
    ensures Contents(repo, UpperList()[3])[DOMAIN] == GLOBAL_DOMAIN
    ensures forall j :: 0 <= j < 5 ==> Contents(repo, UpperList()[j]).Keys <= {DOMAIN}
  {
    forall j | 0 <= j < 5 ensures DomainAt(repo, j) && Loadable(w, repo, UpperList()[j]) {
      if j == 1 { FabricFile(w, repo); } else if j == 3 { RoutingFile(w, repo); } else { OtherFile(w, repo, j); }
    }
    assert DomainAt(repo, 1) && DomainAt(repo, 3) && DomainAt(repo, 4);
    forall j | 0 <= j < 5 ensures Contents(repo, UpperList()[j]).Keys <= {DOMAIN} { assert DomainAt(repo, j); }
  }

  lemma AgainstDocumentation(repo: Repo)
    requires Staged(UpperList()) && Defines(repo, UpperList()[1], DOMAIN)
    ensures !FollowsDocumentation(repo, UpperList(), DOMAIN, 3)
  {
    assert Level(UpperList()[1].path) == 1 && Level(UpperList()[3].path) == 0;
  }

  /**
   A domain name given for the fabric is overridden by the global routing file, although the
   documentation lets the fabric override global settings.
   */
  lemma GlobalOverridesFabric(w: World, repo: Repo)
    requires Switch(w) && repo == With(TwoDomains())
    requires w.schema(map[DOMAIN := GLOBAL_DOMAIN]).Some? && w.schema(DEFAULTS[DOMAIN := GLOBAL_DOMAIN]).Some?
    ensures Verified(w, repo) && Reports(w, repo, HOST, DIST, "", DOMAIN, GLOBAL_DOMAIN, "global->routing.yml")
    ensures var files := Files(w, repo, HOST, DIST, "");
            && Staged(files) && LastToDefine(repo, files, DOMAIN, 3) && !FollowsDocumentation(repo, files, DOMAIN, 3)
  {
    TwoDomainsFit(repo);
    WithIsVerified(w, repo, TwoDomains());
    ReadsOf(w, repo);
    assert UpperList() + [] == UpperList();
    DomainFiles(w, repo);
    OneKeyLoads(w, repo, HOST, DIST, "", UpperList(), DOMAIN, 3, GLOBAL_DOMAIN);
    FilesAreStaged(w, repo, HOST, DIST, "");
    AgainstDocumentation(repo);
  }

  // -------------------------------------------------------------------- the model file

  /** Interface settings for the model, under its sanitized name. */
  function OneModelFile(model: string): Repo {
    map[ModelFile(DIST, ModelNameSanitize(model)) := YDict(map["interfaces" := YList([])])]
  }

  lemma ModelPath(name: string)
    ensures |ModelFile(DIST, name)| == 2 && |ModelFile(DIST, name)[1]| == |name| + 15
    ensures ModelFile(DIST, name)[1][11..11 + |name|] == name
  {
  }

  lemma ModelFileFits(repo: Repo, model: string)
    requires !NoSpace(model) && repo == With(OneModelFile(model))
    ensures Fits(OneModelFile(model)) && GROUPS_FILE in repo
    ensures !IsDir(repo, ["devices", HOST]) && !IsDir(repo, ["groups", GROUP])
    ensures ModelFile(DIST, ModelNameSanitize(model)) in repo && ModelFile(DIST, LowerCase(model)) !in repo
  {
    var there, read := ModelNameSanitize(model), LowerCase(model);
    ModelNamesAgreeIff(model);
    ModelPath(there);
    ModelPath(read);
    assert there != read && ModelFile(DIST, there) != ModelFile(DIST, read);
    assert GROUPS_FILE[0] == "global" && ModelFile(DIST, there)[0] == "dist";
    NoDir(OneModelFile(model), ["devices", HOST]);
    NoDir(OneModelFile(model), ["groups", GROUP]);
    SkeletonKeys(OneModelFile(model));
    assert GROUPS_FILE in MANDATORY;
    if ModelFile(DIST, read) in repo { WithAt(OneModelFile(model), ModelFile(DIST, read)); }
  }

  /** What comes before the device files has nothing in it. */
  lemma EmptyLoads(w: World, repo: Repo, model: string)
    requires Switch(w) && !NoSpace(model) && repo == With(OneModelFile(model))
    ensures GROUPS_FILE in repo && EarlierLoads(w, repo, HOST, DIST)
  {
    ModelFileFits(repo, model);
    UpperIsListed();
    forall i | 0 <= i < 5 ensures Loadable(w, repo, UpperList()[i]) { UpperFileIsEmpty(w, repo, model, i); }
    ReadAllLoadsIff(w, repo, UpperList(), Start());
    assert AccessOnly(w, []) == [];
  }

  lemma UpperFileIsEmpty(w: World, repo: Repo, model: string, i: nat)
    requires i < 5 && repo == With(OneModelFile(model))
    ensures Loadable(w, repo, UpperList()[i])
  {
    var r := UpperList()[i];
    ListedAt(i);
    SkeletonKeys(OneModelFile(model));
    assert r.path[1][0] != 'i';
    assert "interfaces_"[0] == 'i' && ModelFile(DIST, ModelNameSanitize(model))[1][0] == 'i';
    WithAt(OneModelFile(model), r.path);
    EasyToLoad(w, repo, r);
  }

  lemma ModelFileMisses(w: World, repo: Repo, model: string)
    requires !NoSpace(model) && repo == With(OneModelFile(model))
    requires w.sanitize(model) == ModelNameSanitize(model) && w.lower(model) == LowerCase(model)
    ensures UsesModelFile(w, repo, HOST, DIST, model) && MissesModelFile(w, repo, HOST, DIST, model)
  {
    ModelFileFits(repo, model);
    MissesIff(w, repo, HOST, DIST, model);
  }

  /**
   For every model name with white space there is a repository in order whose model file is
   looked up, found, and then read under a name it does not have.
   */
  lemma ModelFileIsMissed(w: World, repo: Repo, model: string)
    requires Switch(w) && !NoSpace(model) && repo == With(OneModelFile(model))
    requires w.sanitize(model) == ModelNameSanitize(model) && w.lower(model) == LowerCase(model)
    ensures Verified(w, repo) && Known(w, repo, HOST) && UsesModelFile(w, repo, HOST, DIST, model)
    ensures GetSettings(w, repo, HOST, DIST, model) == Err(FileNotFound)
  {
    ModelFileFits(repo, model);
    WithIsVerified(w, repo, OneModelFile(model));
    EmptyLoads(w, repo, model);
    ModelFileMisses(w, repo, model);
    FileNotFoundIff(w, repo, HOST, DIST, model);
  }

  lemma {:induction false} FirstWord(word: string, rest: string)
    requires NoSpace(word) && (rest != "" ==> Space(rest[0]))
    ensures WordLength(word + rest) == |word|
  {
    if word == "" {
      assert word + rest == rest;
    } else {
      assert (word + rest)[1..] == word[1..] + rest && (word + rest)[0] == word[0];
      FirstWord(word[1..], rest);
    }
  }

  lemma WordFirst(word: string, rest: string)
    requires word != "" && NoSpace(word) && (rest != "" ==> Space(rest[0]))
    ensures Words(word + rest) == [word] + Words(rest)
  {
    var s := word + rest;
    FirstWord(word, rest);
    assert s[0] == word[0] && s[..|word|] == word && s[|word|..] == rest;
  }

  lemma TwoWords(a: string, b: string)
    requires a != "" && b != "" && NoSpace(a) && NoSpace(b)
    ensures Underscored(Words(a + (" " + b))) == a + "_" + b
  {
    var rest, words := " " + b, [a, b];
    WordFirst(a, rest);
    assert rest[0] == ' ' && rest[1..] == b;
    assert Words(rest) == Words(b);
    assert b + "" == b;
    WordFirst(b, "");
    assert words[1..] == [b] && Words(a + rest) == words;
  }

  lemma SanitizedTwoWords(model: string, a: string, b: string)
    requires LowerCase(model) == a + (" " + b) && a != "" && b != "" && NoSpace(a) && NoSpace(b)
    ensures ModelNameSanitize(model) == a + "_" + b
  {
    TwoWords(a, b);
  }

  lemma Lowered(model: string, a: string, b: string)
    requires model == "DCS 7050" && a == "dcs" && b == "7050"
    ensures LowerCase(model) == a + (" " + b)
  {
    var s := LowerCase(model);
    assert s[0] == 'd' && s[1] == 'c' && s[2] == 's' && s[3] == ' ';
    assert s[4] == '7' && s[5] == '0' && s[6] == '5' && s[7] == '0';
  }

  /** One such model name and the two names its file is looked up and read under. */
  lemma NamesOfDcs(model: string, a: string, b: string)
    requires model == "DCS 7050" && a == "dcs" && b == "7050"
    ensures ModelNameSanitize(model) == a + "_" + b && LowerCase(model) == a + (" " + b)
  {
    Lowered(model, a, b);
    SanitizedTwoWords(model, a, b);
  }

  // -------------------------------------------------------------------- a group file

  const UPLINK: Yaml := YDict(map["name" := YStr("Ethernet1"), "ifclass" := YStr("fabric")])
  const INTERFACES := "interfaces"

  function GroupFile(name: string): Path { ["groups", GROUP, name] }

  function GroupName(): string { "groups->" + GROUP + "->base_system.yml" }

  /** The group has its three files, and interfaces in the one of that name. */
  function OneGroup(): Repo {
    map[GroupFile("base_system.yml") := YNull,
        GroupFile("interfaces.yml") := YDict(map[INTERFACES := YList([UPLINK])]),
        GroupFile("routing.yml") := YNull]
  }

  function GroupList(): seq<Read> {
    [Read(GroupFile("base_system.yml"), GroupName(), None), Read(GroupFile("interfaces.yml"), GroupName(), None),
     Read(GroupFile("routing.yml"), GroupName(), None)]
  }

  lemma GroupPaths(p: Path)
    requires p in OneGroup()
    ensures |p| == 3 && p[0] == "groups" && p[1] == GROUP
    ensures |p[2]| == 14 ==> OneGroup()[p] == YDict(map[INTERFACES := YList([UPLINK])])
    ensures |p[2]| != 14 ==> OneGroup()[p] == YNull
  {
    assert |GroupFile("base_system.yml")[2]| == 15 && |GroupFile("interfaces.yml")[2]| == 14;
    assert |GroupFile("routing.yml")[2]| == 11;
  }

  lemma GroupIsWhole()
    ensures HasHostFiles(OneGroup(), "groups", GROUP)
  {
    assert GroupFile("base_system.yml") in OneGroup() && GroupFile("interfaces.yml") in OneGroup();
    assert GroupFile("routing.yml") in OneGroup();
  }

  lemma OneGroupFits(repo: Repo)
    requires repo == With(OneGroup())
    ensures Fits(OneGroup()) && GROUPS_FILE in repo
    ensures IsDir(repo, ["groups", GROUP]) && !IsDir(repo, ["devices", HOST])
  {
    var dir, p := ["devices", HOST], GroupFile("base_system.yml");
    GroupIsWhole();
    forall q | q in OneGroup() ensures |q| == 3 && HasHostFiles(OneGroup(), q[0], q[1]) && !(dir < q) {
      GroupPaths(q);
      assert dir[0] == "devices";
    }
    assert |GROUPS_FILE| == 2 && GROUPS_FILE in MANDATORY;
    SkeletonKeys(OneGroup());
    assert p in repo && ["groups", GROUP] < p;
    NoDir(OneGroup(), dir);
  }

  ghost predicate InterfacesAt(repo: Repo, r: Read, i: nat) {
    Contents(repo, r) == if i == 6 then map[INTERFACES := YList([UPLINK])] else map[]
  }

  lemma FileAt(w: World, repo: Repo, i: nat)
    requires repo == With(OneGroup()) && i < 8
    ensures InterfacesAt(repo, (UpperList() + GroupList())[i], i) && Loadable(w, repo, (UpperList() + GroupList())[i])
  {
    var r := (UpperList() + GroupList())[i];
    SkeletonKeys(OneGroup());
    if i < 5 {
      ListedAt(i);
      assert r == UpperList()[i];
      if r.path in OneGroup() { GroupPaths(r.path); }
    } else {
      GroupIsWhole();
      assert r == GroupList()[i - 5];
      GroupPaths(r.path);
    }
    WithAt(OneGroup(), r.path);
    EasyToLoad(w, repo, r);
  }

  lemma InterfacesDecide(w: World, repo: Repo, files: seq<Read>)
    requires repo == With(OneGroup()) && files == UpperList() + GroupList()
    ensures AllLoadable(w, repo, files) && LastToDefine(repo, files, INTERFACES, 6)
    ensures files[5] == GroupList()[0] && Contents(repo, files[5]) == map[]
    ensures files[6] == GroupList()[1] && Contents(repo, files[6])[INTERFACES] == YList([UPLINK])
    ensures forall j :: 0 <= j < |files| ==> Contents(repo, files[j]).Keys <= {INTERFACES}
  {
    forall i | 0 <= i < 8 ensures InterfacesAt(repo, files[i], i) && Loadable(w, repo, files[i]) { FileAt(w, repo, i); }
    assert InterfacesAt(repo, files[5], 5) && InterfacesAt(repo, files[6], 6) && InterfacesAt(repo, files[7], 7);
  }

  lemma GroupFiles(w: World, repo: Repo)
    requires Switch(w) && repo == With(OneGroup())
    ensures GROUPS_FILE in repo && Files(w, repo, HOST, DIST, "") == UpperList() + GroupList()
  {
    OneGroupFits(repo);
    ReadsOf(w, repo);
  }

  /** The interfaces of a group are reported to come from a file that has nothing in it. */
  lemma GroupInterfacesAreMisreported(w: World, repo: Repo)
    requires Switch(w) && repo == With(OneGroup()) && w.schema(DEFAULTS[INTERFACES := YList([UPLINK])]).Some?
    ensures Verified(w, repo) && Reports(w, repo, HOST, DIST, "", INTERFACES, YList([UPLINK]), GroupName())
    ensures var files := Files(w, repo, HOST, DIST, "");
            && LastToDefine(repo, files, INTERFACES, 6) && files[6].path == GroupFile("interfaces.yml")
            && files[5].path == GroupFile("base_system.yml") && Contents(repo, files[5]) == map[]
  {
    OneGroupFits(repo);
    WithIsVerified(w, repo, OneGroup());
    GroupFiles(w, repo);
    var files := Files(w, repo, HOST, DIST, "");
    InterfacesDecide(w, repo, files);
    OneKeyLoads(w, repo, HOST, DIST, "", files, INTERFACES, 6, YList([UPLINK]));
  }

  // ------------------------------------------------------ the model file of a core switch

  const CORE_HOST := "core1"
  const CORE_MODEL := "DCS-7050"
  const CORE_NAME := "dcs-7050"

  function CoreFile(name: string): Path { ["core", "interfaces_" + name + ".yml"] }

  /** A core switch whose primary group is the built-in one. */
  ghost predicate Core(w: World) {
    && CORE_HOST in w.devices && w.devices[CORE_HOST].devtype == CORE && w.validHostname(CORE_HOST)
    && forall y :: w.groupsOf(y, CORE_HOST) == {GROUP} && w.primaryOf(y) == map[CORE_HOST := GROUP]
  }

  function OneCoreFile(name: string): Repo { map[CoreFile(name) := YDict(map[INTERFACES := YList([UPLINK])])] }

  function CoreRead(name: string): Read { Read(CoreFile(name), "core->interfaces_" + name + ".yml", None) }

  function CoreUpperList(): seq<Read> {
    [Read(["global", "base_system.yml"], "global->base_system.yml", Some(Target({GROUP}, None))),
     Read(["fabric", "base_system.yml"], "fabric->base_system.yml", None),
     Read(["core", "base_system.yml"], "devicetype->base_system.yml", None),
     Read(["global", "routing.yml"], "global->routing.yml", Some(Target({GROUP}, None))),
     Read(["global", "vxlans.yml"], "global->vxlans.yml", Some(Target({GROUP}, Some(CORE_HOST))))]
  }

  lemma CoreUpperIsListed()
    ensures UpperReads(CORE_HOST, CORE, {GROUP}) == CoreUpperList()
  {
  }

  lemma CoreListedAt(i: nat)
    requires i < 5
    ensures CoreUpperList()[i].path in MANDATORY && CoreUpperList()[i].path != GROUPS_FILE
    ensures |CoreUpperList()[i].path[1]| <= 15
  {
    assert GROUPS_FILE[1] == "groups.yml" && |GROUPS_FILE[1]| == 10;
    assert |CoreUpperList()[3].path[1]| == 11;
  }

  lemma CoreFits(repo: Repo, name: string)
    requires repo == With(OneCoreFile(name))
    ensures Fits(OneCoreFile(name)) && GROUPS_FILE in repo && CoreFile(name) in repo
    ensures !IsDir(repo, ["devices", CORE_HOST]) && !IsDir(repo, ["groups", GROUP])
  {
    assert CoreFile(name)[0] == "core" && GROUPS_FILE[0] == "global";
    NoDir(OneCoreFile(name), ["devices", CORE_HOST]);
    NoDir(OneCoreFile(name), ["groups", GROUP]);
    SkeletonKeys(OneCoreFile(name));
    assert GROUPS_FILE in MANDATORY;
  }

  lemma CoreNames(model: string)
    requires model == CORE_MODEL
    ensures ModelNameSanitize(model) == LowerCase(model) == CORE_NAME
  {
    var s := LowerCase(model);
    assert s[0] == 'd' && s[1] == 'c' && s[2] == 's' && s[3] == '-';
    assert s[4] == '7' && s[5] == '0' && s[6] == '5' && s[7] == '0';
    ModelNamesAgreeIff(model);
  }

  lemma CoreDeviceReads(w: World, repo: Repo, model: string, name: string)
    requires model != "" && w.sanitize(model) == w.lower(model) == name
    requires !IsDir(repo, ["devices", CORE_HOST]) && CoreFile(name) in repo
    ensures DeviceReads(w, repo, CORE_HOST, CORE, model, {GROUP}) == [CoreRead(name)]
  {
    assert ModelFile(CORE, name) == CoreFile(name);
    assert TypeDir(CORE) + "->interfaces_" == "core->interfaces_";
  }

  lemma CoreFiles(w: World, repo: Repo, model: string, name: string)
    requires Core(w) && GROUPS_FILE in repo && model != "" && w.sanitize(model) == w.lower(model) == name
    requires !IsDir(repo, ["devices", CORE_HOST]) && !IsDir(repo, ["groups", GROUP]) && CoreFile(name) in repo
    ensures Files(w, repo, CORE_HOST, CORE, model) == CoreUpperList() + [CoreRead(name)]
  {
    CoreUpperIsListed();
    CoreDeviceReads(w, repo, model, name);
    assert GroupReads(repo, GROUP) == [];
    assert LowerReads(w, repo, CORE_HOST, CORE, model) == [] + [CoreRead(name)];
  }

  ghost predicate CoreAt(repo: Repo, r: Read, i: nat) {
    Contents(repo, r) == if i == 5 then map[INTERFACES := YList([UPLINK])] else map[]
  }

  lemma CoreUpperAt(w: World, repo: Repo, name: string, i: nat)
    requires repo == With(OneCoreFile(name)) && i < 5
    ensures Loadable(w, repo, CoreUpperList()[i]) && CoreAt(repo, CoreUpperList()[i], i)
  {
    var r := CoreUpperList()[i];
    SkeletonKeys(OneCoreFile(name));
    CoreListedAt(i);
    assert CoreFile(name)[1][0] == 'i' && r.path[1][0] != 'i';
    WithAt(OneCoreFile(name), r.path);
    EasyToLoad(w, repo, r);
  }

  lemma CoreFileAt(w: World, repo: Repo, name: string, i: nat)
    requires repo == With(OneCoreFile(name)) && i < 6
    ensures var r := (CoreUpperList() + [CoreRead(name)])[i]; Loadable(w, repo, r) && CoreAt(repo, r, i)
  {
    if i < 5 {
      CoreUpperAt(w, repo, name, i);
    } else {
      SkeletonKeys(OneCoreFile(name));
      WithAt(OneCoreFile(name), CoreFile(name));
      EasyToLoad(w, repo, CoreRead(name));
    }
  }

  lemma CoreDecides(w: World, repo: Repo, name: string, files: seq<Read>)
    requires repo == With(OneCoreFile(name)) && files == CoreUpperList() + [CoreRead(name)]
    ensures AllLoadable(w, repo, files) && LastToDefine(repo, files, INTERFACES, 5)
    ensures files[5] == CoreRead(name) && Contents(repo, files[5])[INTERFACES] == YList([UPLINK])
    ensures forall j :: 0 <= j < |files| ==> Contents(repo, files[j]).Keys <= {INTERFACES}
  {
    forall i | 0 <= i < 6 ensures Loadable(w, repo, files[i]) && CoreAt(repo, files[i], i) {
      CoreFileAt(w, repo, name, i);
    }
    assert CoreAt(repo, files[5], 5);
  }

  /** The interfaces of a core switch come from the file of its model. */
  lemma CoreReadsModelFile(w: World, repo: Repo, model: string)
    requires Core(w) && repo == With(OneCoreFile(CORE_NAME)) && model == CORE_MODEL
    requires w.sanitize(model) == ModelNameSanitize(model) && w.lower(model) == LowerCase(model)
    requires w.schema(DEFAULTS[INTERFACES := YList([UPLINK])]).Some?
    ensures Verified(w, repo)
    ensures Reports(w, repo, CORE_HOST, CORE, model, INTERFACES, YList([UPLINK]), CoreRead(CORE_NAME).name)
  {
    var name := ModelNameSanitize(model);
    CoreNames(model);
    CoreFits(repo, name);
    WithIsVerified(w, repo, OneCoreFile(name));
    CoreFiles(w, repo, model, name);
    var files := Files(w, repo, CORE_HOST, CORE, model);
    CoreDecides(w, repo, name, files);
    OneKeyLoads(w, repo, CORE_HOST, CORE, model, files, INTERFACES, 5, YList([UPLINK]));
  }
}
