/** A change below a downstream access switch alters an unmarked distribution switch. */
module InvalidationLimits {
  import opened Common
  import opened FilterYaml
  import opened MergeDict
  import opened Settings
  import opened SettingsInheritance
  import opened Invalidation
  import opened InvalidationTheorems
  import opened InvalidationExact
  import opened SettingsFiles

  function DeviceFile(n: Host): Path { ["devices", n, "base_system.yml"] }

  /** A distribution switch d without files of its own, and below it one access switch n that has some. */
  ghost predicate Pair(w: World, repo: Repo, d: Host, n: Host) {
    && Verified(w, repo) && NamesKept(w)
    && IsDist(w, d) && w.devices[d].neighbors == [n] && IsAccess(w, n)
    && w.validHostname(n) && w.validHostname(d) && !Hidden(n)
    && InKnownGroup(w, repo, d) && InKnownGroup(w, repo, n)
    && IsDir(repo, ["devices", n]) && !IsDir(repo, ["devices", d])
  }

  /** The primary group is known and has no directory. */
  ghost predicate InKnownGroup(w: World, repo: Repo, host: Host)
    requires GROUPS_FILE in repo
  {
    var primary := Primary(w, repo, host);
    primary in GroupNames(w, repo) && !Hidden(primary) && !IsDir(repo, ["groups", primary])
  }

  lemma {:induction false} EmptyFilesChangeNothing(w: World, repo: Repo, files: seq<Read>, l: Layered<Yaml>)
    requires Complete(l)
    requires forall i :: 0 <= i < |files| ==> files[i].path in repo && !Truthy(repo[files[i].path])
    ensures ReadAll(w, repo, files, l) == Ok(l)
    decreases |files|
  {
    if files != [] { EmptyFilesChangeNothing(w, repo, files[1..], l); }
  }

  /** Empty but for the group file, which is no layer, and the device file of n. */
  ghost predicate EmptyBut(repo: Repo, n: Host) {
    && DeviceFile(n) in repo
    && (forall p :: p in repo && p != DeviceFile(n) && p != GROUPS_FILE ==> !Truthy(repo[p]))
    && (Truthy(repo[DeviceFile(n)]) ==> repo[DeviceFile(n)].YDict?)
  }

  lemma UpperIsShort(host: Host, t: DevType, groups: set<string>, i: nat)
    requires i < |UpperReads(host, t, groups)|
    ensures |UpperReads(host, t, groups)[i].path| == 2 && UpperReads(host, t, groups)[i].path[1] != "groups.yml"
  {
  }

  lemma UpperIsDefault(w: World, repo: Repo, n: Host, host: Host, t: DevType)
    requires GROUPS_FILE in repo && AllIn(repo, UpperReads(host, t, w.groupsOf(repo[GROUPS_FILE], host)))
    requires EmptyBut(repo, n)
    ensures Upper(w, repo, host, t) == Ok(Start())
  {
    var groups := w.groupsOf(repo[GROUPS_FILE], host);
    var files := UpperReads(host, t, groups);
    forall i | 0 <= i < |files| ensures files[i].path in repo && !Truthy(repo[files[i].path]) {
      UpperIsShort(host, t, groups, i);
      assert GROUPS_FILE[1] == "groups.yml";
    }
    EmptyFilesChangeNothing(w, repo, files, Start());
  }

  lemma AccessReads(w: World, repo: Repo, d: Host, n: Host)
    requires Pair(w, repo, d, n)
    ensures ReadsDeviceFile(repo, LowerReads(w, repo, n, ACCESS, ""), n)
  {
    FilesExist(w, repo, n, ACCESS, "");
    assert GroupReads(repo, Primary(w, repo, n)) == [];
    var files := LowerReads(w, repo, n, ACCESS, "");
    assert files[1].path[2] == "interfaces.yml" && files[2].path[2] == "routing.yml";
  }

  function FileVxlans(repo: Repo, p: Path): Yaml
    requires p in repo
  {
    if Truthy(repo[p]) && repo[p].YDict? && "vxlans" in repo[p].entries then repo[p].entries["vxlans"] else YDict(map[])
  }

  ghost predicate ReadsDeviceFile(repo: Repo, files: seq<Read>, n: Host) {
    && |files| == 3 && AllIn(repo, files) && files[0].path == DeviceFile(n) && files[0].target == None
    && files[1].path != DeviceFile(n) && files[2].path != DeviceFile(n)
    && |files[1].path| == 3 && |files[2].path| == 3
  }

  lemma DeviceFileDecides(w: World, repo: Repo, files: seq<Read>, n: Host)
    requires ReadsDeviceFile(repo, files, n) && EmptyBut(repo, n)
    ensures var r := ReadAll(w, repo, files, Start());
            r.Ok? && Slot(r.value.data) == Some(FileVxlans(repo, DeviceFile(n)))
  {
    var first := ReadSettings(w, repo, files[0], Start());
    ReadSlot(w, repo, files[0], Start());
    assert |GROUPS_FILE| == 2;
    EmptyFilesChangeNothing(w, repo, files[1..], first.value);
  }

  /** The settings of a device whose files leave this before the schema. */
  lemma AcceptedLower(w: World, repo: Repo, host: Host, t: DevType, l: Layered<Yaml>, lower: Layered<Yaml>)
    requires GROUPS_FILE in repo && Complete(l)
    requires ReadAll(w, repo, LowerReads(w, repo, host, t, ""), l) == Ok(lower)
    ensures Lower(w, repo, host, t, "", l).Ok? <==> w.schema(lower.data).Some?
    ensures Lower(w, repo, host, t, "", l).Ok? ==>
              w.schema(lower.data) == Some(Lower(w, repo, host, t, "", l).value.data)
  {
  }

  lemma ContributionNames(w: World, repo: Repo, n: Host, lower: Layered<Yaml>)
    requires IsAccess(w, n) && NamesKept(w) && GetSettings(w, repo, n, ACCESS, "").Ok?
    requires w.schema(lower.data) == Some(GetSettings(w, repo, n, ACCESS, "").value.data)
    ensures Contribution(w, repo, n).Ok? && Contribution(w, repo, n).value.Keys == VxlansAt(lower.data).Keys
  {
  }

  /** What the schema of the access switch is given. */
  lemma AccessLower(w: World, repo: Repo, d: Host, n: Host)
    requires Pair(w, repo, d, n) && EmptyBut(repo, n)
    ensures var read := ReadAll(w, repo, LowerReads(w, repo, n, ACCESS, ""), Start());
            && read.Ok? && Slot(read.value.data) == Some(FileVxlans(repo, DeviceFile(n)))
            && (GetSettings(w, repo, n, ACCESS, "").Ok? <==> w.schema(read.value.data).Some?)
            && (GetSettings(w, repo, n, ACCESS, "").Ok? ==>
                  w.schema(read.value.data) == Some(GetSettings(w, repo, n, ACCESS, "").value.data))
  {
    AccessReads(w, repo, d, n);
    var files := LowerReads(w, repo, n, ACCESS, "");
    DeviceFileDecides(w, repo, files, n);
    UpperFilesExist(w, repo, n, ACCESS);
    UpperIsDefault(w, repo, n, n, ACCESS);
    Pipeline(w, repo, n, ACCESS, "", Start(), Start());
    AcceptedLower(w, repo, n, ACCESS, Start(), ReadAll(w, repo, files, Start()).value);
  }

  /** What n hands to its distribution switch are the vxlans its own device file names. */
  lemma AccessContribution(w: World, repo: Repo, d: Host, n: Host)
    requires Pair(w, repo, d, n) && EmptyBut(repo, n) && FileVxlans(repo, DeviceFile(n)).YDict?
    requires GetSettings(w, repo, n, ACCESS, "").Ok?
    ensures Contribution(w, repo, n).Ok?
    ensures Contribution(w, repo, n).value.Keys == FileVxlans(repo, DeviceFile(n)).entries.Keys
  {
    AccessLower(w, repo, d, n);
    ContributionNames(w, repo, n, ReadAll(w, repo, LowerReads(w, repo, n, ACCESS, ""), Start()).value);
  }

  lemma DistReadsNothing(w: World, repo: Repo, d: Host, n: Host)
    requires Pair(w, repo, d, n)
    ensures LowerReads(w, repo, d, DIST, "") == []
  {
  }

  /** Above the distribution switch is nothing, below it what n offers, and the schema is given that. */
  lemma DistLower(w: World, repo: Repo, d: Host, n: Host)
    requires Pair(w, repo, d, n) && EmptyBut(repo, n) && Contribution(w, repo, n).Ok?
    ensures Upper(w, repo, d, DIST) == Ok(Start()) && Below(w, repo, d) == [Contribution(w, repo, n)]
    ensures GetSettings(w, repo, d, DIST, "").Ok?
            <==> w.schema(DEFAULTS["vxlans" := YDict(Contribution(w, repo, n).value)]).Some?
  {
    Alone(w, n);
    ContributionsOfOne(w, repo, n);
    var vxlans := Contribution(w, repo, n).value;
    AddOne(vxlans, Start());
    AddToDefaults(vxlans);
    var merged := AddMissing(Start(), vxlans).value;
    UpperFilesExist(w, repo, d, DIST);
    UpperIsDefault(w, repo, n, d, DIST);
    Pipeline(w, repo, d, DIST, "", Start(), merged);
    DistReadsNothing(w, repo, d, n);
    AcceptedLower(w, repo, d, DIST, merged, merged);
  }

  lemma AddToDefaults(vxlans: Dict)
    ensures AddMissing(Start(), vxlans).Ok?
    ensures AddMissing(Start(), vxlans).value.data == DEFAULTS["vxlans" := YDict(vxlans)]
  {
    assert DEFAULTS["vxlans"] == YDict(map[]) && vxlans + map[] == vxlans;
    if vxlans == map[] { assert DEFAULTS["vxlans" := YDict(vxlans)] == DEFAULTS; }
  }

  lemma AddOne(vxlans: Dict, l: Layered<Yaml>)
    requires Complete(l)
    ensures AddAll([Ok(vxlans)], l) == AddMissing(l, vxlans)
  {
    var one: seq<Result<Dict, SettingsError>> := [Ok(vxlans)];
    assert one[1..] == [];
  }

  lemma Alone(w: World, n: Host)
    requires IsAccess(w, n)
    ensures AccessOnly(w, [n]) == [n]
  {
    assert [n][..0] == [];
  }

  lemma ContributionsOfOne(w: World, repo: Repo, n: Host)
    requires IsAccess(w, n)
    ensures Contributions(w, repo, [n]) == [Contribution(w, repo, n)]
  {
    assert [n][1..] == [];
  }

  function WithVxlans(repo: Repo, n: Host, vxlans: Dict): Repo {
    repo[DeviceFile(n) := YDict(map["vxlans" := YDict(vxlans)])]
  }

  lemma SameDirs(a: Repo, b: Repo, dir: Path)
    requires a.Keys == b.Keys
    ensures IsDir(a, dir) <==> IsDir(b, dir)
  {
    assert forall p :: p in a <==> p in a.Keys;
    assert forall p :: p in b <==> p in b.Keys;
  }

  lemma SameFiles(w: World, a: Repo, b: Repo)
    requires Verified(w, a) && a.Keys == b.Keys && a[GROUPS_FILE] == b[GROUPS_FILE]
    ensures Verified(w, b)
  {
    assert forall p :: p in a <==> p in b;
    SameDirs(a, b, ["devices"]);
    SameDirs(a, b, ["groups"]);
    forall top, name | HasHostFiles(a, top, name) ensures HasHostFiles(b, top, name) {}
  }

  lemma PairStays(w: World, repo: Repo, d: Host, n: Host, vxlans: Dict)
    requires Pair(w, repo, d, n)
    ensures Pair(w, WithVxlans(repo, n, vxlans), d, n)
    ensures WithVxlans(repo, n, vxlans).Keys == repo.Keys && DeviceFile(n) in repo
  {
    AccessReads(w, repo, d, n);
    var b := WithVxlans(repo, n, vxlans);
    assert b.Keys == repo.Keys;
    assert |GROUPS_FILE| != |DeviceFile(n)|;
    SameFiles(w, repo, b);
    SameDirs(repo, b, ["devices", n]);
    SameDirs(repo, b, ["devices", d]);
  }

  lemma OneHostMarked(w: World, repo: Repo, n: Host)
    requires GROUPS_FILE in repo && w.validHostname(n)
    ensures Syncstatus(w, repo, {DeviceFile(n)}) == Unsynced({}, {n})
  {
    assert HostsOf(w, repo, DeviceFile(n)) == {n} && TypesOf(DeviceFile(n)) == {} && !IsGlobal(DeviceFile(n));
  }

  lemma OnlyTheAccessSwitchIsMarked(w: World, repo: Repo, d: Host, n: Host)
    requires GROUPS_FILE in repo && w.validHostname(n) && w.validHostname(d) && InKnownGroup(w, repo, d) && d != n
    ensures Syncstatus(w, repo, {DeviceFile(n)}) == Unsynced({}, {n})
    ensures Unmarked(w, repo, {DeviceFile(n)}, d, DIST)
  {
    OneHostMarked(w, repo, n);
  }

  lemma OneFileCovers(a: Repo, n: Host, vxlans: Dict)
    ensures Covers({DeviceFile(n)}, a, WithVxlans(a, n, vxlans))
  {
  }

  lemma DefinesNothing(repo: Repo)
    ensures !DefinesVxlans(repo, [])
  {
  }

  lemma FirstOffers(p: Result<Dict, SettingsError>, name: string)
    requires p.Ok?
    ensures FirstOffer([p], name).Some? <==> name in p.value
  {
  }

  /** Both switches load. */
  ghost predicate BothLoad(w: World, repo: Repo, d: Host, n: Host) {
    GetSettings(w, repo, n, ACCESS, "").Ok? && GetSettings(w, repo, d, DIST, "").Ok?
  }

  /** Giving n its first vxlan marks n alone, yet it changes the settings of d. */
  lemma UnmarkedDistChanges(w: World, a: Repo, b: Repo, d: Host, n: Host, vxlans: Dict, name: string)
    requires Pair(w, a, d, n) && d != n && EmptyBut(a, n) && !Truthy(a[DeviceFile(n)])
    requires b == WithVxlans(a, n, vxlans) && name in vxlans
    requires BothLoad(w, a, d, n) && BothLoad(w, b, d, n)
    ensures Pair(w, b, d, n) && Covers({DeviceFile(n)}, a, b)
    ensures Syncstatus(w, b, {DeviceFile(n)}) == Unsynced({}, {n})
    ensures Unmarked(w, b, {DeviceFile(n)}, d, DIST)
    ensures GetSettings(w, a, d, DIST, "") != GetSettings(w, b, d, DIST, "")
  {
    PairStays(w, a, d, n, vxlans);
    OneFileCovers(a, n, vxlans);
    OnlyTheAccessSwitchIsMarked(w, b, d, n);
    FileVxlansOf(a, n, vxlans);
    OffersItsNames(w, a, d, n, name);
    OffersItsNames(w, b, d, n, name);
    NothingAbove();
    DistReadsNothing(w, a, d, n);
    DistReadsNothing(w, b, d, n);
    DefinesNothing(a);
    DefinesNothing(b);
    NewNameBelowChanges(w, a, b, d, DIST, "", name);
  }

  lemma FileVxlansOf(a: Repo, n: Host, vxlans: Dict)
    requires EmptyBut(a, n) && !Truthy(a[DeviceFile(n)])
    ensures FileVxlans(a, DeviceFile(n)) == YDict(map[])
    ensures EmptyBut(WithVxlans(a, n, vxlans), n)
    ensures FileVxlans(WithVxlans(a, n, vxlans), DeviceFile(n)) == YDict(vxlans)
  {
  }

  lemma OffersItsNames(w: World, repo: Repo, d: Host, n: Host, name: string)
    requires Pair(w, repo, d, n) && EmptyBut(repo, n) && FileVxlans(repo, DeviceFile(n)).YDict?
    requires GetSettings(w, repo, n, ACCESS, "").Ok?
    ensures Upper(w, repo, d, DIST) == Ok(Start())
    ensures FirstOffer(Below(w, repo, d), name).Some? <==> name in FileVxlans(repo, DeviceFile(n)).entries
  {
    AccessContribution(w, repo, d, n);
    DistLower(w, repo, d, n);
    FirstOffers(Contribution(w, repo, n), name);
  }

  lemma NothingAbove()
    ensures VxlansAt(Start().data) == map[]
  {
  }

  // ------------------------------------------------------------- one concrete input

  /** The schema keeps vxlan names and accepts the defaults, the new vxlan, and the vxlan as it returned it. */
  ghost predicate AcceptsStudents(w: World) {
    && NamesKept(w) && w.schema(DEFAULTS).Some? && w.schema(DEFAULTS["vxlans" := YDict(STUDENTS)]).Some?
    && w.schema(DEFAULTS["vxlans" := YDict(VxlansAt(w.schema(DEFAULTS["vxlans" := YDict(STUDENTS)]).value))]).Some?
  }

  const DEFAULT_GROUP := "DEFAULT"

  /** The built-in group matches every host and is the primary group of both. */
  function TwoSwitches(schema: Dict -> Option<Dict>): World {
    World(map["dist1" := DevRow(DIST, ["acc1"]), "acc1" := DevRow(ACCESS, ["dist1"])],
          h => h in {"dist1", "acc1"}, _ => {DEFAULT_GROUP}, (_, _) => {DEFAULT_GROUP},
          _ => map["dist1" := DEFAULT_GROUP, "acc1" := DEFAULT_GROUP], ModelNameSanitize, LowerCase, schema)
  }

  const ACC1_FILES: set<Path> := {
    DeviceFile("acc1"), ["devices", "acc1", "interfaces.yml"], ["devices", "acc1", "routing.yml"]}

  const README_FILE: Path := ["groups", "README"]

  const STUDENTS: Dict :=
    map["students" := YDict(map["vni" := YInt(100100), "vlan_id" := YInt(100), "vlan_name" := YStr("students")])]

  /** All files are there, and but for an empty list of groups there is nothing in them. */
  function Before(): Repo {
    map p | p in MANDATORY + ACC1_FILES + {README_FILE} ::
      if p == GROUPS_FILE then YDict(map["groups" := YList([])]) else YNull
  }

  function After(): Repo { WithVxlans(Before(), "acc1", STUDENTS) }

  lemma MandatoryIsShort(p: Path)
    requires p in MANDATORY + {README_FILE}
    ensures |p| == 2
  {
  }

  lemma Acc1IsLong(p: Path)
    requires p in ACC1_FILES
    ensures |p| == 3 && p[0] == "devices" && p[1] == "acc1"
  {
  }

  lemma OnlyAcc1HasFiles()
    ensures HasHostFiles(Before(), "devices", "acc1")
    ensures forall p :: p in Before() && |p| > 2 ==> p[0] == "devices" && p[1] == "acc1"
  {
    forall p | p in Before() && |p| > 2 ensures p[0] == "devices" && p[1] == "acc1" {
      if p in MANDATORY + {README_FILE} { MandatoryIsShort(p); } else { Acc1IsLong(p); }
    }
  }

  lemma NotBelow(dir: Path, q: Path)
    requires |dir| == 2 && (|q| > 2 ==> q[0] != dir[0] || q[1] != dir[1])
    ensures !(dir < q)
  {
  }

  lemma Dirs()
    ensures IsDir(Before(), ["devices"]) && IsDir(Before(), ["groups"])
    ensures IsDir(Before(), ["devices", "acc1"]) && !IsDir(Before(), ["devices", "dist1"])
    ensures !IsDir(Before(), ["groups", DEFAULT_GROUP])
  {
    var p := DeviceFile("acc1");
    assert p in Before() && README_FILE in Before();
    assert ["devices"] < p && ["devices", "acc1"] < p && ["groups"] < README_FILE;
    OnlyAcc1HasFiles();
    var dist, group := ["devices", "dist1"], ["groups", DEFAULT_GROUP];
    assert dist[1] != "acc1" && group[0] != "devices";
    forall q | q in Before() ensures !(dist < q) && !(group < q) {
      NotBelow(dist, q);
      NotBelow(group, q);
    }
  }

  lemma LayoutVerified(w: World)
    requires w == TwoSwitches(w.schema)
    ensures Verified(w, Before())
  {
    OnlyAcc1HasFiles();
    Dirs();
    assert MANDATORY <= Before().Keys;
  }

  lemma Groups(w: World)
    requires w == TwoSwitches(w.schema)
    ensures GROUPS_FILE in Before() && InKnownGroup(w, Before(), "dist1") && InKnownGroup(w, Before(), "acc1")
  {
    Dirs();
    assert GROUPS_FILE in MANDATORY;
    assert Primary(w, Before(), "dist1") == DEFAULT_GROUP && Primary(w, Before(), "acc1") == DEFAULT_GROUP;
  }

  lemma OnlyGroupsFilled()
    ensures EmptyBut(Before(), "acc1") && !Truthy(Before()[DeviceFile("acc1")])
  {
    assert |GROUPS_FILE| == 2;
  }

  lemma TwoSwitchesArePair(w: World)
    requires w == TwoSwitches(w.schema) && NamesKept(w)
    ensures Pair(w, Before(), "dist1", "acc1")
  {
    LayoutVerified(w);
    Groups(w);
    Dirs();
    Switches(w);
  }

  lemma Switches(w: World)
    requires w == TwoSwitches(w.schema)
    ensures IsDist(w, "dist1") && w.devices["dist1"].neighbors == ["acc1"] && IsAccess(w, "acc1")
    ensures w.validHostname("dist1") && w.validHostname("acc1") && !Hidden("acc1")
  {
  }

  /** The device file holds these vxlans and nothing else, or is empty. */
  ghost predicate OnlyVxlans(repo: Repo, n: Host, vxlans: Dict) {
    && EmptyBut(repo, n)
    && (repo[DeviceFile(n)] == YDict(map["vxlans" := YDict(vxlans)])
        || (!Truthy(repo[DeviceFile(n)]) && vxlans == map[]))
  }

  lemma DeviceFileData(w: World, repo: Repo, files: seq<Read>, n: Host, vxlans: Dict)
    requires ReadsDeviceFile(repo, files, n) && OnlyVxlans(repo, n, vxlans)
    ensures var r := ReadAll(w, repo, files, Start());
            r.Ok? && r.value.data == DEFAULTS["vxlans" := YDict(vxlans)]
  {
    var first := ReadSettings(w, repo, files[0], Start()).value;
    assert |GROUPS_FILE| == 2;
    EmptyFilesChangeNothing(w, repo, files[1..], first);
    if Truthy(repo[DeviceFile(n)]) {
      assert DEFAULTS + map["vxlans" := YDict(vxlans)] == DEFAULTS["vxlans" := YDict(vxlans)];
    } else {
      assert DEFAULTS["vxlans" := YDict(map[])] == DEFAULTS;
    }
  }

  /** Both switches load when the schema accepts the vxlans and accepts them again as it returns them. */
  lemma Load(w: World, repo: Repo, d: Host, n: Host, vxlans: Dict)
    requires Pair(w, repo, d, n) && OnlyVxlans(repo, n, vxlans)
    requires w.schema(DEFAULTS["vxlans" := YDict(vxlans)]).Some?
    requires var dumped := VxlansAt(w.schema(DEFAULTS["vxlans" := YDict(vxlans)]).value);
             w.schema(DEFAULTS["vxlans" := YDict(dumped)]).Some?
    ensures BothLoad(w, repo, d, n)
  {
    AccessReads(w, repo, d, n);
    AccessLower(w, repo, d, n);
    DeviceFileData(w, repo, LowerReads(w, repo, n, ACCESS, ""), n, vxlans);
    ContributionIsDump(w, repo, n);
    DistLower(w, repo, d, n);
  }

  lemma ContributionIsDump(w: World, repo: Repo, n: Host)
    requires IsAccess(w, n) && GetSettings(w, repo, n, ACCESS, "").Ok?
    requires VxlansOf(GetSettings(w, repo, n, ACCESS, "").value.data).Ok?
    ensures Contribution(w, repo, n) == Ok(VxlansAt(GetSettings(w, repo, n, ACCESS, "").value.data))
  {
  }

  lemma NothingDumped(w: World)
    requires NamesKept(w) && w.schema(DEFAULTS).Some?
    ensures DEFAULTS["vxlans" := YDict(map[])] == DEFAULTS && VxlansAt(w.schema(DEFAULTS).value) == map[]
  {
    var out := w.schema(DEFAULTS).value;
    assert VxlansOf(out).Ok? && VxlansOf(out).value.Keys == VxlansAt(DEFAULTS).Keys;
    assert VxlansAt(DEFAULTS) == map[];
  }

  lemma DefaultsLoad(w: World, repo: Repo, d: Host, n: Host)
    requires Pair(w, repo, d, n) && OnlyVxlans(repo, n, map[]) && w.schema(DEFAULTS).Some?
    ensures BothLoad(w, repo, d, n)
  {
    NothingDumped(w);
    Load(w, repo, d, n, map[]);
  }

  /** A vxlan in the device file of acc1 marks acc1 only, and dist1 above it has other settings. */
  lemma StudentsReachDist1(w: World, before: Repo, after: Repo)
    requires w == TwoSwitches(w.schema) && AcceptsStudents(w) && before == Before() && after == After()
    ensures Verified(w, before) && Verified(w, after) && Covers({DeviceFile("acc1")}, before, after)
    ensures Syncstatus(w, after, {DeviceFile("acc1")}) == Unsynced({}, {"acc1"})
    ensures Unmarked(w, after, {DeviceFile("acc1")}, "dist1", DIST)
    ensures GetSettings(w, before, "dist1", DIST, "").Ok? && GetSettings(w, after, "dist1", DIST, "").Ok?
    ensures GetSettings(w, before, "dist1", DIST, "") != GetSettings(w, after, "dist1", DIST, "")
  {
    TwoSwitchesArePair(w);
    OnlyGroupsFilled();
    PairStays(w, before, "dist1", "acc1", STUDENTS);
    FileVxlansOf(before, "acc1", STUDENTS);
    DefaultsLoad(w, before, "dist1", "acc1");
    Load(w, after, "dist1", "acc1", STUDENTS);
    UnmarkedDistChanges(w, before, after, "dist1", "acc1", STUDENTS, "students");
  }
}
