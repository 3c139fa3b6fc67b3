/** An unmarked device keeps its settings; for a distribution switch this needs care downstream. */
module InvalidationTheorems {
  import opened Common
  import opened FilterYaml
  import opened MergeDict
  import opened Settings
  import opened Invalidation

  lemma {:induction false} ContributionsSame(w: World, a: Repo, b: Repo, hosts: seq<Host>)
    requires forall h :: h in hosts ==> IsAccess(w, h) && Contribution(w, a, h) == Contribution(w, b, h)
    ensures Contributions(w, a, hosts) == Contributions(w, b, hosts)
    decreases |hosts|
  {
    if hosts != [] {
      assert forall h :: h in hosts[1..] ==> h in hosts;
      ContributionsSame(w, a, b, hosts[1..]);
    }
  }

  lemma DownstreamSame(w: World, a: Repo, b: Repo, hosts: seq<Host>, l: Layered<Yaml>)
    requires Complete(l)
    requires forall h :: h in hosts && IsAccess(w, h) ==> Contribution(w, a, h) == Contribution(w, b, h)
    ensures Downstream(w, a, hosts, l) == Downstream(w, b, hosts, l)
  {
    ContributionsSame(w, a, b, AccessOnly(w, hosts));
  }

  /** The pipeline from equal reads and equal contributions downstream. */
  lemma SameSettings(w: World, a: Repo, b: Repo, changed: set<Path>, host: Host, t: DevType, model: string)
    requires Verified(w, a) && Verified(w, b) && Covers(changed, a, b)
    requires Unmarked(w, b, changed, host, t)
    requires IsDist(w, host) ==>
               forall n :: n in w.devices[host].neighbors && IsAccess(w, n) ==>
                             Contribution(w, a, n) == Contribution(w, b, n)
    ensures GetSettings(w, a, host, t, model) == GetSettings(w, b, host, t, model)
  {
    UpperSame(w, a, b, changed, host, t);
    var upper := Upper(w, b, host, t);
    if upper.Ok? {
      if IsDist(w, host) { DownstreamSame(w, a, b, w.devices[host].neighbors, upper.value); }
      var merged := if IsDist(w, host) then Downstream(w, b, w.devices[host].neighbors, upper.value) else upper;
      if merged.Ok? { LowerSame(w, a, b, changed, host, t, model, merged.value); }
    }
  }

  lemma UpperSame(w: World, a: Repo, b: Repo, changed: set<Path>, host: Host, t: DevType)
    requires GROUPS_FILE in a && GROUPS_FILE in b && Covers(changed, a, b) && Unmarked(w, b, changed, host, t)
    ensures Upper(w, a, host, t) == Upper(w, b, host, t)
  {
    ReadsUnchanged(w, a, b, changed, host, t, "");
    ReadAllSame(w, a, b, UpperReads(host, t, w.groupsOf(b[GROUPS_FILE], host)), Start());
  }

  lemma LowerSame(w: World, a: Repo, b: Repo, changed: set<Path>, host: Host, t: DevType, model: string,
                  l: Layered<Yaml>)
    requires GROUPS_FILE in a && GROUPS_FILE in b && Covers(changed, a, b) && Unmarked(w, b, changed, host, t)
    requires Complete(l)
    ensures Lower(w, a, host, t, model, l) == Lower(w, b, host, t, model, l)
  {
    ReadsUnchanged(w, a, b, changed, host, t, model);
    ReadAllSame(w, a, b, LowerReads(w, b, host, t, model), l);
  }

  // ------------------------------------------------------------------- the vxlans key

  function Slot(m: Dict): Option<Yaml> { if "vxlans" in m then Some(m["vxlans"]) else None }

  /** The vxlans key of what read_settings merges from one file. */
  function FileSlot(repo: Repo, r: Read): Option<Yaml> {
    if r.path !in repo || !Truthy(repo[r.path]) || !repo[r.path].YDict? then None
    else match r.target
         case None => Slot(repo[r.path].entries)
         case Some(t) => match Filter(repo[r.path], t, FILTER_DEPTH) case YDict(m) => Slot(m) case _ => None
  }

  lemma ReadSlot(w: World, repo: Repo, r: Read, l: Layered<Yaml>)
    requires Complete(l) && ReadSettings(w, repo, r, l).Ok?
    ensures Slot(ReadSettings(w, repo, r, l).value.data)
            == if FileSlot(repo, r).Some? then FileSlot(repo, r) else Slot(l.data)
  {
  }

  ghost predicate NoVxlans(repo: Repo, p: Path) {
    p in repo && repo[p].YDict? ==> "vxlans" !in repo[p].entries
  }

  lemma NoVxlansNoSlot(repo: Repo, r: Read)
    requires NoVxlans(repo, r.path)
    ensures FileSlot(repo, r).None?
  {
    if r.path in repo && repo[r.path].YDict? && r.target.Some? {
      var m := repo[r.path].entries;
      assert "vxlans" !in FilterEntries(m, r.target.value, FILTER_DEPTH - 1);
    }
  }

  lemma {:induction false} ReadAllKeepsSlot(w: World, repo: Repo, files: seq<Read>, l: Layered<Yaml>)
    requires Complete(l) && ReadAll(w, repo, files, l).Ok?
    requires forall i :: 0 <= i < |files| ==> NoVxlans(repo, files[i].path)
    ensures Slot(ReadAll(w, repo, files, l).value.data) == Slot(l.data)
    decreases |files|
  {
    if files != [] {
      NoVxlansNoSlot(repo, files[0]);
      ReadSlot(w, repo, files[0], l);
      ReadAllKeepsSlot(w, repo, files[1..], ReadSettings(w, repo, files[0], l).value);
    }
  }

  lemma {:induction false} ReadAllSameSlot(w: World, a: Repo, b: Repo, files: seq<Read>,
                                           l: Layered<Yaml>, k: Layered<Yaml>)
    requires Complete(l) && Complete(k) && Slot(l.data) == Slot(k.data)
    requires ReadAll(w, a, files, l).Ok? && ReadAll(w, b, files, k).Ok?
    requires forall i :: 0 <= i < |files| ==>
                           SameAt(a, b, files[i].path) || (NoVxlans(a, files[i].path) && NoVxlans(b, files[i].path))
    ensures Slot(ReadAll(w, a, files, l).value.data) == Slot(ReadAll(w, b, files, k).value.data)
    decreases |files|
  {
    if files != [] {
      if !SameAt(a, b, files[0].path) {
        NoVxlansNoSlot(a, files[0]);
        NoVxlansNoSlot(b, files[0]);
      }
      ReadSlot(w, a, files[0], l);
      ReadSlot(w, b, files[0], k);
      var l', k' := ReadSettings(w, a, files[0], l).value, ReadSettings(w, b, files[0], k).value;
      ReadAllSameSlot(w, a, b, files[1..], l', k');
    }
  }

  /** The schema treats the vxlans key on its own. */
  ghost predicate FieldWise(w: World) {
    forall x, y ::
      w.schema(x).Some? && w.schema(y).Some? && Slot(x) == Slot(y)
      ==> VxlansOf(w.schema(x).value) == VxlansOf(w.schema(y).value)
  }

  /** No access-, group- or device-scoped file that n reads defines the vxlans key. */
  ghost predicate NoScopedVxlans(w: World, repo: Repo, n: Host)
    requires GROUPS_FILE in repo
  {
    forall p :: p in repo && p != [] && p[0] != "global" && Relevant(w, repo, p, n, ACCESS) ==> NoVxlans(repo, p)
  }

  lemma GlobalUnchanged(w: World, a: Repo, b: Repo, changed: set<Path>, host: Host, t: DevType, p: Path)
    requires GROUPS_FILE in a && GROUPS_FILE in b && Covers(changed, a, b) && Unmarked(w, b, changed, host, t)
    ensures IsGlobal(p) ==> SameAt(a, b, p)
    ensures a[GROUPS_FILE] == b[GROUPS_FILE]
  {
    if IsGlobal(p) { RelevantUnchanged(w, a, b, changed, host, t, p); }
    RelevantUnchanged(w, a, b, changed, host, t, GROUPS_FILE);
  }

  lemma LowerKeepsSlot(w: World, repo: Repo, n: Host, l: Layered<Yaml>)
    requires GROUPS_FILE in repo && NoScopedVxlans(w, repo, n) && Complete(l)
    requires ReadAll(w, repo, LowerReads(w, repo, n, ACCESS, ""), l).Ok?
    ensures Slot(ReadAll(w, repo, LowerReads(w, repo, n, ACCESS, ""), l).value.data) == Slot(l.data)
  {
    var files := LowerReads(w, repo, n, ACCESS, "");
    forall i | 0 <= i < |files| ensures NoVxlans(repo, files[i].path) {
      LowerRelevant(w, repo, n, ACCESS, "", i);
      LowerNotGlobal(w, repo, n, i);
    }
    ReadAllKeepsSlot(w, repo, files, l);
  }

  lemma LowerNotGlobal(w: World, repo: Repo, n: Host, i: nat)
    requires GROUPS_FILE in repo && i < |LowerReads(w, repo, n, ACCESS, "")|
    ensures !IsGlobal(LowerReads(w, repo, n, ACCESS, "")[i].path)
  {
    var g := GroupReads(repo, Primary(w, repo, n));
    var d := DeviceReads(w, repo, n, ACCESS, "", w.groupsOf(repo[GROUPS_FILE], n));
    if i < |g| {
      assert LowerReads(w, repo, n, ACCESS, "")[i] == g[i];
    } else {
      assert LowerReads(w, repo, n, ACCESS, "")[i] == d[i - |g|];
    }
  }

  lemma UnscopedContribution(w: World, a: Repo, b: Repo, changed: set<Path>, host: Host, t: DevType, n: Host)
    requires Verified(w, a) && Verified(w, b) && Covers(changed, a, b) && FieldWise(w)
    requires Unmarked(w, b, changed, host, t) && IsAccess(w, n)
    requires NoScopedVxlans(w, a, n) && NoScopedVxlans(w, b, n)
    requires GetSettings(w, a, n, ACCESS, "").Ok? && GetSettings(w, b, n, ACCESS, "").Ok?
    ensures Contribution(w, a, n) == Contribution(w, b, n)
  {
    GlobalUnchanged(w, a, b, changed, host, t, GROUPS_FILE);
    var groups := w.groupsOf(b[GROUPS_FILE], n);
    var files := UpperReads(n, ACCESS, groups);
    AccessLoads(w, a, n);
    AccessLoads(w, b, n);
    forall i | 0 <= i < |files|
      ensures SameAt(a, b, files[i].path) || (NoVxlans(a, files[i].path) && NoVxlans(b, files[i].path))
    {
      UpperUnscoped(w, a, n, groups, i);
      UpperUnscoped(w, b, n, groups, i);
      GlobalUnchanged(w, a, b, changed, host, t, files[i].path);
    }
    ReadAllSameSlot(w, a, b, files, Start(), Start());
    LowerSameSlot(w, a, b, n, Upper(w, a, n, ACCESS).value, Upper(w, b, n, ACCESS).value);
  }

  lemma AccessLoads(w: World, repo: Repo, n: Host)
    requires IsAccess(w, n) && Verified(w, repo) && GetSettings(w, repo, n, ACCESS, "").Ok?
    ensures Upper(w, repo, n, ACCESS).Ok?
    ensures GetSettings(w, repo, n, ACCESS, "") == Lower(w, repo, n, ACCESS, "", Upper(w, repo, n, ACCESS).value)
  {
  }

  lemma UpperUnscoped(w: World, repo: Repo, n: Host, groups: set<string>, i: nat)
    requires GROUPS_FILE in repo && NoScopedVxlans(w, repo, n) && i < |UpperReads(n, ACCESS, groups)|
    ensures IsGlobal(UpperReads(n, ACCESS, groups)[i].path) || NoVxlans(repo, UpperReads(n, ACCESS, groups)[i].path)
  {
    UpperRelevant(w, repo, n, ACCESS, groups, i);
  }

  lemma LowerSameSlot(w: World, a: Repo, b: Repo, n: Host, l: Layered<Yaml>, k: Layered<Yaml>)
    requires GROUPS_FILE in a && GROUPS_FILE in b && NoScopedVxlans(w, a, n) && NoScopedVxlans(w, b, n) && FieldWise(w)
    requires Complete(l) && Complete(k) && Slot(l.data) == Slot(k.data)
    requires Lower(w, a, n, ACCESS, "", l).Ok? && Lower(w, b, n, ACCESS, "", k).Ok?
    ensures VxlansOf(Lower(w, a, n, ACCESS, "", l).value.data) == VxlansOf(Lower(w, b, n, ACCESS, "", k).value.data)
  {
    LowerKeepsSlot(w, a, n, l);
    LowerKeepsSlot(w, b, n, k);
  }

  // ------------------------------------------------------------------- the theorem

  /** A downstream switch is itself unmarked, or gets its vxlans from global files alone and still loads. */
  ghost predicate Harmless(w: World, a: Repo, b: Repo, changed: set<Path>, n: Host)
    requires GROUPS_FILE in a && GROUPS_FILE in b
  {
    || Unmarked(w, b, changed, n, ACCESS)
    || (&& NoScopedVxlans(w, a, n) && NoScopedVxlans(w, b, n)
        && GetSettings(w, a, n, ACCESS, "").Ok? && GetSettings(w, b, n, ACCESS, "").Ok?)
  }

  /** A device left unmarked by a refresh has the same settings before and after it. */
  lemma InvalidationSound(w: World, a: Repo, b: Repo, changed: set<Path>, host: Host, t: DevType, model: string)
    requires Verified(w, a) && Verified(w, b) && Covers(changed, a, b) && FieldWise(w)
    requires Unmarked(w, b, changed, host, t)
    requires IsDist(w, host) ==>
               forall n :: n in w.devices[host].neighbors && IsAccess(w, n) ==> Harmless(w, a, b, changed, n)
    ensures GetSettings(w, a, host, t, model) == GetSettings(w, b, host, t, model)
  {
    if IsDist(w, host) {
      forall n | n in w.devices[host].neighbors && IsAccess(w, n)
        ensures Contribution(w, a, n) == Contribution(w, b, n)
      {
        if Unmarked(w, b, changed, n, ACCESS) {
          SameSettings(w, a, b, changed, n, ACCESS, "");
        } else {
          UnscopedContribution(w, a, b, changed, host, t, n);
        }
      }
    }
    SameSettings(w, a, b, changed, host, t, model);
  }

  ghost predicate AllIn(repo: Repo, files: seq<Read>) {
    forall i :: 0 <= i < |files| ==> files[i].path in repo
  }

  /** A file below the directory makes its three host files obligatory. */
  lemma DirHasFiles(w: World, repo: Repo, top: string, name: string)
    requires Verified(w, repo) && !Hidden(name) && IsDir(repo, [top, name])
    requires (top == "devices" && w.validHostname(name)) || (top == "groups" && name in GroupNames(w, repo))
    ensures HasHostFiles(repo, top, name)
  {
    var p :| p in repo && [top, name] < p;
    assert p[0] == [top, name][0] && p[1] == [top, name][1] && |p| > 2;
  }

  /** In a verified repository every file of a valid host exists, up to the name of its model file. */
  lemma FilesExist(w: World, repo: Repo, host: Host, t: DevType, model: string)
    requires Verified(w, repo) && w.validHostname(host) && !Hidden(host)
    requires Primary(w, repo, host) != "" ==>
               Primary(w, repo, host) in GroupNames(w, repo) && !Hidden(Primary(w, repo, host))
    ensures AllIn(repo, LowerReads(w, repo, host, t, model))
            <==> (UsesModelFile(w, repo, host, t, model) ==> ModelFile(t, w.lower(model)) in repo)
  {
    var primary := Primary(w, repo, host);
    GroupFilesExist(w, repo, primary);
    DeviceFilesExist(w, repo, host, t, model);
    var groups := w.groupsOf(repo[GROUPS_FILE], host);
    InAppend(repo, GroupReads(repo, primary), DeviceReads(w, repo, host, t, model, groups));
  }

  lemma UpperFilesExist(w: World, repo: Repo, host: Host, t: DevType)
    requires Verified(w, repo)
    ensures AllIn(repo, UpperReads(host, t, w.groupsOf(repo[GROUPS_FILE], host)))
  {
    var files := UpperReads(host, t, w.groupsOf(repo[GROUPS_FILE], host));
    forall i | 0 <= i < |files| ensures files[i].path in MANDATORY {}
  }

  lemma GroupFilesExist(w: World, repo: Repo, primary: string)
    requires Verified(w, repo) && (primary != "" ==> primary in GroupNames(w, repo) && !Hidden(primary))
    ensures AllIn(repo, GroupReads(repo, primary))
  {
    if GroupReads(repo, primary) != [] {
      DirHasFiles(w, repo, "groups", primary);
    }
  }

  lemma DeviceFilesExist(w: World, repo: Repo, host: Host, t: DevType, model: string)
    requires Verified(w, repo) && w.validHostname(host) && !Hidden(host)
    ensures AllIn(repo, DeviceReads(w, repo, host, t, model, w.groupsOf(repo[GROUPS_FILE], host)))
            <==> (UsesModelFile(w, repo, host, t, model) ==> ModelFile(t, w.lower(model)) in repo)
  {
    if IsDir(repo, ["devices", host]) {
      DirHasFiles(w, repo, "devices", host);
    } else if UsesModelFile(w, repo, host, t, model) {
      var d := DeviceReads(w, repo, host, t, model, w.groupsOf(repo[GROUPS_FILE], host));
      assert |d| == 1 && d[0].path == ModelFile(t, w.lower(model));
    }
  }

  lemma InAppend(repo: Repo, x: seq<Read>, y: seq<Read>)
    ensures AllIn(repo, x + y) <==> AllIn(repo, x) && AllIn(repo, y)
  {
    forall i | 0 <= i < |x| ensures (x + y)[i] == x[i] {}
    forall i | 0 <= i < |y| ensures (x + y)[|x| + i] == y[i] {}
    if AllIn(repo, x + y) {
      forall i | 0 <= i < |y| ensures y[i].path in repo { assert (x + y)[|x| + i].path in repo; }
    }
  }
}
