/** Which devices a change of the settings repository marks as unsynchronized, and why that is enough. */
module Invalidation {
  import opened Common
  import opened FilterYaml
  import opened MergeDict
  import opened Settings

  datatype Unsynced = Unsynced(types: set<DevType>, hosts: set<Host>)

  const TOP_DIRS := {"global", "fabric", "core", "dist", "access", "devices", "groups"}

  /** The device types a changed file concerns. */
  function TypesOf(p: Path): set<DevType> {
    if p == [] then {}
    else if p[0] == "fabric" then {DIST, CORE}
    else if p[0] == "access" then {ACCESS}
    else if p[0] == "dist" then {DIST}
    else if p[0] == "core" then {CORE}
    else {}
  }

  /** The hosts a changed file concerns: its own directory's, or all in the primary group it belongs to. */
  function HostsOf(w: World, repo: Repo, p: Path): set<Host>
    requires GROUPS_FILE in repo
  {
    var primary := w.primaryOf(repo[GROUPS_FILE]);
    if |p| < 2 then {}
    else if p[0] == "devices" && w.validHostname(p[1]) then {p[1]}
    else if p[0] == "groups" && p[1] in GroupNames(w, repo) then set h | h in primary && primary[h] == p[1]
    else {}
  }

  predicate IsGlobal(p: Path) { p != [] && p[0] == "global" }

  function Syncstatus(w: World, repo: Repo, changed: set<Path>): Unsynced
    requires GROUPS_FILE in repo
  {
    if exists p :: p in changed && IsGlobal(p) then Unsynced({ACCESS, DIST, CORE}, {})
    else Unsynced(set p, t | p in changed && t in TypesOf(p) :: t,
                  set p, h | p in changed && h in HostsOf(w, repo, p) :: h)
  }

  method SettingsSyncstatus(w: World, repo: Repo, changed: set<Path>) returns (u: Unsynced)
    requires GROUPS_FILE in repo
    ensures u == Syncstatus(w, repo, changed)
  {
    var types: set<DevType>, hosts: set<Host> := {}, {};
    var primary := w.primaryOf(repo[GROUPS_FILE]);
    var todo := changed;
    ghost var done: set<Path> := {};
    while todo != {}
      invariant todo + done == changed
      invariant forall p :: p in done ==> !IsGlobal(p)
      invariant types == set p, t | p in done && t in TypesOf(p) :: t
      invariant hosts == set p, h | p in done && h in HostsOf(w, repo, p) :: h
      decreases todo
    {
      var p :| p in todo;
      todo, done := todo - {p}, done + {p};
      ghost var oldTypes, oldHosts := types, hosts;
      if p == [] || p[0] !in TOP_DIRS {
      } else if p[0] == "global" {
        assert IsGlobal(p);
        return Unsynced({ACCESS, DIST, CORE}, {});
      } else if p[0] == "fabric" {
        types := types + {DIST, CORE};
      } else if p[0] == "access" {
        types := types + {ACCESS};
      } else if p[0] == "dist" {
        types := types + {DIST};
      } else if p[0] == "core" {
        types := types + {CORE};
      } else if p[0] == "devices" {
        if |p| > 1 && w.validHostname(p[1]) { hosts := hosts + {p[1]}; }
      } else if |p| > 1 && p[1] in GroupNames(w, repo) {
        hosts := hosts + set h | h in primary && primary[h] == p[1];
      }
      assert types == oldTypes + TypesOf(p);
      assert hosts == oldHosts + HostsOf(w, repo, p);
    }
    assert done == changed;
    return Unsynced(types, hosts);
  }

  // ------------------------------------------------------------------- soundness

  /** The changed set names every path whose presence or content differs. */
  ghost predicate Covers(changed: set<Path>, a: Repo, b: Repo) {
    forall p :: p !in changed ==> SameAt(a, b, p)
  }

  ghost predicate SameAt(a: Repo, b: Repo, p: Path) {
    (p in a <==> p in b) && (p in a ==> a[p] == b[p])
  }

  /** Neither the type nor the host is marked; the host name is valid and its primary group known. */
  ghost predicate Unmarked(w: World, repo: Repo, changed: set<Path>, host: Host, t: DevType)
    requires GROUPS_FILE in repo
  {
    var u := Syncstatus(w, repo, changed);
    && t != UNKNOWN && t !in u.types && host !in u.hosts && w.validHostname(host)
    && (Primary(w, repo, host) != "" ==> Primary(w, repo, host) in GroupNames(w, repo))
  }

  /** What an unmarked host can read: everything global, of its type, of itself and of its primary group. */
  ghost predicate Relevant(w: World, repo: Repo, p: Path, host: Host, t: DevType)
    requires GROUPS_FILE in repo
  {
    && p != []
    && (|| p[0] == "global"
        || (p[0] == "fabric" && (t == DIST || t == CORE))
        || (p[0] == "access" && t == ACCESS)
        || (p[0] == "dist" && t == DIST)
        || (p[0] == "core" && t == CORE)
        || (|p| > 1 && p[0] == "devices" && p[1] == host)
        || (|p| > 1 && p[0] == "groups" && p[1] == Primary(w, repo, host) && p[1] != ""))
  }

  /** A change to anything relevant marks the type or the host. */
  lemma RelevantMarks(w: World, repo: Repo, changed: set<Path>, host: Host, t: DevType, p: Path)
    requires GROUPS_FILE in repo && p in changed && Relevant(w, repo, p, host, t)
    requires t != UNKNOWN && w.validHostname(host)
    requires Primary(w, repo, host) != "" ==> Primary(w, repo, host) in GroupNames(w, repo)
    ensures t in Syncstatus(w, repo, changed).types || host in Syncstatus(w, repo, changed).hosts
  {
    if forall q :: q in changed ==> !IsGlobal(q) {
      if p[0] in {"fabric", "access", "dist", "core"} {
        assert t in TypesOf(p);
      } else {
        assert host in HostsOf(w, repo, p);
      }
    }
  }

  /** A type is marked exactly by a change that is global, in its own directory, or for both fabric types in theirs. */
  lemma TypeMarkedIff(w: World, repo: Repo, changed: set<Path>, t: DevType)
    requires GROUPS_FILE in repo
    ensures t in Syncstatus(w, repo, changed).types <==>
            exists p :: && p in changed && p != []
                        && (|| (p[0] == "global" && t != UNKNOWN)
                            || (p[0] == "fabric" && (t == DIST || t == CORE))
                            || (p[0] == "access" && t == ACCESS)
                            || (p[0] == "dist" && t == DIST)
                            || (p[0] == "core" && t == CORE))
  {
    forall p: Path ensures t in TypesOf(p) <==>
        p != [] && (|| (p[0] == "fabric" && (t == DIST || t == CORE)) || (p[0] == "access" && t == ACCESS)
                    || (p[0] == "dist" && t == DIST) || (p[0] == "core" && t == CORE)) {}
    var types := set p, u | p in changed && u in TypesOf(p) :: u;
    if p :| p in changed && t in TypesOf(p) { assert t in types; }
  }

  /** A host is marked on its own exactly by a change in its directory or in that of its primary group. */
  lemma HostMarkedIff(w: World, repo: Repo, changed: set<Path>, host: Host)
    requires GROUPS_FILE in repo
    ensures host in Syncstatus(w, repo, changed).hosts <==>
            && (forall p :: p in changed && p != [] ==> p[0] != "global")
            && exists p :: && p in changed && |p| >= 2
                           && (|| (p[0] == "devices" && p[1] == host && w.validHostname(host))
                               || (&& p[0] == "groups" && p[1] in w.groupNames(repo[GROUPS_FILE])
                                   && host in w.primaryOf(repo[GROUPS_FILE])
                                   && w.primaryOf(repo[GROUPS_FILE])[host] == p[1]))
  {
    forall p: Path ensures host in HostsOf(w, repo, p) <==>
        |p| >= 2 && (|| (p[0] == "devices" && p[1] == host && w.validHostname(host))
                     || (&& p[0] == "groups" && p[1] in w.groupNames(repo[GROUPS_FILE])
                         && host in w.primaryOf(repo[GROUPS_FILE])
                         && w.primaryOf(repo[GROUPS_FILE])[host] == p[1])) {}
    var hosts := set p, h | p in changed && h in HostsOf(w, repo, p) :: h;
    if p :| p in changed && host in HostsOf(w, repo, p) { assert host in hosts; }
  }

  /** A valid host with a known primary group is marked exactly by a change to something it can read. */
  lemma MarkedIffRelevant(w: World, repo: Repo, changed: set<Path>, host: Host, t: DevType)
    requires GROUPS_FILE in repo && t != UNKNOWN && w.validHostname(host) && "" !in GroupNames(w, repo)
    requires Primary(w, repo, host) != "" ==> Primary(w, repo, host) in GroupNames(w, repo)
    ensures t in Syncstatus(w, repo, changed).types || host in Syncstatus(w, repo, changed).hosts
            <==> exists p :: p in changed && Relevant(w, repo, p, host, t)
  {
    if p :| p in changed && Relevant(w, repo, p, host, t) { RelevantMarks(w, repo, changed, host, t, p); }
    TypeMarkedIff(w, repo, changed, t);
    HostMarkedIff(w, repo, changed, host);
    if t in Syncstatus(w, repo, changed).types {
      var p :| && p in changed && p != []
               && (|| p[0] == "global" || (p[0] == "fabric" && (t == DIST || t == CORE))
                   || (p[0] == "access" && t == ACCESS) || (p[0] == "dist" && t == DIST)
                   || (p[0] == "core" && t == CORE));
      assert Relevant(w, repo, p, host, t);
    }
    if host in Syncstatus(w, repo, changed).hosts {
      var p :| && p in changed && |p| >= 2
               && (|| (p[0] == "devices" && p[1] == host)
                   || (p[0] == "groups" && p[1] in GroupNames(w, repo) && Primary(w, repo, host) == p[1]));
      assert Relevant(w, repo, p, host, t);
    }
  }

  lemma RelevantUnchanged(w: World, a: Repo, b: Repo, changed: set<Path>, host: Host, t: DevType, p: Path)
    requires GROUPS_FILE in a && GROUPS_FILE in b && Covers(changed, a, b)
    requires Unmarked(w, b, changed, host, t) && Relevant(w, b, p, host, t)
    ensures SameAt(a, b, p)
  {
    if p in changed { RelevantMarks(w, b, changed, host, t, p); }
  }

  lemma DirUnchanged(w: World, a: Repo, b: Repo, changed: set<Path>, host: Host, t: DevType, dir: Path)
    requires GROUPS_FILE in a && GROUPS_FILE in b && Covers(changed, a, b)
    requires Unmarked(w, b, changed, host, t) && Relevant(w, b, dir, host, t)
    ensures IsDir(a, dir) <==> IsDir(b, dir)
  {
    forall p | dir < p ensures SameAt(a, b, p) {
      RelevantUnchanged(w, a, b, changed, host, t, p);
    }
    if IsDir(a, dir) {
      var p :| p in a && dir < p;
      assert SameAt(a, b, p);
    }
    if IsDir(b, dir) {
      var p :| p in b && dir < p;
      assert SameAt(a, b, p);
    }
  }

  lemma {:induction false} ReadAllSame(w: World, a: Repo, b: Repo, files: seq<Read>, l: Layered<Yaml>)
    requires Complete(l)
    requires forall i :: 0 <= i < |files| ==> SameAt(a, b, files[i].path)
    ensures ReadAll(w, a, files, l) == ReadAll(w, b, files, l)
    decreases |files|
  {
    if files != [] {
      assert ReadSettings(w, a, files[0], l) == ReadSettings(w, b, files[0], l);
      var next := ReadSettings(w, a, files[0], l);
      if next.Ok? { ReadAllSame(w, a, b, files[1..], next.value); }
    }
  }

  lemma UpperRelevant(w: World, repo: Repo, host: Host, t: DevType, groups: set<string>, i: nat)
    requires GROUPS_FILE in repo && i < |UpperReads(host, t, groups)|
    ensures Relevant(w, repo, UpperReads(host, t, groups)[i].path, host, t)
  {
  }

  lemma LowerRelevant(w: World, repo: Repo, host: Host, t: DevType, model: string, i: nat)
    requires GROUPS_FILE in repo && i < |LowerReads(w, repo, host, t, model)| && t != UNKNOWN
    ensures Relevant(w, repo, LowerReads(w, repo, host, t, model)[i].path, host, t)
  {
    var g := GroupReads(repo, Primary(w, repo, host));
    var d := DeviceReads(w, repo, host, t, model, w.groupsOf(repo[GROUPS_FILE], host));
    if i < |g| {
      assert LowerReads(w, repo, host, t, model)[i] == g[i];
    } else {
      assert LowerReads(w, repo, host, t, model)[i] == d[i - |g|];
    }
  }

  /** The unmarked host reads the same list of files, with the same content, from both repositories. */
  lemma ReadsUnchanged(w: World, a: Repo, b: Repo, changed: set<Path>, host: Host, t: DevType, model: string)
    requires GROUPS_FILE in a && GROUPS_FILE in b && Covers(changed, a, b) && Unmarked(w, b, changed, host, t)
    ensures a[GROUPS_FILE] == b[GROUPS_FILE]
    ensures LowerReads(w, a, host, t, model) == LowerReads(w, b, host, t, model)
    ensures forall i :: 0 <= i < |LowerReads(w, b, host, t, model)| ==>
                      SameAt(a, b, LowerReads(w, b, host, t, model)[i].path)
    ensures var groups := w.groupsOf(b[GROUPS_FILE], host);
            forall i :: 0 <= i < |UpperReads(host, t, groups)| ==> SameAt(a, b, UpperReads(host, t, groups)[i].path)
  {
    RelevantUnchanged(w, a, b, changed, host, t, GROUPS_FILE);
    var groups := w.groupsOf(b[GROUPS_FILE], host);
    forall i | 0 <= i < |UpperReads(host, t, groups)| ensures SameAt(a, b, UpperReads(host, t, groups)[i].path) {
      UpperRelevant(w, b, host, t, groups, i);
      RelevantUnchanged(w, a, b, changed, host, t, UpperReads(host, t, groups)[i].path);
    }
    var primary := Primary(w, b, host);
    if primary != "" { DirUnchanged(w, a, b, changed, host, t, ["groups", primary]); }
    DirUnchanged(w, a, b, changed, host, t, ["devices", host]);
    RelevantUnchanged(w, a, b, changed, host, t, ModelFile(t, w.sanitize(model)));
    forall i | 0 <= i < |LowerReads(w, b, host, t, model)|
      ensures SameAt(a, b, LowerReads(w, b, host, t, model)[i].path)
    {
      LowerRelevant(w, b, host, t, model, i);
      RelevantUnchanged(w, a, b, changed, host, t, LowerReads(w, b, host, t, model)[i].path);
    }
  }
}
