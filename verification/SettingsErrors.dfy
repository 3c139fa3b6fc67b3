/** With which error the settings of a host fail, from the first check to the last. */
module SettingsErrors {
  import opened Common
  import opened FilterYaml
  import opened MergeDict
  import opened Settings
  import opened SettingsInheritance
  import opened SettingsBelow

  // ------------------------------------------------------------------ the layout of the repository

  predicate HasThree(repo: Repo, top: string, name: string) {
    && [top, name, "base_system.yml"] in repo && [top, name, "interfaces.yml"] in repo
    && [top, name, "routing.yml"] in repo
  }

  /** A directory below devices or groups that does not start with a dot, by one of the files in it. */
  predicate InSubdir(p: Path, top: string) {
    |p| > 2 && p[0] == top && (p[1] == "" || p[1][0] != '.')
  }

  ghost predicate HasDir(repo: Repo, top: string) { exists p :: p in repo && |p| > 1 && p[0] == top }

  /** The eight files, the two directories, and three files for each device and each group of the settings. */
  ghost predicate InLayout(w: World, repo: Repo) {
    && ["global", "base_system.yml"] in repo && ["global", "groups.yml"] in repo && ["global", "routing.yml"] in repo
    && ["global", "vxlans.yml"] in repo && ["fabric", "base_system.yml"] in repo && ["core", "base_system.yml"] in repo
    && ["dist", "base_system.yml"] in repo && ["access", "base_system.yml"] in repo
    && HasDir(repo, "devices") && HasDir(repo, "groups")
    && (forall p :: p in repo && InSubdir(p, "devices") && w.validHostname(p[1]) ==> HasThree(repo, "devices", p[1]))
    && (forall p :: p in repo && InSubdir(p, "groups") && p[1] in w.groupNames(repo[["global", "groups.yml"]]) ==>
          HasThree(repo, "groups", p[1]))
  }

  lemma HasDirIff(repo: Repo, top: string)
    ensures IsDir(repo, [top]) <==> HasDir(repo, top)
  {
    forall p | p in repo ensures [top] < p <==> |p| > 1 && p[0] == top {
      if |p| > 1 && p[0] == top { assert p[..1] == [top]; }
    }
  }

  lemma VerifiedIff(w: World, repo: Repo)
    ensures Verified(w, repo) <==> InLayout(w, repo)
  {
    HasDirIff(repo, "devices");
    HasDirIff(repo, "groups");
    if MANDATORY <= repo.Keys {
      assert ["fabric", "base_system.yml"] in MANDATORY && ["global", "vxlans.yml"] in MANDATORY;
      assert ["core", "base_system.yml"] in MANDATORY && ["dist", "base_system.yml"] in MANDATORY;
      assert ["access", "base_system.yml"] in MANDATORY && ["global", "routing.yml"] in MANDATORY;
      assert ["global", "base_system.yml"] in MANDATORY && ["global", "groups.yml"] in MANDATORY;
    }
  }

  lemma {:induction false} ReadAllPassesLayout(w: World, repo: Repo, files: seq<Read>, l: Layered<Yaml>)
    requires Complete(l)
    ensures ReadAll(w, repo, files, l) != Err(VerifyPathError)
    decreases |files|
  {
    if files != [] && ReadSettings(w, repo, files[0], l).Ok? {
      ReadAllPassesLayout(w, repo, files[1..], ReadSettings(w, repo, files[0], l).value);
    }
  }

  lemma AccessMergingPassesLayout(w: World, repo: Repo, n: Host)
    requires GROUPS_FILE in repo && IsAccess(w, n)
    ensures BeforeSchema(w, repo, n, ACCESS, "") != Err(VerifyPathError)
  {
    ReadAllPassesLayout(w, repo, UpperReads(n, ACCESS, w.groupsOf(repo[GROUPS_FILE], n)), Start());
    var upper := Upper(w, repo, n, ACCESS);
    if upper.Ok? { ReadAllPassesLayout(w, repo, LowerReads(w, repo, n, ACCESS, ""), upper.value); }
  }

  lemma ContributionPassesLayout(w: World, repo: Repo, n: Host)
    requires Verified(w, repo) && IsAccess(w, n)
    ensures Contribution(w, repo, n) != Err(VerifyPathError)
  {
    SchemaDecides(w, repo, n, ACCESS, "");
    AccessMergingPassesLayout(w, repo, n);
    ContributionIs(w, repo, n);
  }

  lemma {:induction false} DownstreamPassesLayout(w: World, repo: Repo, hosts: seq<Host>, l: Layered<Yaml>)
    requires Verified(w, repo) && Complete(l) && forall h :: h in hosts ==> IsAccess(w, h)
    ensures AddAll(Contributions(w, repo, hosts), l) != Err(VerifyPathError)
    decreases |hosts|
  {
    if hosts != [] {
      var c := Contribution(w, repo, hosts[0]);
      assert forall h :: h in hosts[1..] ==> h in hosts;
      assert ([c] + Contributions(w, repo, hosts[1..]))[1..] == Contributions(w, repo, hosts[1..]);
      ContributionPassesLayout(w, repo, hosts[0]);
      if c.Ok? && AddMissing(l, c.value).Ok? {
        DownstreamPassesLayout(w, repo, hosts[1..], AddMissing(l, c.value).value);
      }
    }
  }

  lemma MergingPassesLayout(w: World, repo: Repo, host: Host, t: DevType, model: string)
    requires Verified(w, repo)
    ensures BeforeSchema(w, repo, host, t, model) != Err(VerifyPathError)
  {
    ReadAllPassesLayout(w, repo, UpperReads(host, t, w.groupsOf(repo[GROUPS_FILE], host)), Start());
    var upper := Upper(w, repo, host, t);
    if upper.Ok? {
      if IsDist(w, host) {
        DownstreamPassesLayout(w, repo, AccessOnly(w, w.devices[host].neighbors), upper.value);
      }
      var merged := if IsDist(w, host) then Downstream(w, repo, w.devices[host].neighbors, upper.value) else upper;
      if merged.Ok? { ReadAllPassesLayout(w, repo, LowerReads(w, repo, host, t, model), merged.value); }
    }
  }

  /** In a repository in order merging fails with its own error, and otherwise the schema has the last word. */
  lemma SchemaDecides(w: World, repo: Repo, host: Host, t: DevType, model: string)
    requires Verified(w, repo)
    ensures GetSettings(w, repo, host, t, model)
            == match BeforeSchema(w, repo, host, t, model)
               case Err(e) => Err(e)
               case Ok(l) =>
                 if w.schema(l.data).Some? then Ok(Layered(w.schema(l.data).value, l.origin)) else Err(SyntaxError)
  {
    var upper := Upper(w, repo, host, t);
    if upper.Ok? {
      var merged := if IsDist(w, host) then Downstream(w, repo, w.devices[host].neighbors, upper.value) else upper;
      if merged.Ok? { Pipeline(w, repo, host, t, model, upper.value, merged.value); }
    }
  }

  /** The settings of any host fail for the layout exactly when the repository is not laid out as described. */
  lemma LayoutErrorIff(w: World, repo: Repo, host: Host, t: DevType, model: string)
    ensures GetSettings(w, repo, host, t, model) == Err(VerifyPathError) <==> !InLayout(w, repo)
  {
    VerifiedIff(w, repo);
    if Verified(w, repo) {
      SchemaDecides(w, repo, host, t, model);
      MergingPassesLayout(w, repo, host, t, model);
    }
  }

  // ------------------------------------------------------------------------------- a single file

  /** A dictionary with something in it that is read for some groups or a host. */
  predicate Selected(repo: Repo, r: Read) {
    r.path in repo && r.target.Some? && repo[r.path].YDict? && repo[r.path].entries != map[]
  }

  /**
   A file fails when it is missing; when it is read for groups or a host and the schema or the filter
   refuses it; and when it is kept for others than these as a whole.
   */
  lemma FileErrorIff(w: World, repo: Repo, r: Read, l: Layered<Yaml>)
    requires Complete(l)
    ensures var out := ReadSettings(w, repo, r, l);
            && (out == Err(FileNotFound) <==> r.path !in repo)
            && (out == Err(SyntaxError) <==>
                  && Selected(repo, r)
                  && (w.schema(repo[r.path].entries).None? || !WellTyped(repo[r.path], 100)))
            && (out == Err(TypeError) <==>
                  && Selected(repo, r) && w.schema(repo[r.path].entries).Some? && WellTyped(repo[r.path], 100)
                  && Filter(repo[r.path], r.target.value, 100).YNull?)
            && (out.Err? ==> out.error in {FileNotFound, SyntaxError, TypeError})
  {
    if Selected(repo, r) { DictStaysIff(repo[r.path].entries, r.target.value, 100); }
  }
}
