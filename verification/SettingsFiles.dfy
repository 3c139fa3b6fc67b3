/** When the settings of a host load, and when a file they need is missing. */
module SettingsFiles {
  import opened Common
  import opened FilterYaml
  import opened MergeDict
  import opened Settings
  import opened InvalidationTheorems

  /** The file is there and, where it is filtered, passes the schema and the filter. */
  ghost predicate Loadable(w: World, repo: Repo, r: Read) {
    && r.path in repo
    && (Truthy(repo[r.path]) && repo[r.path].YDict? && r.target.Some? ==>
          && w.schema(repo[r.path].entries).Some? && WellTyped(repo[r.path], FILTER_DEPTH)
          && Filter(repo[r.path], r.target.value, FILTER_DEPTH).YDict?)
  }

  ghost predicate AllLoadable(w: World, repo: Repo, files: seq<Read>) {
    forall i :: 0 <= i < |files| ==> Loadable(w, repo, files[i])
  }

  lemma ReadLoadsIff(w: World, repo: Repo, r: Read, l: Layered<Yaml>)
    requires Complete(l)
    ensures ReadSettings(w, repo, r, l).Ok? <==> Loadable(w, repo, r)
    ensures ReadSettings(w, repo, r, l) == Err(FileNotFound) <==> r.path !in repo
  {
  }

  /** Whether a list of files loads depends on the files alone, not on what was merged before. */
  lemma {:induction false} ReadAllLoadsIff(w: World, repo: Repo, files: seq<Read>, l: Layered<Yaml>)
    requires Complete(l)
    ensures ReadAll(w, repo, files, l).Ok? <==> AllLoadable(w, repo, files)
    decreases |files|
  {
    if files != [] {
      ReadLoadsIff(w, repo, files[0], l);
      if ReadSettings(w, repo, files[0], l).Ok? {
        ReadAllLoadsIff(w, repo, files[1..], ReadSettings(w, repo, files[0], l).value);
        assert forall i :: 0 < i < |files| ==> files[i] == files[1..][i - 1];
      }
    }
  }

  /** File i is missing and the ones before it load. */
  ghost predicate FirstMissing(w: World, repo: Repo, files: seq<Read>, i: nat) {
    i < |files| && files[i].path !in repo && AllLoadable(w, repo, files[..i])
  }

  lemma {:induction false} ReadAllNotFoundIff(w: World, repo: Repo, files: seq<Read>, l: Layered<Yaml>)
    requires Complete(l)
    ensures ReadAll(w, repo, files, l) == Err(FileNotFound) <==> exists i :: FirstMissing(w, repo, files, i)
    decreases |files|
  {
    if files != [] {
      ReadLoadsIff(w, repo, files[0], l);
      var next := ReadSettings(w, repo, files[0], l);
      if next.Ok? {
        ReadAllNotFoundIff(w, repo, files[1..], next.value);
        MissingLater(w, repo, files);
      } else if next == Err(FileNotFound) {
        assert FirstMissing(w, repo, files, 0);
      } else {
        forall i: nat | i > 0 ensures !FirstMissing(w, repo, files, i) {
          if i <= |files| { assert files[..i][0] == files[0]; }
        }
      }
    }
  }

  lemma MissingLater(w: World, repo: Repo, files: seq<Read>)
    requires files != [] && Loadable(w, repo, files[0])
    ensures (exists i :: FirstMissing(w, repo, files, i)) <==> exists i :: FirstMissing(w, repo, files[1..], i)
  {
    forall i: nat ensures FirstMissing(w, repo, files, i + 1) <==> FirstMissing(w, repo, files[1..], i) {
      if i + 1 < |files| {
        assert files[..i + 1] == [files[0]] + files[1..][..i];
        assert forall j :: 0 <= j < i ==> files[1..][..i][j] == files[..i + 1][j + 1];
      }
    }
    if i: nat :| FirstMissing(w, repo, files, i) {
      assert FirstMissing(w, repo, files[1..], i - 1);
    }
  }

  lemma NoneMissing(w: World, repo: Repo, files: seq<Read>, l: Layered<Yaml>)
    requires Complete(l) && AllIn(repo, files)
    ensures ReadAll(w, repo, files, l) != Err(FileNotFound)
  {
    ReadAllNotFoundIff(w, repo, files, l);
  }

  // -------------------------------------------------------------- the model file

  /** A valid host whose primary group, if any, is one of the settings. */
  ghost predicate Known(w: World, repo: Repo, host: Host)
    requires GROUPS_FILE in repo
  {
    && w.validHostname(host) && !Hidden(host)
    && (Primary(w, repo, host) != "" ==>
          Primary(w, repo, host) in GroupNames(w, repo) && !Hidden(Primary(w, repo, host)))
  }

  /**
   A distribution or core switch without a directory of its own whose model file is there under the
   sanitized name and not under the one that is read.
   */
  ghost predicate MissesModelFile(w: World, repo: Repo, host: Host, t: DevType, model: string) {
    && !IsDir(repo, ["devices", host]) && model != ""
    && (|| (&& t == DIST && ["dist", "interfaces_" + w.sanitize(model) + ".yml"] in repo
            && ["dist", "interfaces_" + w.lower(model) + ".yml"] !in repo)
        || (&& t == CORE && ["core", "interfaces_" + w.sanitize(model) + ".yml"] in repo
            && ["core", "interfaces_" + w.lower(model) + ".yml"] !in repo))
  }

  lemma MissesIff(w: World, repo: Repo, host: Host, t: DevType, model: string)
    ensures MissesModelFile(w, repo, host, t, model)
            <==> UsesModelFile(w, repo, host, t, model) && ModelFile(t, w.lower(model)) !in repo
  {
  }

  /** What is read before the device files loads. */
  ghost predicate EarlierLoads(w: World, repo: Repo, host: Host, t: DevType)
    requires GROUPS_FILE in repo
  {
    && Upper(w, repo, host, t).Ok?
    && (IsDist(w, host) ==> Downstream(w, repo, w.devices[host].neighbors, Upper(w, repo, host, t).value).Ok?)
    && AllLoadable(w, repo, GroupReads(repo, Primary(w, repo, host)))
  }

  lemma DeviceNotFoundIff(w: World, repo: Repo, host: Host, t: DevType, model: string, l: Layered<Yaml>)
    requires Verified(w, repo) && Known(w, repo, host) && Complete(l)
    ensures var d := DeviceReads(w, repo, host, t, model, w.groupsOf(repo[GROUPS_FILE], host));
            ReadAll(w, repo, d, l) == Err(FileNotFound) <==> MissesModelFile(w, repo, host, t, model)
  {
    var d := DeviceReads(w, repo, host, t, model, w.groupsOf(repo[GROUPS_FILE], host));
    DeviceFilesExist(w, repo, host, t, model);
    MissesIff(w, repo, host, t, model);
    if AllIn(repo, d) {
      NoneMissing(w, repo, d, l);
    } else {
      assert |d| == 1 && FirstMissing(w, repo, d, 0);
      ReadAllNotFoundIff(w, repo, d, l);
    }
  }

  lemma {:induction false} ReadAllAppend(w: World, repo: Repo, a: seq<Read>, b: seq<Read>, l: Layered<Yaml>)
    requires Complete(l)
    ensures ReadAll(w, repo, a + b, l)
            == if ReadAll(w, repo, a, l).Ok? then ReadAll(w, repo, b, ReadAll(w, repo, a, l).value)
               else ReadAll(w, repo, a, l)
    decreases |a|
  {
    if a == [] {
      assert a + b == b;
    } else {
      assert (a + b)[0] == a[0] && (a + b)[1..] == a[1..] + b;
      var next := ReadSettings(w, repo, a[0], l);
      if next.Ok? { ReadAllAppend(w, repo, a[1..], b, next.value); }
    }
  }

  lemma GroupNotFound(w: World, repo: Repo, host: Host, l: Layered<Yaml>)
    requires Verified(w, repo) && Known(w, repo, host) && Complete(l)
    ensures var g := GroupReads(repo, Primary(w, repo, host));
            && (ReadAll(w, repo, g, l).Ok? <==> AllLoadable(w, repo, g))
            && ReadAll(w, repo, g, l) != Err(FileNotFound)
  {
    var g := GroupReads(repo, Primary(w, repo, host));
    ReadAllLoadsIff(w, repo, g, l);
    GroupFilesExist(w, repo, Primary(w, repo, host));
    NoneMissing(w, repo, g, l);
  }

  lemma LowerReadsNotFoundIff(w: World, repo: Repo, host: Host, t: DevType, model: string, l: Layered<Yaml>)
    requires Verified(w, repo) && Known(w, repo, host) && Complete(l)
    ensures ReadAll(w, repo, LowerReads(w, repo, host, t, model), l) == Err(FileNotFound)
            <==> && AllLoadable(w, repo, GroupReads(repo, Primary(w, repo, host)))
                 && MissesModelFile(w, repo, host, t, model)
  {
    var g := GroupReads(repo, Primary(w, repo, host));
    var d := DeviceReads(w, repo, host, t, model, w.groupsOf(repo[GROUPS_FILE], host));
    ReadAllAppend(w, repo, g, d, l);
    GroupNotFound(w, repo, host, l);
    var grouped := ReadAll(w, repo, g, l);
    if grouped.Ok? { DeviceNotFoundIff(w, repo, host, t, model, grouped.value); }
  }

  lemma LowerNotFoundIff(w: World, repo: Repo, host: Host, t: DevType, model: string, l: Layered<Yaml>)
    requires Verified(w, repo) && Known(w, repo, host) && Complete(l)
    ensures Lower(w, repo, host, t, model, l) == Err(FileNotFound)
            <==> && AllLoadable(w, repo, GroupReads(repo, Primary(w, repo, host)))
                 && MissesModelFile(w, repo, host, t, model)
  {
    LowerReadsNotFoundIff(w, repo, host, t, model, l);
    assert Lower(w, repo, host, t, model, l) == Err(FileNotFound)
        <==> ReadAll(w, repo, LowerReads(w, repo, host, t, model), l) == Err(FileNotFound);
  }

  lemma UpperIsFound(w: World, repo: Repo, host: Host, t: DevType)
    requires Verified(w, repo)
    ensures Upper(w, repo, host, t) != Err(FileNotFound)
  {
    UpperFilesExist(w, repo, host, t);
    NoneMissing(w, repo, UpperReads(host, t, w.groupsOf(repo[GROUPS_FILE], host)), Start());
  }

  lemma ContributionIsFound(w: World, repo: Repo, n: Host)
    requires Verified(w, repo) && IsAccess(w, n) && Known(w, repo, n)
    ensures Contribution(w, repo, n) != Err(FileNotFound)
  {
    UpperIsFound(w, repo, n, ACCESS);
    var upper := Upper(w, repo, n, ACCESS);
    if upper.Ok? { LowerNotFoundIff(w, repo, n, ACCESS, "", upper.value); }
  }

  lemma {:induction false} AddAllIsFound(contributions: seq<Result<Dict, SettingsError>>, l: Layered<Yaml>)
    requires Complete(l)
    requires forall i :: 0 <= i < |contributions| ==> contributions[i] != Err(FileNotFound)
    ensures AddAll(contributions, l) != Err(FileNotFound)
    decreases |contributions|
  {
    if contributions != [] && contributions[0].Ok? && AddMissing(l, contributions[0].value).Ok? {
      AddAllIsFound(contributions[1..], AddMissing(l, contributions[0].value).value);
    }
  }

  lemma {:induction false} ContributionsAre(w: World, repo: Repo, hosts: seq<Host>)
    requires forall h :: h in hosts ==> IsAccess(w, h)
    ensures |Contributions(w, repo, hosts)| == |hosts|
    ensures forall i :: 0 <= i < |hosts| ==>
                          hosts[i] in hosts && Contributions(w, repo, hosts)[i] == Contribution(w, repo, hosts[i])
    decreases |hosts|
  {
    if hosts != [] {
      assert forall h :: h in hosts[1..] ==> h in hosts;
      ContributionsAre(w, repo, hosts[1..]);
      assert forall i :: 0 < i < |hosts| ==> hosts[i] == hosts[1..][i - 1];
    }
  }

  lemma DownstreamIsFound(w: World, repo: Repo, hosts: seq<Host>, l: Layered<Yaml>)
    requires Verified(w, repo) && Complete(l)
    requires forall n :: n in hosts && IsAccess(w, n) ==> Known(w, repo, n)
    ensures Downstream(w, repo, hosts, l) != Err(FileNotFound)
  {
    var access := AccessOnly(w, hosts);
    ContributionsAre(w, repo, access);
    forall i | 0 <= i < |access| ensures Contributions(w, repo, access)[i] != Err(FileNotFound) {
      ContributionIsFound(w, repo, access[i]);
    }
    AddAllIsFound(Contributions(w, repo, access), l);
  }

  /**
   In a verified repository the settings of a known host fail for a missing file exactly when all
   that comes first loads and its model file is there under the sanitized but not the read name.
   */
  lemma FileNotFoundIff(w: World, repo: Repo, host: Host, t: DevType, model: string)
    requires Verified(w, repo) && Known(w, repo, host)
    requires IsDist(w, host) ==> forall n :: n in w.devices[host].neighbors && IsAccess(w, n) ==> Known(w, repo, n)
    ensures GetSettings(w, repo, host, t, model) == Err(FileNotFound)
            <==> EarlierLoads(w, repo, host, t) && MissesModelFile(w, repo, host, t, model)
  {
    UpperIsFound(w, repo, host, t);
    var upper := Upper(w, repo, host, t);
    if upper.Ok? {
      if IsDist(w, host) { DownstreamIsFound(w, repo, w.devices[host].neighbors, upper.value); }
      var merged := if IsDist(w, host) then Downstream(w, repo, w.devices[host].neighbors, upper.value) else upper;
      if merged.Ok? {
        Pipeline(w, repo, host, t, model, upper.value, merged.value);
        LowerNotFoundIff(w, repo, host, t, model, merged.value);
      }
    }
  }

  // ---------------------------------------------------------- the names of a model

  /** White space of ASCII, as str.split takes it. */
  predicate Space(c: char) { c == ' ' || 9 <= c as int <= 13 || 28 <= c as int <= 31 }

  predicate NoSpace(s: string) { forall i :: 0 <= i < |s| ==> !Space(s[i]) }

  function LowerChar(c: char): char { if 'A' <= c <= 'Z' then (c as int + 32) as char else c }

  /** str.lower for ASCII. */
  function LowerCase(s: string): (r: string)
    ensures |r| == |s| && forall i :: 0 <= i < |s| ==> r[i] == LowerChar(s[i])
  {
    if s == "" then "" else [LowerChar(s[0])] + LowerCase(s[1..])
  }

  /** The length of the first word. */
  function WordLength(s: string): (n: nat)
    ensures n <= |s| && NoSpace(s[..n]) && (n < |s| ==> Space(s[n]))
  {
    if s == "" || Space(s[0]) then 0
    else
      var n := 1 + WordLength(s[1..]);
      assert forall i :: 0 < i < n ==> s[..n][i] == s[1..][..n - 1][i - 1];
      n
  }

  function Words(s: string): seq<string>
    decreases |s|
  {
    if s == "" then []
    else if Space(s[0]) then Words(s[1..])
    else [s[..WordLength(s)]] + Words(s[WordLength(s)..])
  }

  function Underscored(words: seq<string>): string {
    if words == [] then "" else if |words| == 1 then words[0] else words[0] + "_" + Underscored(words[1..])
  }

  /** model_name_sanitize; splitting drops the outer white space that strip removes first. */
  function ModelNameSanitize(model: string): string { Underscored(Words(LowerCase(model))) }

  lemma {:induction false} WordsHaveNoSpace(s: string)
    ensures NoSpace(Underscored(Words(s)))
    decreases |s|
  {
    if s != "" {
      if Space(s[0]) {
        WordsHaveNoSpace(s[1..]);
      } else {
        var n := WordLength(s);
        WordsHaveNoSpace(s[n..]);
        var rest := Words(s[n..]);
        assert ([s[..n]] + rest)[1..] == rest;
        if rest == [] { assert Underscored(Words(s)) == s[..n]; }
      }
    }
  }

  lemma OneWord(s: string)
    requires NoSpace(s)
    ensures Underscored(Words(s)) == s
  {
    if s != "" {
      assert WordLength(s) == |s| && s[..|s|] == s;
      assert Words(s[|s|..]) == [];
    }
  }

  /** The two names of a model file are the same exactly when the model name has no white space. */
  lemma ModelNamesAgreeIff(model: string)
    ensures ModelNameSanitize(model) == LowerCase(model) <==> NoSpace(model)
  {
    var lower := LowerCase(model);
    WordsHaveNoSpace(lower);
    forall c: char ensures Space(LowerChar(c)) <==> Space(c) {}
    if NoSpace(model) { OneWord(lower); }
    if ModelNameSanitize(model) == lower {
      forall i | 0 <= i < |model| ensures !Space(model[i]) { assert !Space(lower[i]); }
    }
  }

  /** Without white space in its model name the settings of a known host never fail for a missing file. */
  lemma SpacelessModelIsFound(w: World, repo: Repo, host: Host, t: DevType, model: string)
    requires Verified(w, repo) && Known(w, repo, host) && NoSpace(model)
    requires IsDist(w, host) ==> forall n :: n in w.devices[host].neighbors && IsAccess(w, n) ==> Known(w, repo, n)
    requires w.sanitize(model) == ModelNameSanitize(model) && w.lower(model) == LowerCase(model)
    ensures GetSettings(w, repo, host, t, model) != Err(FileNotFound)
  {
    ModelNamesAgreeIff(model);
    FileNotFoundIff(w, repo, host, t, model);
  }
}
