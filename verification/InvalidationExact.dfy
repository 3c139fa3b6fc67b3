/** When exactly an unmarked distribution switch keeps its settings. */
module InvalidationExact {
  import opened Common
  import opened FilterYaml
  import opened MergeDict
  import opened Settings
  import opened SettingsInheritance
  import opened Invalidation
  import opened InvalidationTheorems

  /** The vxlans of a settings dictionary, none when the key is missing or not a dictionary. */
  function VxlansAt(m: Dict): Dict {
    if "vxlans" in m && m["vxlans"].YDict? then m["vxlans"].entries else map[]
  }

  /** What the first switch that offers a vxlan of this name offers. */
  function FirstOffer(contributions: seq<Result<Dict, SettingsError>>, name: string): Option<Yaml> {
    if contributions == [] then None
    else if contributions[0].Ok? && name in contributions[0].value then Some(contributions[0].value[name])
    else FirstOffer(contributions[1..], name)
  }

  ghost predicate Offered(l: Layered<Yaml>, contributions: seq<Result<Dict, SettingsError>>, out: Layered<Yaml>,
                          name: string) {
    && (name in VxlansAt(l.data) ==> name in VxlansAt(out.data) && VxlansAt(out.data)[name] == VxlansAt(l.data)[name])
    && (name !in VxlansAt(l.data) ==>
          match FirstOffer(contributions, name)
          case None => name !in VxlansAt(out.data)
          case Some(y) => name in VxlansAt(out.data) && VxlansAt(out.data)[name] == y)
  }

  /** Merging the switches below keeps what is above and takes the rest from the first that offers it. */
  lemma {:induction false} AddAllOffers(contributions: seq<Result<Dict, SettingsError>>, l: Layered<Yaml>, name: string)
    requires Complete(l) && AddAll(contributions, l).Ok?
    ensures Offered(l, contributions, AddAll(contributions, l).value, name)
    decreases |contributions|
  {
    if contributions != [] {
      var vxlans := contributions[0].value;
      var next := AddMissing(l, vxlans).value;
      AddAllOffers(contributions[1..], next, name);
      assert name in VxlansAt(next.data) <==> name in VxlansAt(l.data) || name in vxlans;
    }
  }

  /** The vxlans key is there and a dictionary as before; otherwise nothing was added. */
  lemma {:induction false} AddAllKeepsShape(contributions: seq<Result<Dict, SettingsError>>, l: Layered<Yaml>)
    requires Complete(l) && AddAll(contributions, l).Ok?
    ensures var out := AddAll(contributions, l).value;
            && ("vxlans" in out.data <==> "vxlans" in l.data)
            && ("vxlans" in l.data ==> (out.data["vxlans"].YDict? <==> l.data["vxlans"].YDict?))
            && ("vxlans" in l.data && !l.data["vxlans"].YDict? ==> out == l)
    decreases |contributions|
  {
    if contributions != [] { AddAllKeepsShape(contributions[1..], AddMissing(l, contributions[0].value).value); }
  }

  ghost predicate AgreeOn(l: Layered<Yaml>, m: Layered<Yaml>, k: string) {
    (k in l.data <==> k in m.data) && (k in l.data ==> l.data[k] == m.data[k])
  }

  lemma SameIffAgree(l: Layered<Yaml>, m: Layered<Yaml>)
    requires l.origin == m.origin
    ensures l == m <==> forall k :: AgreeOn(l, m, k)
  {
    if forall k :: AgreeOn(l, m, k) {
      forall k ensures k in l.data <==> k in m.data { assert AgreeOn(l, m, k); }
      forall k | k in l.data ensures l.data[k] == m.data[k] { assert AgreeOn(l, m, k); }
      assert l.data == m.data;
    }
  }

  /** Two lists of switches add the same exactly when they first offer the same for every name missing above. */
  lemma AddAllSameIff(p: seq<Result<Dict, SettingsError>>, q: seq<Result<Dict, SettingsError>>, l: Layered<Yaml>)
    requires Complete(l) && AddAll(p, l).Ok? && AddAll(q, l).Ok?
    ensures AddAll(p, l) == AddAll(q, l)
            <==> forall name :: name !in VxlansAt(l.data) ==> FirstOffer(p, name) == FirstOffer(q, name)
  {
    var x, y := AddAll(p, l).value, AddAll(q, l).value;
    forall name ensures Offered(l, p, x, name) && Offered(l, q, y, name) {
      AddAllOffers(p, l, name);
      AddAllOffers(q, l, name);
    }
    AddAllKeepsShape(p, l);
    AddAllKeepsShape(q, l);
    AddAllAddsVxlans(p, l);
    AddAllAddsVxlans(q, l);
    if forall name :: name !in VxlansAt(l.data) ==> FirstOffer(p, name) == FirstOffer(q, name) {
      forall name ensures AgreeOn(x, y, name) {
        assert VxlansAt(x.data) == VxlansAt(y.data) by {
          forall n ensures n in VxlansAt(x.data) <==> n in VxlansAt(y.data) {
            assert Offered(l, p, x, n) && Offered(l, q, y, n);
          }
          forall n | n in VxlansAt(x.data) ensures VxlansAt(x.data)[n] == VxlansAt(y.data)[n] {
            assert Offered(l, p, x, n) && Offered(l, q, y, n);
          }
        }
        if name == "vxlans" && "vxlans" in l.data && l.data["vxlans"].YDict? {
          assert x.data["vxlans"] == YDict(VxlansAt(x.data)) && y.data["vxlans"] == YDict(VxlansAt(y.data));
        }
      }
      SameIffAgree(x, y);
    } else {
      var name :| name !in VxlansAt(l.data) && FirstOffer(p, name) != FirstOffer(q, name);
      assert Offered(l, p, x, name) && Offered(l, q, y, name);
    }
  }

  // ------------------------------------------------------------------- the layers below

  ghost predicate DefinesVxlans(repo: Repo, files: seq<Read>) {
    exists i :: 0 <= i < |files| && Defines(repo, files[i], "vxlans")
  }

  lemma {:induction false} SomeIsLast(repo: Repo, files: seq<Read>, k: string, n: nat) returns (i: nat)
    requires n <= |files| && exists j :: 0 <= j < n && Defines(repo, files[j], k)
    requires forall j :: n <= j < |files| ==> !Defines(repo, files[j], k)
    ensures LastToDefine(repo, files, k, i)
    decreases n
  {
    if Defines(repo, files[n - 1], k) { i := n - 1; } else { i := SomeIsLast(repo, files, k, n - 1); }
  }

  /** Reading on, two starting points agree on a key exactly when a file defines it or they agreed before. */
  lemma ReadingOnAgreesIff(w: World, repo: Repo, files: seq<Read>, l: Layered<Yaml>, m: Layered<Yaml>, k: string)
    requires Complete(l) && Complete(m) && ReadAll(w, repo, files, l).Ok? && ReadAll(w, repo, files, m).Ok?
    requires l.origin == m.origin
    ensures AgreeOn(ReadAll(w, repo, files, l).value, ReadAll(w, repo, files, m).value, k)
            <==> AgreeOn(l, m, k) || exists i :: 0 <= i < |files| && Defines(repo, files[i], k)
    ensures var (x, y) := (ReadAll(w, repo, files, l).value, ReadAll(w, repo, files, m).value);
            (k in x.origin <==> k in y.origin) && (k in x.origin ==> x.origin[k] == y.origin[k])
  {
    if exists i :: 0 <= i < |files| && Defines(repo, files[i], k) {
      var i := SomeIsLast(repo, files, k, |files|);
      LastFileWins(w, repo, files, l, k, i);
      LastFileWins(w, repo, files, m, k, i);
    } else {
      UndefinedKeyStays(w, repo, files, l, k);
      UndefinedKeyStays(w, repo, files, m, k);
    }
  }

  lemma ReadingOnSameIff(w: World, repo: Repo, files: seq<Read>, l: Layered<Yaml>, m: Layered<Yaml>)
    requires Complete(l) && Complete(m) && ReadAll(w, repo, files, l).Ok? && ReadAll(w, repo, files, m).Ok?
    requires l.origin == m.origin && forall k :: k != "vxlans" ==> AgreeOn(l, m, k)
    ensures ReadAll(w, repo, files, l) == ReadAll(w, repo, files, m) <==> DefinesVxlans(repo, files) || l == m
  {
    var x, y := ReadAll(w, repo, files, l).value, ReadAll(w, repo, files, m).value;
    forall k
      ensures AgreeOn(x, y, k) <==> AgreeOn(l, m, k) || exists i :: 0 <= i < |files| && Defines(repo, files[i], k)
    {
      ReadingOnAgreesIff(w, repo, files, l, m, k);
    }
    forall k ensures (k in x.origin <==> k in y.origin) && (k in x.origin ==> x.origin[k] == y.origin[k]) {
      ReadingOnAgreesIff(w, repo, files, l, m, k);
    }
    assert x.origin == y.origin;
    SameIffAgree(x, y);
    SameIffAgree(l, m);
    assert AgreeOn(x, y, "vxlans") <==> AgreeOn(l, m, "vxlans") || DefinesVxlans(repo, files);
  }

  // ------------------------------------------------------------------------ the theorem

  /** What the access switches below a distribution switch hand over, in the order they are merged. */
  function Below(w: World, repo: Repo, host: Host): seq<Result<Dict, SettingsError>>
    requires IsDist(w, host)
  {
    Contributions(w, repo, AccessOnly(w, w.devices[host].neighbors))
  }

  /** Every vxlan missing above is first offered below as it was, if at all. */
  ghost predicate SameOffers(w: World, a: Repo, b: Repo, host: Host, t: DevType)
    requires GROUPS_FILE in b && IsDist(w, host) && Upper(w, b, host, t).Ok?
  {
    forall name :: name !in VxlansAt(Upper(w, b, host, t).value.data) ==>
                     FirstOffer(Below(w, a, host), name) == FirstOffer(Below(w, b, host), name)
  }

  lemma MergedParts(w: World, repo: Repo, host: Host, t: DevType, model: string)
    requires GROUPS_FILE in repo && IsDist(w, host) && BeforeSchema(w, repo, host, t, model).Ok?
    ensures Upper(w, repo, host, t).Ok? && AddAll(Below(w, repo, host), Upper(w, repo, host, t).value).Ok?
    ensures var merged := AddAll(Below(w, repo, host), Upper(w, repo, host, t).value).value;
            && ReadAll(w, repo, LowerReads(w, repo, host, t, model), merged) == BeforeSchema(w, repo, host, t, model)
            && AddsVxlans(Upper(w, repo, host, t).value, merged)
  {
    AddAllAddsVxlans(Below(w, repo, host), Upper(w, repo, host, t).value);
  }

  /**
   An unmarked distribution switch that loads before and after has the same merged settings exactly
   when its own group or device files define the vxlans key or the switches below offer the same.
   */
  lemma DistUnchangedIff(w: World, a: Repo, b: Repo, changed: set<Path>, host: Host, t: DevType, model: string)
    requires GROUPS_FILE in a && GROUPS_FILE in b && Covers(changed, a, b) && Unmarked(w, b, changed, host, t)
    requires IsDist(w, host) && BeforeSchema(w, a, host, t, model).Ok? && BeforeSchema(w, b, host, t, model).Ok?
    ensures Upper(w, b, host, t).Ok?
    ensures BeforeSchema(w, a, host, t, model) == BeforeSchema(w, b, host, t, model)
            <==> DefinesVxlans(b, LowerReads(w, b, host, t, model)) || SameOffers(w, a, b, host, t)
  {
    MergedParts(w, a, host, t, model);
    MergedParts(w, b, host, t, model);
    UpperSame(w, a, b, changed, host, t);
    ReadsUnchanged(w, a, b, changed, host, t, model);
    var upper, files := Upper(w, b, host, t).value, LowerReads(w, b, host, t, model);
    var x, y := AddAll(Below(w, a, host), upper).value, AddAll(Below(w, b, host), upper).value;
    ReadAllSame(w, a, b, files, x);
    ReadingOnSameIff(w, b, files, x, y);
    AddAllSameIff(Below(w, a, host), Below(w, b, host), upper);
  }

  /** The same merged settings give the same settings. */
  lemma SameBeforeSchema(w: World, a: Repo, b: Repo, host: Host, t: DevType, model: string)
    requires Verified(w, a) && Verified(w, b)
    requires GetSettings(w, a, host, t, model).Ok? && GetSettings(w, b, host, t, model).Ok?
    requires BeforeSchema(w, a, host, t, model) == BeforeSchema(w, b, host, t, model)
    ensures GetSettings(w, a, host, t, model) == GetSettings(w, b, host, t, model)
  {
    SchemaComesLast(w, a, host, t, model);
    SchemaComesLast(w, b, host, t, model);
  }

  /** A vxlan of a distribution switch that none of its own files decides: kept from above, or first offered below. */
  lemma VxlanComesFrom(w: World, repo: Repo, host: Host, t: DevType, model: string, name: string)
    requires GROUPS_FILE in repo && IsDist(w, host) && BeforeSchema(w, repo, host, t, model).Ok?
    requires !DefinesVxlans(repo, LowerReads(w, repo, host, t, model))
    ensures Upper(w, repo, host, t).Ok?
    ensures var merged := BeforeSchema(w, repo, host, t, model).value;
            Offered(Upper(w, repo, host, t).value, Below(w, repo, host), merged, name)
  {
    MergedParts(w, repo, host, t, model);
    var upper, files := Upper(w, repo, host, t).value, LowerReads(w, repo, host, t, model);
    AddAllOffers(Below(w, repo, host), upper, name);
    UndefinedKeyStays(w, repo, files, AddAll(Below(w, repo, host), upper).value, "vxlans");
  }

  // --------------------------------------------------------------- and the settings themselves

  /** The schema fills in defaults but neither drops nor adds a vxlan. */
  ghost predicate NamesKept(w: World) {
    forall m :: w.schema(m).Some? ==>
                  VxlansOf(w.schema(m).value).Ok? && VxlansOf(w.schema(m).value).value.Keys == VxlansAt(m).Keys
  }

  /** A vxlan name that is new below, and missing above, changes the settings unless a file of the switch decides. */
  lemma NewNameBelowChanges(w: World, a: Repo, b: Repo, host: Host, t: DevType, model: string, name: string)
    requires Verified(w, a) && Verified(w, b) && NamesKept(w) && IsDist(w, host)
    requires GetSettings(w, a, host, t, model).Ok? && GetSettings(w, b, host, t, model).Ok?
    requires !DefinesVxlans(a, LowerReads(w, a, host, t, model)) && !DefinesVxlans(b, LowerReads(w, b, host, t, model))
    requires Upper(w, a, host, t) == Upper(w, b, host, t)
    requires Upper(w, a, host, t).Ok? ==> name !in VxlansAt(Upper(w, a, host, t).value.data)
    requires FirstOffer(Below(w, a, host), name) == None && FirstOffer(Below(w, b, host), name).Some?
    ensures GetSettings(w, a, host, t, model) != GetSettings(w, b, host, t, model)
  {
    SchemaComesLast(w, a, host, t, model);
    SchemaComesLast(w, b, host, t, model);
    VxlanComesFrom(w, a, host, t, model, name);
    VxlanComesFrom(w, b, host, t, model, name);
  }

  function DumpAll(m: Dict, dump: Yaml -> Yaml): Dict { map name | name in m :: dump(m[name]) }

  /** The schema returns each vxlan as dump makes of it, and once returned unaltered. */
  ghost predicate DumpsVxlans(w: World, dump: Yaml -> Yaml) {
    && (forall y :: dump(dump(y)) == dump(y))
    && (forall m :: w.schema(m).Some? ==> VxlansOf(w.schema(m).value) == Ok(DumpAll(VxlansAt(m), dump)))
  }

  /** What a switch offers has been returned by the schema already. */
  lemma {:induction false} OffersAreDumped(w: World, repo: Repo, hosts: seq<Host>, name: string, dump: Yaml -> Yaml)
    requires DumpsVxlans(w, dump) && forall h :: h in hosts ==> IsAccess(w, h)
    ensures var offer := FirstOffer(Contributions(w, repo, hosts), name);
            offer.Some? ==> dump(offer.value) == offer.value
    decreases |hosts|
  {
    if hosts != [] {
      var c := Contribution(w, repo, hosts[0]);
      assert forall h :: h in hosts[1..] ==> h in hosts;
      OffersAreDumped(w, repo, hosts[1..], name, dump);
      var rest := Contributions(w, repo, hosts[1..]);
      assert ([c] + rest)[1..] == rest;
      if c.Ok? && name in c.value { ContributionIsDumped(w, repo, hosts[0], name, dump); }
    }
  }

  lemma ContributionIsDumped(w: World, repo: Repo, n: Host, name: string, dump: Yaml -> Yaml)
    requires DumpsVxlans(w, dump) && IsAccess(w, n) && Contribution(w, repo, n).Ok?
    requires name in Contribution(w, repo, n).value
    ensures dump(Contribution(w, repo, n).value[name]) == Contribution(w, repo, n).value[name]
  {
    SchemaComesLast(w, repo, n, ACCESS, "");
    var l := BeforeSchema(w, repo, n, ACCESS, "").value;
    assert Contribution(w, repo, n) == Ok(DumpAll(VxlansAt(l.data), dump));
  }

  /** A name that is first offered below differently shows in what the schema returns. */
  lemma OtherOfferShows(w: World, a: Repo, b: Repo, host: Host, t: DevType, model: string, name: string,
                        dump: Yaml -> Yaml)
    requires GROUPS_FILE in a && GROUPS_FILE in b && IsDist(w, host) && DumpsVxlans(w, dump)
    requires BeforeSchema(w, a, host, t, model).Ok? && BeforeSchema(w, b, host, t, model).Ok?
    requires !DefinesVxlans(a, LowerReads(w, a, host, t, model)) && !DefinesVxlans(b, LowerReads(w, b, host, t, model))
    requires Upper(w, a, host, t) == Upper(w, b, host, t)
    requires Upper(w, b, host, t).Ok? ==> name !in VxlansAt(Upper(w, b, host, t).value.data)
    requires FirstOffer(Below(w, a, host), name) != FirstOffer(Below(w, b, host), name)
    ensures DumpAll(VxlansAt(BeforeSchema(w, a, host, t, model).value.data), dump)
            != DumpAll(VxlansAt(BeforeSchema(w, b, host, t, model).value.data), dump)
  {
    VxlanComesFrom(w, a, host, t, model, name);
    VxlanComesFrom(w, b, host, t, model, name);
    var x := DumpAll(VxlansAt(BeforeSchema(w, a, host, t, model).value.data), dump);
    var y := DumpAll(VxlansAt(BeforeSchema(w, b, host, t, model).value.data), dump);
    OffersAreDumped(w, a, AccessOnly(w, w.devices[host].neighbors), name, dump);
    OffersAreDumped(w, b, AccessOnly(w, w.devices[host].neighbors), name, dump);
    if name in x && name in y {
      assert x[name] == FirstOffer(Below(w, a, host), name).value;
      assert y[name] == FirstOffer(Below(w, b, host), name).value;
    }
  }

  lemma DefinesSame(w: World, a: Repo, b: Repo, changed: set<Path>, host: Host, t: DevType, model: string)
    requires GROUPS_FILE in a && GROUPS_FILE in b && Covers(changed, a, b) && Unmarked(w, b, changed, host, t)
    ensures DefinesVxlans(a, LowerReads(w, a, host, t, model)) <==> DefinesVxlans(b, LowerReads(w, b, host, t, model))
  {
    ReadsUnchanged(w, a, b, changed, host, t, model);
    var files := LowerReads(w, b, host, t, model);
    forall i | 0 <= i < |files| ensures Defines(a, files[i], "vxlans") <==> Defines(b, files[i], "vxlans") {
      assert SameAt(a, b, files[i].path);
    }
  }

  lemma OtherSettings(w: World, a: Repo, b: Repo, host: Host, t: DevType, model: string, dump: Yaml -> Yaml)
    requires Verified(w, a) && Verified(w, b) && DumpsVxlans(w, dump)
    requires GetSettings(w, a, host, t, model).Ok? && GetSettings(w, b, host, t, model).Ok?
    ensures BeforeSchema(w, a, host, t, model).Ok? && BeforeSchema(w, b, host, t, model).Ok?
    ensures DumpAll(VxlansAt(BeforeSchema(w, a, host, t, model).value.data), dump)
            != DumpAll(VxlansAt(BeforeSchema(w, b, host, t, model).value.data), dump)
            ==> GetSettings(w, a, host, t, model) != GetSettings(w, b, host, t, model)
  {
    SchemaComesLast(w, a, host, t, model);
    SchemaComesLast(w, b, host, t, model);
  }

  lemma SameSettingsSameOffers(w: World, a: Repo, b: Repo, changed: set<Path>, host: Host, t: DevType, model: string,
                               dump: Yaml -> Yaml)
    requires Verified(w, a) && Verified(w, b) && Covers(changed, a, b) && Unmarked(w, b, changed, host, t)
    requires IsDist(w, host) && DumpsVxlans(w, dump)
    requires GetSettings(w, a, host, t, model).Ok?
    requires GetSettings(w, a, host, t, model) == GetSettings(w, b, host, t, model)
    requires !DefinesVxlans(b, LowerReads(w, b, host, t, model)) && Upper(w, b, host, t).Ok?
    ensures SameOffers(w, a, b, host, t)
  {
    UpperSame(w, a, b, changed, host, t);
    DefinesSame(w, a, b, changed, host, t, model);
    OtherSettings(w, a, b, host, t, model, dump);
    forall name | name !in VxlansAt(Upper(w, b, host, t).value.data)
      ensures FirstOffer(Below(w, a, host), name) == FirstOffer(Below(w, b, host), name)
    {
      if FirstOffer(Below(w, a, host), name) != FirstOffer(Below(w, b, host), name) {
        OtherOfferShows(w, a, b, host, t, model, name, dump);
      }
    }
  }

  /**
   An unmarked distribution switch that loads before and after has the same settings exactly when
   its own group or device files define the vxlans key or the switches below offer the same.
   */
  lemma DistSettingsUnchangedIff(w: World, a: Repo, b: Repo, changed: set<Path>, host: Host, t: DevType, model: string,
                                 dump: Yaml -> Yaml)
    requires Verified(w, a) && Verified(w, b) && Covers(changed, a, b) && Unmarked(w, b, changed, host, t)
    requires IsDist(w, host) && DumpsVxlans(w, dump)
    requires GetSettings(w, a, host, t, model).Ok? && GetSettings(w, b, host, t, model).Ok?
    ensures Upper(w, b, host, t).Ok?
    ensures GetSettings(w, a, host, t, model) == GetSettings(w, b, host, t, model)
            <==> DefinesVxlans(b, LowerReads(w, b, host, t, model)) || SameOffers(w, a, b, host, t)
  {
    SchemaComesLast(w, a, host, t, model);
    SchemaComesLast(w, b, host, t, model);
    DistUnchangedIff(w, a, b, changed, host, t, model);
    if DefinesVxlans(b, LowerReads(w, b, host, t, model)) || SameOffers(w, a, b, host, t) {
      SameBeforeSchema(w, a, b, host, t, model);
    } else if GetSettings(w, a, host, t, model) == GetSettings(w, b, host, t, model) {
      SameSettingsSameOffers(w, a, b, changed, host, t, model, dump);
    }
  }
}
