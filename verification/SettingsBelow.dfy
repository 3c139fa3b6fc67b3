/** What a distribution switch takes from the access switches below it. */
module SettingsBelow {
  import opened Common
  import opened FilterYaml
  import opened MergeDict
  import opened Settings
  import opened SettingsInheritance
  import opened SettingsOrder
  import opened SettingsFiles
  import opened InvalidationExact

  /** The vxlan in the settings a neighbour has of its own, if it is an access switch. */
  function OfferOf(w: World, repo: Repo, n: Host, name: string): Option<Yaml> {
    if n !in w.devices || w.devices[n].devtype != ACCESS then None
    else match GetSettings(w, repo, n, ACCESS, "")
         case Err(_) => None
         case Ok(l) =>
           if "vxlans" in l.data && l.data["vxlans"].YDict? && name in l.data["vxlans"].entries
           then Some(l.data["vxlans"].entries[name]) else None
  }

  /** Neighbour i offers the vxlan and none before it does. */
  ghost predicate FirstToOffer(w: World, repo: Repo, hosts: seq<Host>, name: string, i: nat, y: Yaml) {
    && i < |hosts| && OfferOf(w, repo, hosts[i], name) == Some(y)
    && forall j :: 0 <= j < i ==> OfferOf(w, repo, hosts[j], name) == None
  }

  /** An access switch hands over the vxlans of its own settings, and fails as those do or for want of them. */
  lemma ContributionIs(w: World, repo: Repo, n: Host)
    requires IsAccess(w, n)
    ensures var (c, own) := (Contribution(w, repo, n), GetSettings(w, repo, n, ACCESS, ""));
            if own.Err? then c == Err(own.error)
            else if "vxlans" !in own.value.data then c == Err(MissingKey)
            else if !own.value.data["vxlans"].YDict? then c == Err(AttributeError)
            else c == Ok(own.value.data["vxlans"].entries)
  {
  }

  lemma {:induction false} FirstOfferIs(contributions: seq<Result<Dict, SettingsError>>, name: string, i: nat)
    requires i <= |contributions|
    requires forall j :: 0 <= j < i ==> contributions[j].Err? || name !in contributions[j].value
    requires i < |contributions| ==> contributions[i].Ok? && name in contributions[i].value
    ensures FirstOffer(contributions, name)
            == if i < |contributions| then Some(contributions[i].value[name]) else None
    decreases |contributions|
  {
    if contributions != [] && i > 0 {
      assert forall j :: 0 < j < |contributions| ==> contributions[j] == contributions[1..][j - 1];
      FirstOfferIs(contributions[1..], name, i - 1);
    }
  }

  lemma OfferIs(w: World, repo: Repo, n: Host, name: string)
    requires IsAccess(w, n)
    ensures var c := Contribution(w, repo, n);
            OfferOf(w, repo, n, name) == if c.Ok? && name in c.value then Some(c.value[name]) else None
  {
    ContributionIs(w, repo, n);
  }

  lemma NoneOffered(w: World, repo: Repo, hosts: seq<Host>, name: string)
    requires forall i :: 0 <= i < |hosts| ==> OfferOf(w, repo, hosts[i], name) == None
    ensures FirstOffer(Contributions(w, repo, AccessOnly(w, hosts)), name) == None
  {
    var access := AccessOnly(w, hosts);
    ContributionsAre(w, repo, access);
    forall i | 0 <= i < |access|
      ensures Contribution(w, repo, access[i]).Err? || name !in Contribution(w, repo, access[i]).value
    {
      assert access[i] in access;
      OfferIs(w, repo, access[i], name);
    }
    FirstOfferIs(Contributions(w, repo, access), name, |access|);
  }

  lemma OfferedFirst(w: World, repo: Repo, hosts: seq<Host>, name: string, i: nat, y: Yaml)
    requires FirstToOffer(w, repo, hosts, name, i, y)
    ensures FirstOffer(Contributions(w, repo, AccessOnly(w, hosts)), name) == Some(y)
  {
    var access := AccessOnly(w, hosts);
    var at := BelowInOrder(w, hosts);
    ContributionsAre(w, repo, access);
    assert i in at;
    var m :| 0 <= m < |at| && at[m] == i;
    forall j | 0 <= j < m
      ensures Contribution(w, repo, access[j]).Err? || name !in Contribution(w, repo, access[j]).value
    {
      assert at[j] < i && access[j] == hosts[at[j]] && access[j] in access;
      OfferIs(w, repo, access[j], name);
    }
    OfferIs(w, repo, access[m], name);
    FirstOfferIs(Contributions(w, repo, access), name, m);
  }

  lemma {:induction false} FirstSome(offers: seq<Option<Yaml>>) returns (i: nat)
    ensures i <= |offers| && forall j :: 0 <= j < i ==> offers[j] == None
    ensures i < |offers| ==> offers[i].Some?
  {
    i := 0;
    if offers != [] && offers[0] == None {
      var k := FirstSome(offers[1..]);
      assert forall j :: 0 < j < |offers| ==> offers[j] == offers[1..][j - 1];
      i := k + 1;
    }
  }

  lemma OffersBelow(w: World, repo: Repo, hosts: seq<Host>, name: string, y: Yaml)
    ensures FirstOffer(Contributions(w, repo, AccessOnly(w, hosts)), name) == Some(y)
            <==> exists i :: FirstToOffer(w, repo, hosts, name, i, y)
  {
    var offers := seq(|hosts|, k requires 0 <= k < |hosts| => OfferOf(w, repo, hosts[k], name));
    var i := FirstSome(offers);
    assert forall j :: 0 <= j < |hosts| ==> offers[j] == OfferOf(w, repo, hosts[j], name);
    if i < |hosts| {
      assert FirstToOffer(w, repo, hosts, name, i, offers[i].value);
      OfferedFirst(w, repo, hosts, name, i, offers[i].value);
      if j :| FirstToOffer(w, repo, hosts, name, j, y) { OfferedFirst(w, repo, hosts, name, j, y); }
    } else {
      NoneOffered(w, repo, hosts, name);
    }
  }

  /**
   When no group or device file of a distribution switch defines vxlans, it has a vxlan of the levels
   above as it is there, and any other as the first access switch among its neighbours has it whose own
   settings have one of the name.
   */
  lemma VxlanFromBelowIff(w: World, repo: Repo, host: Host, t: DevType, model: string, name: string, y: Yaml)
    requires GROUPS_FILE in repo && host in w.devices && w.devices[host].devtype == DIST
    requires BeforeSchema(w, repo, host, t, model).Ok?
    requires !DefinesVxlans(repo, LowerReads(w, repo, host, t, model))
    ensures Upper(w, repo, host, t).Ok?
    ensures var above := VxlansAt(Upper(w, repo, host, t).value.data);
            var all := VxlansAt(BeforeSchema(w, repo, host, t, model).value.data);
            name in all && all[name] == y
            <==> if name in above then above[name] == y
                 else exists i :: FirstToOffer(w, repo, w.devices[host].neighbors, name, i, y)
  {
    VxlanComesFrom(w, repo, host, t, model, name);
    OffersBelow(w, repo, w.devices[host].neighbors, name, y);
  }
}
