/** Dropping repeated links from a list, in whichever direction they were seen. */
module LinknetDedup {
  import opened Common

  datatype Link = Link(aHost: string, aPort: string, bHost: string, bPort: string, rest: string)

  function Key(aHost: string, aPort: string, bHost: string, bPort: string): string {
    aHost + ":" + aPort + ":" + bHost + ":" + bPort
  }

  function KeyOf(l: Link): string { Key(l.aHost, l.aPort, l.bHost, l.bPort) }

  function MirrorKeyOf(l: Link): string { Key(l.bHost, l.bPort, l.aHost, l.aPort) }

  predicate SameEnds(l: Link, m: Link) {
    l.aHost == m.aHost && l.aPort == m.aPort && l.bHost == m.bHost && l.bPort == m.bPort
  }

  predicate Mirrored(l: Link, m: Link) {
    l.aHost == m.bHost && l.aPort == m.bPort && l.bHost == m.aHost && l.bPort == m.aPort
  }

  /** The same cable, seen from either side. */
  predicate SameCable(l: Link, m: Link) { SameEnds(l, m) || Mirrored(l, m) }

  /** The first link of every cable, in the order of the list. */
  function FirstOfEach(links: seq<Link>): seq<Link> {
    if links == [] then []
    else
      var before, last := links[..|links| - 1], links[|links| - 1];
      FirstOfEach(before) + (if exists i :: 0 <= i < |before| && SameCable(before[i], last) then [] else [last])
  }

  predicate NoColon(s: string) { ':' !in s }

  /** A valid host name has no colon. */
  predicate HostsColonFree(l: Link) { NoColon(l.aHost) && NoColon(l.bHost) }

  /** The port contains a colon followed by the host name, which ends there or at another colon. */
  ghost predicate Embeds(port: string, host: string) {
    || (exists x :: port == x + ":" + host)
    || (exists x, z :: port == x + ":" + host + ":" + z)
  }

  ghost predicate NoPortEmbedsHost(links: seq<Link>) {
    forall i, j :: 0 <= i < |links| && 0 <= j < |links| ==>
      && !Embeds(links[i].aPort, links[j].aHost) && !Embeds(links[i].aPort, links[j].bHost)
      && !Embeds(links[i].bPort, links[j].aHost) && !Embeds(links[i].bPort, links[j].bHost)
  }

  /** Host names without colons, and ports that do not embed them. */
  ghost predicate SafeNames(links: seq<Link>) {
    (forall i :: 0 <= i < |links| ==> HostsColonFree(links[i])) && NoPortEmbedsHost(links)
  }

  /** No two links of the list share a joined string. */
  predicate NoSharedKey(links: seq<Link>) {
    forall i, j :: 0 <= i < j < |links| ==> !SameKey(links[i], links[j])
  }

  method DeduplicateLinknetDicts(links: seq<Link>) returns (ret: seq<Link>)
    ensures ret == FirstOfEach(links) <==> NoSharedKey(FirstOfEach(links))
    ensures ret == ByKey(links)
  {
    var populated: seq<string> := [];
    ret := [];
    for i := 0 to |links|
      invariant ret == ByKey(links[..i])
      invariant populated == KeysOf(ret)
    {
      NextByKey(links, i);
      var a, b := KeyOf(links[i]), MirrorKeyOf(links[i]);
      KnownIff(ret, links[i]);
      if a in populated || b in populated {
        continue;
      }
      populated := populated + [a] + [b];
      NextKeys(ret, links[i]);
      ret := ret + [links[i]];
    }
    assert links[..|links|] == links;
    ExactIff(links);
  }

  /** The same by the joined strings the code compares. */
  predicate SameKey(l: Link, m: Link) {
    KeyOf(l) == KeyOf(m) || MirrorKeyOf(l) == KeyOf(m) || KeyOf(l) == MirrorKeyOf(m) || MirrorKeyOf(l) == MirrorKeyOf(m)
  }

  /** The strings recorded for the links kept so far. */
  function KeysOf(kept: seq<Link>): seq<string> {
    if kept == [] then [] else KeysOf(kept[..|kept| - 1]) + [KeyOf(kept[|kept| - 1]), MirrorKeyOf(kept[|kept| - 1])]
  }

  lemma {:induction false} KnownIff(kept: seq<Link>, l: Link)
    ensures KeyOf(l) in KeysOf(kept) || MirrorKeyOf(l) in KeysOf(kept)
            <==> exists j :: 0 <= j < |kept| && SameKey(kept[j], l)
  {
    if kept != [] {
      var before := kept[..|kept| - 1];
      KnownIff(before, l);
      assert forall j :: 0 <= j < |before| ==> before[j] == kept[j];
    }
  }

  /** What comparing with the keys of the links kept so far leaves. */
  function ByKey(links: seq<Link>): seq<Link> {
    if links == [] then []
    else
      var kept, last := ByKey(links[..|links| - 1]), links[|links| - 1];
      kept + (if exists i :: 0 <= i < |kept| && SameKey(kept[i], last) then [] else [last])
  }

  lemma NextByKey(links: seq<Link>, i: nat)
    requires i < |links|
    ensures var kept := ByKey(links[..i]);
            ByKey(links[..i + 1])
            == kept + (if exists j :: 0 <= j < |kept| && SameKey(kept[j], links[i]) then [] else [links[i]])
  {
    assert links[..i + 1][..i] == links[..i];
  }

  lemma NextKeys(kept: seq<Link>, l: Link)
    ensures KeysOf(kept + [l]) == KeysOf(kept) + [KeyOf(l)] + [MirrorKeyOf(l)]
  {
    assert (kept + [l])[..|kept|] == kept;
    assert [KeyOf(l), MirrorKeyOf(l)] == [KeyOf(l)] + [MirrorKeyOf(l)];
  }

  // ------------------------------------------------------------------ the joined key

  lemma ColonAt(a: string, b: string)
    requires NoColon(a)
    ensures (a + ":" + b)[|a|] == ':'
    ensures forall i :: 0 <= i < |a| ==> (a + ":" + b)[i] != ':'
  {
    forall i | 0 <= i < |a| ensures (a + ":" + b)[i] != ':' { assert (a + ":" + b)[i] == a[i] && a[i] in a; }
  }

  lemma CutAtColon(a: string, b: string, c: string, d: string)
    requires NoColon(a) && NoColon(c) && a + ":" + b == c + ":" + d
    ensures a == c && b == d
  {
    ColonAt(a, b);
    ColonAt(c, d);
    var x, y := a + ":" + b, c + ":" + d;
    assert |a| == |c|;
    assert x[..|a|] == a && y[..|c|] == c;
    assert x[|a| + 1..] == b && y[|c| + 1..] == d;
  }

  /** The a port of l is that of m, a colon and the b host of m, and the rest of the key of m follows. */
  ghost predicate Absorbs(l: Link, m: Link) {
    || (l.aPort == m.aPort + ":" + m.bHost && m.bPort == l.bHost + ":" + l.bPort)
    || (exists z :: l.aPort == m.aPort + ":" + m.bHost + ":" + z && m.bPort == z + ":" + l.bHost + ":" + l.bPort)
  }

  function Rest(l: Link): string { l.aPort + ":" + (l.bHost + ":" + l.bPort) }

  lemma KeyParts(l: Link)
    ensures KeyOf(l) == l.aHost + ":" + Rest(l)
  {
    assert KeyOf(l) == l.aHost + ":" + (l.aPort + ":" + (l.bHost + ":" + l.bPort));
  }

  lemma AbsorbingSharesRest(l: Link, m: Link)
    requires Absorbs(l, m)
    ensures Rest(l) == Rest(m)
  {
    if l.aPort == m.aPort + ":" + m.bHost && m.bPort == l.bHost + ":" + l.bPort {
      assert Rest(l) == m.aPort + ":" + (m.bHost + ":" + (l.bHost + ":" + l.bPort));
    } else {
      var z :| l.aPort == m.aPort + ":" + m.bHost + ":" + z && m.bPort == z + ":" + l.bHost + ":" + l.bPort;
      assert Rest(l) == m.aPort + ":" + (m.bHost + ":" + (z + ":" + (l.bHost + ":" + l.bPort)));
      assert m.bPort == z + ":" + (l.bHost + ":" + l.bPort);
    }
  }

  /** The longer port has the shorter one, a colon and then what is left of it at its start. */
  lemma LongerPort(l: Link, m: Link) returns (y: string)
    requires Rest(l) == Rest(m) && |l.aPort| > |m.aPort|
    ensures l.aPort == m.aPort + ":" + y && y + ":" + (l.bHost + ":" + l.bPort) == m.bHost + ":" + m.bPort
  {
    var n, r := |m.aPort|, Rest(l);
    assert r[..n] == l.aPort[..n] && Rest(m)[..n] == m.aPort;
    assert r[n] == l.aPort[n] && Rest(m)[n] == ':';
    y := l.aPort[n + 1..];
    assert l.aPort == l.aPort[..n] + [l.aPort[n]] + y;
    assert r[n + 1..] == y + ":" + (l.bHost + ":" + l.bPort) && Rest(m)[n + 1..] == m.bHost + ":" + m.bPort;
  }

  lemma FirstColon(y: string) returns (x: string, z: string)
    requires !NoColon(y)
    ensures NoColon(x) && y == x + ":" + z
  {
    if y[0] == ':' {
      x, z := "", y[1..];
      assert y == [y[0]] + y[1..];
    } else {
      assert y == [y[0]] + y[1..];
      var x', z' := FirstColon(y[1..]);
      x, z := [y[0]] + x', z';
      assert y == [y[0]] + (x' + ":" + z');
    }
  }

  lemma SharedRestAbsorbs(l: Link, m: Link)
    requires HostsColonFree(l) && HostsColonFree(m) && Rest(l) == Rest(m) && |l.aPort| > |m.aPort|
    ensures Absorbs(l, m)
  {
    var y := LongerPort(l, m);
    if NoColon(y) {
      CutAtColon(y, l.bHost + ":" + l.bPort, m.bHost, m.bPort);
    } else {
      var x, z := FirstColon(y);
      assert y + ":" + (l.bHost + ":" + l.bPort) == x + ":" + (z + ":" + (l.bHost + ":" + l.bPort));
      CutAtColon(x, z + ":" + (l.bHost + ":" + l.bPort), m.bHost, m.bPort);
      assert m.aPort + ":" + y == m.aPort + ":" + m.bHost + ":" + z;
      assert m.bPort == z + ":" + l.bHost + ":" + l.bPort;
    }
  }

  lemma SamePortSameEnds(l: Link, m: Link)
    requires HostsColonFree(l) && HostsColonFree(m) && Rest(l) == Rest(m) && |l.aPort| == |m.aPort|
    ensures l.aPort == m.aPort && l.bHost == m.bHost && l.bPort == m.bPort
  {
    var n := |l.aPort|;
    assert Rest(l)[..n] == l.aPort && Rest(m)[..n] == m.aPort;
    assert Rest(l)[n + 1..] == l.bHost + ":" + l.bPort && Rest(m)[n + 1..] == m.bHost + ":" + m.bPort;
    CutAtColon(l.bHost, l.bPort, m.bHost, m.bPort);
  }

  /**
   Links between hosts without colons share a key exactly when they have the same ends or one
   a port absorbs the other's end.
   */
  lemma SameKeyOfIff(l: Link, m: Link)
    requires HostsColonFree(l) && HostsColonFree(m)
    ensures KeyOf(l) == KeyOf(m) <==> l.aHost == m.aHost && (SameEnds(l, m) || Absorbs(l, m) || Absorbs(m, l))
  {
    KeyParts(l);
    KeyParts(m);
    if KeyOf(l) == KeyOf(m) {
      CutAtColon(l.aHost, Rest(l), m.aHost, Rest(m));
      if |l.aPort| > |m.aPort| {
        SharedRestAbsorbs(l, m);
      } else if |l.aPort| < |m.aPort| {
        SharedRestAbsorbs(m, l);
      } else {
        SamePortSameEnds(l, m);
      }
    }
    if Absorbs(l, m) { AbsorbingSharesRest(l, m); }
    if Absorbs(m, l) { AbsorbingSharesRest(m, l); }
  }

  function Mirror(l: Link): Link { Link(l.bHost, l.bPort, l.aHost, l.aPort, l.rest) }

  lemma SameKeyIffSameCable(l: Link, m: Link)
    requires HostsColonFree(l) && HostsColonFree(m) && NoPortEmbedsHost([l, m])
    ensures SameKey(l, m) <==> SameCable(l, m)
  {
    assert [l, m][0] == l && [l, m][1] == m;
    NothingAbsorbed(l, m);
    NothingAbsorbed(Mirror(l), m);
    NothingAbsorbed(l, Mirror(m));
    NothingAbsorbed(Mirror(l), Mirror(m));
    SameKeyOfIff(l, m);
    SameKeyOfIff(Mirror(l), m);
    SameKeyOfIff(l, Mirror(m));
    SameKeyOfIff(Mirror(l), Mirror(m));
  }

  lemma NothingAbsorbed(l: Link, m: Link)
    requires !Embeds(l.aPort, m.bHost) && !Embeds(m.aPort, l.bHost)
    ensures !Absorbs(l, m) && !Absorbs(m, l)
  {
  }

  lemma KeysAgree(links: seq<Link>, i: nat, j: nat)
    requires i < |links| && j < |links| && SafeNames(links)
    ensures SameKey(links[i], links[j]) <==> SameCable(links[i], links[j])
  {
    assert NoPortEmbedsHost([links[i], links[j]]);
    SameKeyIffSameCable(links[i], links[j]);
  }

  lemma SameCableSameKey(l: Link, m: Link)
    requires SameCable(l, m)
    ensures SameKey(l, m)
  {
  }

  /** What comparing by key keeps shares no key. */
  lemma {:induction false} ByKeyShareNone(links: seq<Link>)
    ensures NoSharedKey(ByKey(links))
  {
    if links != [] {
      var kept, all := ByKey(links[..|links| - 1]), ByKey(links);
      ByKeyShareNone(links[..|links| - 1]);
      var last := links[|links| - 1];
      forall i, j | 0 <= i < j < |all| ensures !SameKey(all[i], all[j]) {
        assert all[i] == kept[i];
        if j < |kept| {
          assert all[j] == kept[j];
        } else {
          assert all[j] == last && !SameKey(kept[i], last);
        }
      }
    }
  }

  lemma {:induction false} KeysTellCables(links: seq<Link>)
    requires NoSharedKey(FirstOfEach(links))
    ensures ByKey(links) == FirstOfEach(links)
  {
    if links != [] {
      var before, last := links[..|links| - 1], links[|links| - 1];
      var kept, all := FirstOfEach(before), FirstOfEach(links);
      assert forall i :: 0 <= i < |kept| ==> all[i] == kept[i];
      KeysTellCables(before);
      SeenIff(before, last);
      if k :| 0 <= k < |kept| && SameCable(kept[k], last) {
        SameCableSameKey(kept[k], last);
      } else {
        assert all == kept + [last];
        forall i | 0 <= i < |kept| ensures !SameKey(kept[i], last) { assert all[i] == kept[i] && all[|kept|] == last; }
      }
    }
  }

  /** Exactly the first link of every cable is kept if and only if no two cables share a joined string. */
  lemma ExactIff(links: seq<Link>)
    ensures ByKey(links) == FirstOfEach(links) <==> NoSharedKey(FirstOfEach(links))
  {
    ByKeyShareNone(links);
    if NoSharedKey(FirstOfEach(links)) { KeysTellCables(links); }
  }

  /** Safe names share none. */
  lemma SafeNamesAreExact(links: seq<Link>)
    requires SafeNames(links)
    ensures NoSharedKey(FirstOfEach(links))
  {
    var firsts := FirstOfEach(links);
    NoneTwice(links);
    FirstsAreMembers(links);
    forall i, j | 0 <= i < j < |firsts| ensures !SameKey(firsts[i], firsts[j]) {
      assert firsts[i] in links && firsts[j] in links;
      var k, l :| 0 <= k < |links| && 0 <= l < |links| && links[k] == firsts[i] && links[l] == firsts[j];
      KeysAgree(links, k, l);
    }
  }

  // ------------------------------------------------------------------ what is returned

  lemma {:induction false} FirstsAreMembers(links: seq<Link>)
    ensures forall k :: 0 <= k < |FirstOfEach(links)| ==> FirstOfEach(links)[k] in links
  {
    if links != [] {
      var before := links[..|links| - 1];
      FirstsAreMembers(before);
      assert forall l :: l in before ==> l in links;
    }
  }

  /** A cable is in the list if and only if it is in the result. */
  lemma {:induction false} SeenIff(links: seq<Link>, l: Link)
    ensures (exists i :: 0 <= i < |links| && SameCable(links[i], l))
            <==> exists k :: 0 <= k < |FirstOfEach(links)| && SameCable(FirstOfEach(links)[k], l)
  {
    if links != [] {
      var before, last := links[..|links| - 1], links[|links| - 1];
      SeenIff(before, l);
      SeenIff(before, last);
      var kept, all := FirstOfEach(before), FirstOfEach(links);
      assert forall i :: 0 <= i < |before| ==> before[i] == links[i];
      assert forall k :: 0 <= k < |kept| ==> kept[k] == all[k];
      if |all| > |kept| {
        assert all[|kept|] == last;
      } else if SameCable(last, l) {
        var k :| 0 <= k < |kept| && SameCable(kept[k], last);
        assert SameCable(all[k], l);
      }
    }
  }

  /** The result holds no cable twice. */
  lemma {:induction false} NoneTwice(links: seq<Link>)
    ensures var r := FirstOfEach(links); forall k, l :: 0 <= k < l < |r| ==> !SameCable(r[k], r[l])
  {
    if links != [] {
      var before, last := links[..|links| - 1], links[|links| - 1];
      NoneTwice(before);
      SeenIff(before, last);
      var kept, all := FirstOfEach(before), FirstOfEach(links);
      forall k, l | 0 <= k < l < |all| ensures !SameCable(all[k], all[l]) {
        assert all[k] == kept[k];
        if l < |kept| { assert all[l] == kept[l]; } else { assert all[l] == last; }
      }
    }
  }

  /** Every cable of the list has exactly one link in the result. */
  lemma OneOfEach(links: seq<Link>, i: nat)
    requires i < |links|
    ensures exists k :: Represents(links, k, i) && forall l :: Represents(links, l, i) ==> l == k
  {
    SeenIff(links, links[i]);
    NoneTwice(links);
    var r := FirstOfEach(links);
    var k :| 0 <= k < |r| && SameCable(r[k], links[i]);
    assert Represents(links, k, i);
    forall l | Represents(links, l, i) ensures l == k {
      assert SameCable(r[l], r[k]) && SameCable(r[k], r[l]);
    }
  }

  ghost predicate Represents(links: seq<Link>, k: int, i: nat)
    requires i < |links|
  {
    0 <= k < |FirstOfEach(links)| && SameCable(FirstOfEach(links)[k], links[i])
  }

  lemma {:induction false} NothingRepeated(links: seq<Link>)
    requires forall k, l :: 0 <= k < l < |links| ==> !SameCable(links[k], links[l])
    ensures FirstOfEach(links) == links
  {
    if links != [] {
      var before, last := links[..|links| - 1], links[|links| - 1];
      NothingRepeated(before);
      forall i | 0 <= i < |before| ensures !SameCable(before[i], last) { assert before[i] == links[i]; }
      assert FirstOfEach(links) == before + [last];
    }
  }

  lemma DeduplicatingTwice(links: seq<Link>)
    ensures FirstOfEach(FirstOfEach(links)) == FirstOfEach(links)
  {
    NoneTwice(links);
    NothingRepeated(FirstOfEach(links));
  }

  /** With colons in port names two different cables can share a key, and the second one is lost. */
  lemma ColonsConfuse()
    ensures var l, m := Link("a", "1:2", "b", "3", ""), Link("a", "1", "2", "b:3", "");
            && HostsColonFree(l) && HostsColonFree(m) && !SameCable(l, m)
            && FirstOfEach([l, m]) == [l, m] && ByKey([l, m]) == [l]
  {
    var l, m := Link("a", "1:2", "b", "3", ""), Link("a", "1", "2", "b:3", "");
    assert KeyOf(l) == "a:1:2:b:3" == KeyOf(m);
    var one := [l];
    assert [l, m][..1] == one && one[..0] == [];
    assert ByKey(one) == one && FirstOfEach(one) == one;
    assert SameKey(one[0], m) && !SameCable(one[0], m);
  }

  /** Without a colon in any port no port embeds a host. */
  lemma ColonFreePortsAreSafe(links: seq<Link>)
    requires forall i :: 0 <= i < |links| ==> NoColon(links[i].aPort) && NoColon(links[i].bPort)
    ensures NoPortEmbedsHost(links)
  {
    forall port: string, host: string | NoColon(port) ensures !Embeds(port, host) {
      forall x ensures port != x + ":" + host { assert (x + ":" + host)[|x|] == ':'; }
      forall x, z ensures port != x + ":" + host + ":" + z { assert (x + ":" + host + ":" + z)[|x|] == ':'; }
    }
  }
}
