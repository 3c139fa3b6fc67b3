/** Whole runs of update_linknets: repeating a live run, and what a dry run predicts. */
module LinknetRuns {
  import opened Common
  import opened Linknets

  /** LLDP data: interface names are dictionary keys, neighbour ports differ, no cable to itself. */
  ghost predicate Distinct(c: Call, nbs: seq<Neighbor>) {
    && (forall i, j :: 0 <= i < j < |nbs| ==> nbs[i].localIf != nbs[j].localIf)
    && (forall i, j :: 0 <= i < j < |nbs| && Accepted(c, nbs[i]) && Accepted(c, nbs[j]) ==>
          !(nbs[i].remote.value.id == nbs[j].remote.value.id && nbs[i].remotePort == nbs[j].remotePort))
    && (forall i :: 0 <= i < |nbs| && Accepted(c, nbs[i]) ==> nbs[i].remote.value.id != c.local)
  }

  // ------------------------------------------------------------ running twice

  /** Exactly one row touches the ends of the entry and it is the row the entry asks for. */
  ghost predicate Settled(t: Table, c: Call, nb: Neighbor) {
    Accepted(c, nb) ==>
      && nb.redundant.Some?
      && exists i :: Matches(t.rows, c, nb) == {i} && Exact(t.rows[i], c, nb)
  }

  lemma StepSettles(c: Call, t: Table, nb: Neighbor, idx: nat)
    requires Valid(t) && Step(c, t, nb, idx, false).error == None
    ensures var o := Step(c, t, nb, idx, false);
            Settled(o.table, c, nb) && Step(c, o.table, nb, idx, false) == o
  {
    if Accepted(c, nb) {
      var m, o := Matches(t.rows, c, nb), Step(c, t, nb, idx, false);
      if i :| m == {i} && Exact(t.rows[i], c, nb) {
        assert o.table == t;
      } else {
        var cleared := t.(rows := t.rows - m);
        assert forall i :: i in cleared.rows ==> i !in m;
        assert m == {} ==> cleared == t;
        assert o == Create(c, cleared, nb, idx, false);
        assert o.table.rows == cleared.rows[t.nextId := o.ret[0].link];
        assert Matches(o.table.rows, c, nb) == {t.nextId};
      }
    }
  }

  /** An entry with other ends leaves a settled entry alone, row and id included. */
  lemma StepKeepsSettled(c: Call, t: Table, nb: Neighbor, other: Neighbor, idx: nat, k: nat)
    requires Valid(t) && Settled(t, c, nb) && Distinct(c, [nb, other])
    requires Step(c, t, other, idx, false).error == None
    ensures var t' := Step(c, t, other, idx, false).table;
            Settled(t', c, nb) && Step(c, t', nb, k, false) == Step(c, t, nb, k, false).(table := t')
  {
    var t' := Step(c, t, other, idx, false).table;
    assert [nb, other][0] == nb && [nb, other][1] == other;
    if Accepted(c, nb) && Accepted(c, other) {
      var i :| Matches(t.rows, c, nb) == {i} && Exact(t.rows[i], c, nb);
      assert i !in Matches(t.rows, c, other);
      assert i in t'.rows && t'.rows[i] == t.rows[i];
      forall x | x in Matches(t'.rows, c, nb) ensures x == i {
        if x in t.rows && t'.rows[x] == t.rows[x] { assert x in Matches(t.rows, c, nb); }
      }
      assert Matches(t'.rows, c, nb) == {i};
    }
  }

  lemma {:induction false} UpdateKeepsSettled(c: Call, t: Table, nb: Neighbor, rest: seq<Neighbor>, idx: nat, k: nat)
    requires Valid(t) && Settled(t, c, nb) && Distinct(c, [nb] + rest)
    requires Update(c, t, rest, idx, false).error == None
    ensures var t' := Update(c, t, rest, idx, false).table;
            Settled(t', c, nb) && Step(c, t', nb, k, false) == Step(c, t, nb, k, false).(table := t')
    decreases rest
  {
    if rest != [] {
      var all := [nb] + rest;
      assert all[0] == nb && all[1] == rest[0];
      assert Distinct(c, [nb, rest[0]]);
      StepKeepsSettled(c, t, nb, rest[0], idx, k);
      StepKeepsValid(c, t, rest[0], idx, false);
      assert Distinct(c, [nb] + rest[1..]) by {
        var fewer := [nb] + rest[1..];
        assert forall i :: 1 <= i < |fewer| ==> fewer[i] == all[i + 1];
      }
      UpdateKeepsSettled(c, Step(c, t, rest[0], idx, false).table, nb, rest[1..], idx + 1, k);
    }
  }

  /** A second live run over the same LLDP data changes nothing and returns the same list. */
  lemma {:induction false} SecondRunIsIdle(c: Call, t: Table, nbs: seq<Neighbor>, idx: nat)
    requires Valid(t) && Distinct(c, nbs)
    requires Update(c, t, nbs, idx, false).error == None
    ensures var o := Update(c, t, nbs, idx, false);
            Update(c, o.table, nbs, idx, false) == o
    decreases nbs
  {
    if nbs != [] {
      var o1 := Step(c, t, nbs[0], idx, false);
      var o := Update(c, t, nbs, idx, false);
      var o2 := Update(c, o1.table, nbs[1..], idx + 1, false);
      assert [nbs[0]] + nbs[1..] == nbs;
      StepSettles(c, t, nbs[0], idx);
      StepKeepsValid(c, t, nbs[0], idx, false);
      UpdateKeepsSettled(c, o1.table, nbs[0], nbs[1..], idx + 1, idx);
      SecondRunIsIdle(c, o1.table, nbs[1..], idx + 1);
      assert Step(c, o.table, nbs[0], idx, false) == Outcome(o.table, o1.ret, None);
    }
  }

  lemma DistinctPart(c: Call, nbs: seq<Neighbor>)
    requires nbs != [] && Distinct(c, nbs)
    ensures Distinct(c, nbs[1..])
  {
    assert forall i :: 0 <= i < |nbs| - 1 ==> nbs[1..][i] == nbs[i + 1];
  }

  /** After a live run every accepted entry has its row, the only one at its two ends. */
  lemma {:induction false} RunSettlesAll(c: Call, t: Table, nbs: seq<Neighbor>, idx: nat, k: nat)
    requires Valid(t) && Distinct(c, nbs) && k < |nbs|
    requires Update(c, t, nbs, idx, false).error == None
    ensures Settled(Update(c, t, nbs, idx, false).table, c, nbs[k])
    decreases nbs
  {
    var o1 := Step(c, t, nbs[0], idx, false);
    UpdateTurn(c, t, nbs, idx, false);
    StepKeepsValid(c, t, nbs[0], idx, false);
    if k == 0 {
      StepSettles(c, t, nbs[0], idx);
      assert [nbs[0]] + nbs[1..] == nbs;
      UpdateKeepsSettled(c, o1.table, nbs[0], nbs[1..], idx + 1, idx);
    } else {
      DistinctPart(c, nbs);
      RunSettlesAll(c, o1.table, nbs[1..], idx + 1, k - 1);
    }
  }

  lemma StepLeavesOthers(c: Call, t: Table, nb: Neighbor, idx: nat, dry: bool, i: nat)
    requires Valid(t) && i in t.rows && (Accepted(c, nb) ==> i !in Matches(t.rows, c, nb))
    ensures i in Step(c, t, nb, idx, dry).table.rows && Step(c, t, nb, idx, dry).table.rows[i] == t.rows[i]
  {
    if Accepted(c, nb) {
      var cleared := t.(rows := t.rows - Matches(t.rows, c, nb));
      assert i in cleared.rows && cleared.rows[i] == t.rows[i];
    }
  }

  /** Rows that no accepted entry touches come out of a run as they were, even if it fails. */
  lemma {:induction false} RunLeavesOthers(c: Call, t: Table, nbs: seq<Neighbor>, idx: nat, dry: bool, i: nat)
    requires Valid(t) && i in t.rows
    requires forall k :: 0 <= k < |nbs| && Accepted(c, nbs[k]) ==> i !in Matches(t.rows, c, nbs[k])
    ensures i in Update(c, t, nbs, idx, dry).table.rows && Update(c, t, nbs, idx, dry).table.rows[i] == t.rows[i]
    decreases nbs
  {
    if nbs != [] {
      StepLeavesOthers(c, t, nbs[0], idx, dry, i);
      StepKeepsValid(c, t, nbs[0], idx, dry);
      var o := Step(c, t, nbs[0], idx, dry);
      if o.error == None {
        forall k | 0 <= k < |nbs[1..]| && Accepted(c, nbs[1..][k]) ensures i !in Matches(o.table.rows, c, nbs[1..][k]) {
          assert nbs[1..][k] == nbs[k + 1] && i !in Matches(t.rows, c, nbs[k + 1]);
        }
        RunLeavesOthers(c, o.table, nbs[1..], idx + 1, dry, i);
      }
    }
  }

  /** A row with the two ends swapped is not recognised: it is deleted and gets a new id. */
  lemma SwappedRowIsRecreated(c: Call, t: Table, nb: Neighbor, i: nat, idx: nat)
    requires Valid(t) && Accepted(c, nb) && nb.redundant.Some? && nb.remote.value.id != c.local
    requires i in t.rows && t.rows[i] == Linknet(nb.remote.value.id, nb.remotePort, c.local, nb.localIf, t.rows[i].net)
    requires Fabric(c.dbType) || !NeedsAddress(c, nb)
    ensures var o := Step(c, t, nb, idx, false);
            && o.error == None && i !in o.table.rows && i < t.nextId
            && t.nextId in o.table.rows && Exact(o.table.rows[t.nextId], c, nb)
  {
    var m := Matches(t.rows, c, nb);
    forall x | x in m ensures x == i {
      assert Ends(t.rows[i], c.local, nb.localIf) && Ends(t.rows[i], nb.remote.value.id, nb.remotePort);
    }
    assert i in m && m == {i};
    var cleared := t.(rows := t.rows - m);
    assert forall x :: x in cleared.rows ==> x !in m;
    assert Matches(cleared.rows, c, nb) == {};
    StepKeepsValid(c, t, nb, idx, false);
    CreateKeepsValid(c, cleared, nb, idx, false);
  }

  /** The row found for a neighbour survives a live run exactly when the local device is its a side. */
  lemma RowStaysIff(c: Call, t: Table, nb: Neighbor, i: nat, idx: nat)
    requires Valid(t) && Accepted(c, nb) && nb.redundant.Some? && Matches(t.rows, c, nb) == {i}
    ensures i in Step(c, t, nb, idx, false).table.rows <==> Exact(t.rows[i], c, nb)
  {
    assert i in t.rows by { assert i in Matches(t.rows, c, nb); }
  }

  const CALL := Call(1, Dist, Dist, None, Pool(0, 2))
  const SEEN := Neighbor("e1", Some(Remote(2, true, Access)), "p2", Some(false))

  /** The same cable, stored from the neighbour's side. */
  lemma SwappedExample()
    ensures var t := Table(map[1 := Linknet(2, "p2", 1, "e1", None)], 2);
            && Valid(t) && Accepted(CALL, SEEN)
            && Step(CALL, t, SEEN, 0, false).table == Table(map[2 := Linknet(1, "e1", 2, "p2", None)], 3)
  {
    var t := Table(map[1 := Linknet(2, "p2", 1, "e1", None)], 2);
    assert Matches(t.rows, CALL, SEEN) == {1};
    assert t.rows - {1} == map[] && BreaksUnique(map[], Linknet(1, "e1", 2, "p2", None)) == false;
    assert Step(CALL, t, SEEN, 0, false) == Create(CALL, t.(rows := map[]), SEEN, 0, false);
  }

  /** Two links stored earlier, one at either end of the cable now seen. */
  lemma LookupExample()
    ensures var t := Table(map[1 := Linknet(1, "e1", 3, "p3", None), 2 := Linknet(4, "p4", 2, "p2", None)], 3);
            Valid(t) && Step(CALL, t, SEEN, 0, false).error == Some(MultipleResultsFound)
  {
    var t := Table(map[1 := Linknet(1, "e1", 3, "p3", None), 2 := Linknet(4, "p4", 2, "p2", None)], 3);
    assert EndsOn(t, CALL, SEEN, 1, 2);
    LookupFailsIff(CALL, t, SEEN, 0, false);
  }

  // ------------------------------------------------------------------ dry runs

  ghost predicate Picked(free: seq<nat>, n: nat, from: nat) {
    exists k :: from <= k < |free| && free[k] == n
  }

  /** The prefixes of the list stand in the free list from a position on, in increasing order. */
  ghost predicate Addresses(free: seq<nat>, ret: seq<Entry>, from: nat) {
    && (forall i :: 0 <= i < |ret| && ret[i].link.net.Some? ==> Picked(free, ret[i].link.net.value, from))
    && (forall i, j :: 0 <= i < j < |ret| && ret[i].link.net.Some? && ret[j].link.net.Some? ==>
          ret[i].link.net.value < ret[j].link.net.value)
  }

  lemma ConsAddresses(free: seq<nat>, first: seq<Entry>, rest: seq<Entry>, from: nat)
    requires forall k, l :: 0 <= k < l < |free| ==> free[k] < free[l]
    requires |first| <= 1 && (first != [] ==> first[0].link.net == None || first[0].link.net == Nth(free, from))
    requires Addresses(free, rest, from + 1)
    ensures Addresses(free, first + rest, from)
  {
    var ret := first + rest;
    forall i | 0 <= i < |ret| && ret[i].link.net.Some? ensures Picked(free, ret[i].link.net.value, from) {
      if i >= |first| {
        assert ret[i] == rest[i - |first|];
        assert Picked(free, rest[i - |first|].link.net.value, from + 1);
      }
    }
    forall i, j | 0 <= i < j < |ret| && ret[i].link.net.Some? && ret[j].link.net.Some?
      ensures ret[i].link.net.value < ret[j].link.net.value
    {
      assert ret[j] == rest[j - |first|];
      assert Picked(free, rest[j - |first|].link.net.value, from + 1);
      if i >= |first| { assert ret[i] == rest[i - |first|]; }
    }
  }

  lemma {:induction false} DryRunCounts(c: Call, t: Table, nbs: seq<Neighbor>, idx: nat)
    ensures var o := Update(c, t, nbs, idx, true);
            o.table == t && Addresses(Free(c.pool.base, c.pool.count, Used(t.rows)), o.ret, idx)
    decreases nbs
  {
    var free := Free(c.pool.base, c.pool.count, Used(t.rows));
    FreeIsExact(c.pool.base, c.pool.count, Used(t.rows));
    if nbs != [] {
      var o := Step(c, t, nbs[0], idx, true);
      assert o.table == t;
      if o.error == None {
        DryRunCounts(c, t, nbs[1..], idx + 1);
        ConsAddresses(free, o.ret, Update(c, t, nbs[1..], idx + 1, true).ret, idx);
      }
    }
  }

  /** A dry run changes nothing, and the prefixes it shows are unused and pairwise distinct. */
  lemma DryRunIsFresh(c: Call, t: Table, nbs: seq<Neighbor>)
    ensures var o := Update(c, t, nbs, 0, true);
            && o.table == t
            && (forall i :: 0 <= i < |o.ret| && o.ret[i].link.net.Some? ==>
                  InPool(c.pool.base, c.pool.count, o.ret[i].link.net.value)
                  && o.ret[i].link.net.value !in Used(t.rows))
            && (forall i, j :: 0 <= i < j < |o.ret| && o.ret[i].link.net.Some? ==>
                  o.ret[i].link.net != o.ret[j].link.net)
  {
    var o := Update(c, t, nbs, 0, true);
    var free := Free(c.pool.base, c.pool.count, Used(t.rows));
    DryRunCounts(c, t, nbs, 0);
    FreeIsExact(c.pool.base, c.pool.count, Used(t.rows));
    forall i | 0 <= i < |o.ret| && o.ret[i].link.net.Some? ensures o.ret[i].link.net.value in free {
      assert Picked(free, o.ret[i].link.net.value, 0);
    }
  }

  /** For a fabric link that already exists the dry run never shows the prefix the live run keeps. */
  lemma DryRunMissesExistingLink(c: Call, t: Table, nb: Neighbor, idx: nat, i: nat)
    requires Accepted(c, nb) && nb.redundant.Some? && NeedsAddress(c, nb)
    requires Matches(t.rows, c, nb) == {i} && Exact(t.rows[i], c, nb) && t.rows[i].net.Some?
    ensures var live, dry := Step(c, t, nb, idx, false), Step(c, t, nb, idx, true);
            live.ret[0].link == t.rows[i] && dry.ret[0].link.net != live.ret[0].link.net
  {
    FreeIsExact(c.pool.base, c.pool.count, Used(t.rows));
    assert t.rows[i].net.value in Used(t.rows);
  }
}
