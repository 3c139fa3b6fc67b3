/** When the list a dry run of update_linknets shows is the one the live run after it returns. */
module LinknetPrediction {
  import opened Common
  import opened Linknets
  import opened LinknetRuns

  /** The entry has its row, with the local device as the a side. */
  ghost predicate Kept(t: Table, c: Call, nb: Neighbor)
    requires nb.remote.Some?
  {
    exists i :: Matches(t.rows, c, nb) == {i} && Exact(t.rows[i], c, nb)
  }

  /** The live run writes a new row for the entry. */
  ghost predicate Rewritten(t: Table, c: Call, nb: Neighbor) { Accepted(c, nb) && !Kept(t, c, nb) }

  /** How many of the first k entries take a network in a live run. */
  ghost function Takers(c: Call, t: Table, nbs: seq<Neighbor>, k: nat): nat
    requires k <= |nbs|
  {
    if k == 0 then 0
    else Takers(c, t, nbs, k - 1) + (if Rewritten(t, c, nbs[k - 1]) && NeedsAddress(c, nbs[k - 1]) then 1 else 0)
  }

  /** The networks of the pool that the live run frees by deleting rows for the first k entries. */
  ghost function Freed(c: Call, t: Table, nbs: seq<Neighbor>, k: nat): set<nat>
    requires k <= |nbs|
  {
    set j, i | 0 <= j < k && Rewritten(t, c, nbs[j]) && i in Matches(t.rows, c, nbs[j])
               && t.rows[i].net.Some? && InPool(c.pool.base, c.pool.count, t.rows[i].net.value)
      :: t.rows[i].net.value
  }

  function FreeNets(c: Call, t: Table): seq<nat> { Free(c.pool.base, c.pool.count, Used(t.rows)) }

  function DryNet(c: Call, t: Table, nb: Neighbor, k: nat): Option<nat>
    requires nb.remote.Some?
  {
    if NeedsAddress(c, nb) then Nth(FreeNets(c, t), k) else None
  }

  /**
   taken networks are gone, which is as many as there are free or just those before k, and no
   freed one comes first.
   */
  ghost predicate InTurn(free: seq<nat>, freed: set<nat>, taken: nat, k: nat) {
    || (taken == k < |free| && forall n :: n in freed ==> free[k] < n)
    || (taken >= |free| && freed == {})
  }

  /**
   The prefix shown for entry k is the one it will have: an existing row shows none and has none;
   a new row is the k-th to take a network and none below is freed; or all networks are gone.
   */
  ghost predicate Predicted(c: Call, t: Table, nbs: seq<Neighbor>, k: nat)
    requires k < |nbs|
  {
    var free, freed := FreeNets(c, t), Freed(c, t, nbs, k + 1);
    Accepted(c, nbs[k]) ==>
      if Kept(t, c, nbs[k]) then
        forall i :: i in Matches(t.rows, c, nbs[k]) ==> t.rows[i].net == DryNet(c, t, nbs[k], k)
      else
        NeedsAddress(c, nbs[k]) ==> InTurn(free, freed, Takers(c, t, nbs, k), k)
  }

  /** The interface check passes and the lookup finds one row at most. */
  ghost predicate Loads(c: Call, t: Table, nb: Neighbor) {
    Accepted(c, nb) ==>
      && nb.redundant.Some?
      && forall i, j :: i in Matches(t.rows, c, nb) && j in Matches(t.rows, c, nb) ==> i == j
  }

  /** The dry run raises nothing, and the live run may address the links it creates. */
  ghost predicate DryRunPasses(c: Call, t: Table, nbs: seq<Neighbor>) {
    && (forall k :: 0 <= k < |nbs| ==> Loads(c, t, nbs[k]))
    && (forall k :: 0 <= k < |nbs| && Accepted(c, nbs[k]) ==> Fabric(c.dbType) || !NeedsAddress(c, nbs[k]))
  }

  /** The first part of this is that the dry run returned. */
  lemma {:induction false} DryRunReturnsIff(c: Call, t: Table, nbs: seq<Neighbor>, idx: nat)
    ensures Update(c, t, nbs, idx, true).error == None <==> forall k :: 0 <= k < |nbs| ==> Loads(c, t, nbs[k])
    decreases nbs
  {
    if nbs != [] {
      var o := Step(c, t, nbs[0], idx, true);
      assert o.table == t;
      DryStepReturnsIff(c, t, nbs[0], idx);
      if o.error == None {
        UpdateTurn(c, t, nbs, idx, true);
        DryRunReturnsIff(c, t, nbs[1..], idx + 1);
        assert forall k :: 0 < k < |nbs| ==> nbs[k] == nbs[1..][k - 1];
      }
    }
  }

  lemma DryStepReturnsIff(c: Call, t: Table, nb: Neighbor, idx: nat)
    ensures Step(c, t, nb, idx, true).error == None <==> Loads(c, t, nb)
  {
    if Accepted(c, nb) {
      var m := Matches(t.rows, c, nb);
      if i :| i in m { assert m == {i} <==> forall j :: j in m ==> j == i; }
    }
  }

  /** The rows of the first table are there or their networks are freed; other rows are of entries done with. */
  ghost predicate RowsTrack(c: Call, t0: Table, t: Table, nbs: seq<Neighbor>, idx: nat)
    requires idx <= |nbs|
  {
    && t0.nextId <= t.nextId
    && (forall i :: i in t0.rows ==>
          || (i in t.rows && t.rows[i] == t0.rows[i])
          || (t0.rows[i].net.Some? && InPool(c.pool.base, c.pool.count, t0.rows[i].net.value) ==>
                t0.rows[i].net.value in Freed(c, t0, nbs, idx)))
    && (forall i :: i in t.rows ==>
          || (i in t0.rows && t.rows[i] == t0.rows[i])
          || forall k :: idx <= k < |nbs| && Accepted(c, nbs[k]) ==> i !in Matches(t.rows, c, nbs[k]))
    && (forall k :: idx <= k < |nbs| && Accepted(c, nbs[k]) && Kept(t0, c, nbs[k]) ==>
          Matches(t.rows, c, nbs[k]) == Matches(t0.rows, c, nbs[k]))
  }

  /** n is one of the entries from lo up to hi. */
  ghost predicate Among(free: seq<nat>, lo: nat, hi: nat, n: nat) {
    exists i :: lo <= i < hi && i < |free| && free[i] == n
  }

  /** Of the pool, the used networks are those used at first and not freed, and the first ones that were free. */
  ghost predicate NetsTrack(c: Call, t0: Table, rows: map<nat, Linknet>, freed: set<nat>, taken: nat) {
    forall n :: InPool(c.pool.base, c.pool.count, n) ==>
      (n in Used(rows) <==> (n in Used(t0.rows) && n !in freed) || Among(FreeNets(c, t0), 0, taken, n))
  }

  ghost predicate Follows(c: Call, t0: Table, t: Table, nbs: seq<Neighbor>, idx: nat)
    requires idx <= |nbs|
  {
    Valid(t0) && Valid(t) && RowsTrack(c, t0, t, nbs, idx)
  }

  ghost predicate Tracks(c: Call, t0: Table, t: Table, nbs: seq<Neighbor>, idx: nat)
    requires idx <= |nbs|
  {
    && Follows(c, t0, t, nbs, idx)
    && NetsTrack(c, t0, t.rows, Freed(c, t0, nbs, idx), Takers(c, t0, nbs, idx))
  }

  lemma {:induction false} TakersBounded(c: Call, t: Table, nbs: seq<Neighbor>, k: nat)
    requires k <= |nbs|
    ensures Takers(c, t, nbs, k) <= k
  {
    if k > 0 { TakersBounded(c, t, nbs, k - 1); }
  }

  /** The first free network is the least network of the pool that is not used. */
  lemma FirstOfFree(base: nat, count: nat, used: set<nat>)
    ensures var free := Free(base, count, used);
            && (free == [] <==> forall n :: InPool(base, count, n) ==> n in used)
            && (free != [] ==> InPool(base, count, free[0]) && free[0] !in used
                               && forall n :: InPool(base, count, n) && n !in used ==> free[0] <= n)
  {
    var free := Free(base, count, used);
    FreeIsExact(base, count, used);
    if free != [] {
      assert free[0] in free;
      forall n | InPool(base, count, n) && n !in used ensures free[0] <= n {
        var k :| 0 <= k < |free| && free[k] == n;
      }
    } else {
      assert forall n :: n !in free;
    }
  }

  ghost predicate Ascending(free: seq<nat>) { forall k, l :: 0 <= k < l < |free| ==> free[k] < free[l] }

  /** live is the least of the freed networks and the free ones from position taken on. */
  ghost predicate IsLeast(live: Option<nat>, free: seq<nat>, freed: set<nat>, taken: nat) {
    match live
    case None => freed == {} && taken >= |free|
    case Some(v) =>
      && (v in freed || Among(free, taken, |free|, v))
      && (forall n :: n in freed ==> v <= n)
      && (forall i :: taken <= i < |free| ==> v <= free[i])
  }

  lemma LeastIff(live: Option<nat>, free: seq<nat>, freed: set<nat>, taken: nat, k: nat)
    requires Ascending(free) && IsLeast(live, free, freed, taken) && taken <= k
    requires forall i :: 0 <= i < |free| ==> free[i] !in freed
    ensures live == Nth(free, k) <==> InTurn(free, freed, taken, k)
  {
    if taken < |free| {
      assert live.Some? && live.value <= free[taken];
      if taken < k < |free| { assert free[taken] < free[k]; }
      if taken == k && forall n :: n in freed ==> free[k] < n {
        var i :| taken <= i < |free| && free[i] == live.value;
        assert free[k] <= free[i];
      }
    }
  }

  /** The live pick is the network shown exactly when k networks are taken and none below is freed. */
  lemma PickIff(c: Call, t0: Table, rows: map<nat, Linknet>, freed: set<nat>, taken: nat, k: nat)
    requires NetsTrack(c, t0, rows, freed, taken) && taken <= k
    requires forall n :: n in freed ==> InPool(c.pool.base, c.pool.count, n) && n in Used(t0.rows)
    ensures var free := FreeNets(c, t0);
            Nth(Free(c.pool.base, c.pool.count, Used(rows)), 0) == Nth(free, k) <==> InTurn(free, freed, taken, k)
  {
    var free := FreeNets(c, t0);
    PickIsLeast(c, t0, rows, freed, taken);
    FreeIsExact(c.pool.base, c.pool.count, Used(t0.rows));
    forall i | 0 <= i < |free| ensures free[i] !in freed { assert free[i] in free; }
    LeastIff(Nth(Free(c.pool.base, c.pool.count, Used(rows)), 0), free, freed, taken, k);
  }

  lemma PickIsLeast(c: Call, t0: Table, rows: map<nat, Linknet>, freed: set<nat>, taken: nat)
    requires NetsTrack(c, t0, rows, freed, taken)
    requires forall n :: n in freed ==> InPool(c.pool.base, c.pool.count, n) && n in Used(t0.rows)
    ensures IsLeast(Nth(Free(c.pool.base, c.pool.count, Used(rows)), 0), FreeNets(c, t0), freed, taken)
  {
    var base, count, free := c.pool.base, c.pool.count, FreeNets(c, t0);
    var live := Free(base, count, Used(rows));
    FirstOfFree(base, count, Used(rows));
    FreeIsExact(base, count, Used(t0.rows));
    forall n | n in freed ensures live != [] && live[0] <= n {
      assert n !in free;
    }
    forall i | taken <= i < |free| ensures live != [] && live[0] <= free[i] {
      assert free[i] in free;
      assert free[i] !in Used(rows);
    }
    if taken < |free| {
      assert free[taken] in free && free[taken] !in Used(rows);
    }
    if live != [] {
      var v := live[0];
      if v !in freed {
        assert v in free;
        var i :| 0 <= i < |free| && free[i] == v;
        assert Among(free, 0, taken, v) || i >= taken;
      }
      assert v in freed || Among(free, taken, |free|, v);
    }
  }

  // --------------------------------------------------------------- one entry of the list

  lemma FreedIsUsed(c: Call, t0: Table, nbs: seq<Neighbor>, k: nat)
    requires k <= |nbs|
    ensures forall n :: n in Freed(c, t0, nbs, k) ==> InPool(c.pool.base, c.pool.count, n) && n in Used(t0.rows)
  {
  }

  /** The networks one more entry frees are those of its rows in the first table. */
  lemma FreedNext(c: Call, t0: Table, nbs: seq<Neighbor>, k: nat, n: nat)
    requires k < |nbs|
    ensures n in Freed(c, t0, nbs, k + 1) <==>
            || n in Freed(c, t0, nbs, k)
            || (&& Rewritten(t0, c, nbs[k]) && InPool(c.pool.base, c.pool.count, n)
                && exists i :: i in Matches(t0.rows, c, nbs[k]) && t0.rows[i].net == Some(n))
  {
    if n in Freed(c, t0, nbs, k + 1) && n !in Freed(c, t0, nbs, k) {
      var j, i :| 0 <= j < k + 1 && Rewritten(t0, c, nbs[j]) && i in Matches(t0.rows, c, nbs[j])
                  && t0.rows[i].net.Some? && InPool(c.pool.base, c.pool.count, t0.rows[i].net.value)
                  && n == t0.rows[i].net.value;
      assert j == k;
    }
  }

  /** The rows without those that touch the ends of the entry. */
  function Cleared(t: Table, c: Call, nb: Neighbor): Table
    requires nb.remote.Some?
  {
    t.(rows := t.rows - Matches(t.rows, c, nb))
  }

  /** Rows that an entry still to come touches are rows of the first table. */
  lemma MatchesFromStart(c: Call, t0: Table, t: Table, nbs: seq<Neighbor>, idx: nat, k: nat)
    requires idx <= k < |nbs| && RowsTrack(c, t0, t, nbs, idx) && Accepted(c, nbs[k])
    ensures forall i :: i in Matches(t.rows, c, nbs[k]) ==>
                  i in t0.rows && t.rows[i] == t0.rows[i] && i in Matches(t0.rows, c, nbs[k])
  {
  }

  /** Deleting the rows of the entry frees their networks and no others. */
  lemma ClearingTracks(c: Call, t0: Table, t: Table, nbs: seq<Neighbor>, idx: nat)
    requires idx < |nbs| && Tracks(c, t0, t, nbs, idx) && Rewritten(t0, c, nbs[idx])
    ensures NetsTrack(c, t0, Cleared(t, c, nbs[idx]).rows, Freed(c, t0, nbs, idx + 1), Takers(c, t0, nbs, idx))
  {
    var nb, rows' := nbs[idx], Cleared(t, c, nbs[idx]).rows;
    MatchesFromStart(c, t0, t, nbs, idx, idx);
    FreeIsExact(c.pool.base, c.pool.count, Used(t0.rows));
    forall n | InPool(c.pool.base, c.pool.count, n)
      ensures n in Used(rows') <==>
              (n in Used(t0.rows) && n !in Freed(c, t0, nbs, idx + 1))
              || Among(FreeNets(c, t0), 0, Takers(c, t0, nbs, idx), n)
    {
      FreedNext(c, t0, nbs, idx, n);
      ClearedUse(c, t, nb, n);
      if Among(FreeNets(c, t0), 0, Takers(c, t0, nbs, idx), n) { assert n in FreeNets(c, t0); }
      if i :| i in Matches(t0.rows, c, nb) && t0.rows[i].net == Some(n) {
        assert n in Used(t0.rows);
        if i !in t.rows || t.rows[i] != t0.rows[i] {
          assert n in Freed(c, t0, nbs, idx);
        } else {
          assert i in Matches(t.rows, c, nb);
        }
      }
    }
  }

  lemma ClearedUse(c: Call, t: Table, nb: Neighbor, n: nat)
    requires Valid(t) && nb.remote.Some?
    ensures n in Used(Cleared(t, c, nb).rows) <==>
            n in Used(t.rows) && forall i :: i in Matches(t.rows, c, nb) ==> t.rows[i].net != Some(n)
  {
    var rows' := Cleared(t, c, nb).rows;
    if n in Used(t.rows) {
      var i :| i in t.rows && t.rows[i].net.Some? && t.rows[i].net.value == n;
      if i !in Matches(t.rows, c, nb) { assert i in rows' && rows'[i] == t.rows[i]; }
    }
    if n in Used(rows') {
      var i :| i in rows' && rows'[i].net.Some? && rows'[i].net.value == n;
      assert i in t.rows && t.rows[i] == rows'[i];
    }
  }

  /** The network the live run gives a new row once the old ones are gone. */
  function LiveNet(c: Call, t: Table, nb: Neighbor): Option<nat>
    requires nb.remote.Some?
  {
    if NeedsAddress(c, nb) then Nth(FreeNets(c, Cleared(t, c, nb)), 0) else None
  }

  function WithRow(t: Table, c: Call, nb: Neighbor, net: Option<nat>): Table
    requires nb.remote.Some?
  {
    Table(t.rows[t.nextId := NewLink(c, nb, net)], t.nextId + 1)
  }

  lemma NothingLeftToMatch(c: Call, t: Table, nb: Neighbor)
    requires nb.remote.Some?
    ensures Matches(Cleared(t, c, nb).rows, c, nb) == {}
    ensures Valid(t) ==> Valid(Cleared(t, c, nb))
    ensures Matches(t.rows, c, nb) == {} ==> Cleared(t, c, nb) == t
  {
    assert forall i :: i in Cleared(t, c, nb).rows ==> i !in Matches(t.rows, c, nb);
  }

  lemma LiveRewrites(c: Call, t: Table, nb: Neighbor, idx: nat)
    requires Valid(t) && Rewritten(t, c, nb) && nb.redundant.Some? && (Fabric(c.dbType) || !NeedsAddress(c, nb))
    requires forall i, j :: i in Matches(t.rows, c, nb) && j in Matches(t.rows, c, nb) ==> i == j
    ensures var o := Step(c, t, nb, idx, false);
            && o == Outcome(WithRow(Cleared(t, c, nb), c, nb, LiveNet(c, t, nb)),
                            [Entry(NewLink(c, nb, LiveNet(c, t, nb)), nb.redundant.value)], None)
            && Valid(o.table)
  {
    var m, cleared := Matches(t.rows, c, nb), Cleared(t, c, nb);
    NothingLeftToMatch(c, t, nb);
    CreateKeepsValid(c, cleared, nb, idx, false);
    if m != {} {
      var i :| i in m;
      assert m == {i};
    }
    assert Step(c, t, nb, idx, false) == Create(c, cleared, nb, idx, false);
  }

  lemma DryShows(c: Call, t: Table, nb: Neighbor, idx: nat)
    requires Accepted(c, nb) && nb.redundant.Some?
    requires forall i, j :: i in Matches(t.rows, c, nb) && j in Matches(t.rows, c, nb) ==> i == j
    ensures Step(c, t, nb, idx, true)
            == Outcome(t, [Entry(NewLink(c, nb, DryNet(c, t, nb, idx)), nb.redundant.value)], None)
  {
    var m := Matches(t.rows, c, nb);
    if m != {} {
      var i :| i in m;
      assert m == {i};
    }
  }

  /** What is left of an entry's rows decides about it as the first table does. */
  lemma SameKind(c: Call, t0: Table, t: Table, nbs: seq<Neighbor>, idx: nat)
    requires idx < |nbs| && RowsTrack(c, t0, t, nbs, idx) && Accepted(c, nbs[idx]) && DryRunPasses(c, t0, nbs)
    ensures Kept(t, c, nbs[idx]) <==> Kept(t0, c, nbs[idx])
    ensures Kept(t, c, nbs[idx]) ==>
              Matches(t.rows, c, nbs[idx]) == Matches(t0.rows, c, nbs[idx])
              && forall i :: i in Matches(t.rows, c, nbs[idx]) ==> t.rows[i] == t0.rows[i]
    ensures forall i, j :: i in Matches(t.rows, c, nbs[idx]) && j in Matches(t.rows, c, nbs[idx]) ==> i == j
  {
    var nb := nbs[idx];
    MatchesFromStart(c, t0, t, nbs, idx, idx);
    if Kept(t, c, nb) {
      var i :| Matches(t.rows, c, nb) == {i} && Exact(t.rows[i], c, nb);
      assert i in Matches(t.rows, c, nb);
      assert Matches(t0.rows, c, nb) == {i};
    }
    if Kept(t0, c, nb) {
      var i :| Matches(t0.rows, c, nb) == {i} && Exact(t0.rows[i], c, nb);
      assert i in Matches(t.rows, c, nb);
    }
  }

  /** Neither run fails on the entry, and both return one link for it or none. */
  lemma EntryLoads(c: Call, t0: Table, t: Table, nbs: seq<Neighbor>, idx: nat)
    requires idx < |nbs| && Follows(c, t0, t, nbs, idx) && DryRunPasses(c, t0, nbs) && Distinct(c, nbs)
    ensures var live, dry := Step(c, t, nbs[idx], idx, false), Step(c, t0, nbs[idx], idx, true);
            && live.error == dry.error == None && dry.table == t0 && |live.ret| == |dry.ret|
            && Follows(c, t0, live.table, nbs, idx + 1)
  {
    var nb := nbs[idx];
    if Accepted(c, nb) {
      SameKind(c, t0, t, nbs, idx);
      DryShows(c, t0, nb, idx);
      if Kept(t0, c, nb) {
        KeptStep(c, t0, t, nbs, idx);
      } else {
        LiveRewrites(c, t, nb, idx);
        RewritingTracksRows(c, t0, t, nbs, idx, LiveNet(c, t, nb));
      }
    }
    if !Rewritten(t0, c, nb) { FreedStays(c, t0, nbs, idx); }
  }

  lemma FreedStays(c: Call, t0: Table, nbs: seq<Neighbor>, idx: nat)
    requires idx < |nbs| && !Rewritten(t0, c, nbs[idx])
    ensures Freed(c, t0, nbs, idx + 1) == Freed(c, t0, nbs, idx)
  {
    forall n ensures n in Freed(c, t0, nbs, idx + 1) <==> n in Freed(c, t0, nbs, idx) {
      FreedNext(c, t0, nbs, idx, n);
    }
  }

  lemma KeptStep(c: Call, t0: Table, t: Table, nbs: seq<Neighbor>, idx: nat)
    requires idx < |nbs| && Follows(c, t0, t, nbs, idx) && DryRunPasses(c, t0, nbs)
    requires Accepted(c, nbs[idx]) && Kept(t0, c, nbs[idx])
    ensures var live, dry := Step(c, t, nbs[idx], idx, false), Step(c, t0, nbs[idx], idx, true);
            && live.error == None && |live.ret| == 1 && live.table == t
            && (live.ret == dry.ret <==> Predicted(c, t0, nbs, idx))
  {
    var nb := nbs[idx];
    SameKind(c, t0, t, nbs, idx);
    DryShows(c, t0, nb, idx);
    var i :| Matches(t0.rows, c, nb) == {i} && Exact(t0.rows[i], c, nb);
    assert i in Matches(t.rows, c, nb) && Matches(t.rows, c, nb) == {i};
    assert Step(c, t, nb, idx, false) == Outcome(t, [Entry(t0.rows[i], nb.redundant.value)], None);
    assert t0.rows[i] == NewLink(c, nb, t0.rows[i].net);
  }

  /** The live and the dry run agree on one entry exactly when its prefix is predicted. */
  lemma EntryAgreesIff(c: Call, t0: Table, t: Table, nbs: seq<Neighbor>, idx: nat)
    requires idx < |nbs| && Tracks(c, t0, t, nbs, idx) && DryRunPasses(c, t0, nbs) && Distinct(c, nbs)
    ensures Step(c, t, nbs[idx], idx, false).ret == Step(c, t0, nbs[idx], idx, true).ret <==> Predicted(c, t0, nbs, idx)
  {
    var nb := nbs[idx];
    if Accepted(c, nb) {
      SameKind(c, t0, t, nbs, idx);
      DryShows(c, t0, nb, idx);
      if Kept(t0, c, nb) {
        KeptStep(c, t0, t, nbs, idx);
      } else {
        LiveRewrites(c, t, nb, idx);
        RewrittenAgreesIff(c, t0, t, nbs, idx);
      }
    }
  }

  lemma RewrittenAgreesIff(c: Call, t0: Table, t: Table, nbs: seq<Neighbor>, idx: nat)
    requires idx < |nbs| && Tracks(c, t0, t, nbs, idx) && Rewritten(t0, c, nbs[idx])
    ensures LiveNet(c, t, nbs[idx]) == DryNet(c, t0, nbs[idx], idx) <==> Predicted(c, t0, nbs, idx)
  {
    RewrittenInTurn(c, t0, t, nbs, idx);
  }

  lemma RewrittenInTurn(c: Call, t0: Table, t: Table, nbs: seq<Neighbor>, idx: nat)
    requires idx < |nbs| && Tracks(c, t0, t, nbs, idx) && Rewritten(t0, c, nbs[idx])
    ensures var taken := Takers(c, t0, nbs, idx);
            Nth(FreeNets(c, Cleared(t, c, nbs[idx])), 0) == Nth(FreeNets(c, t0), idx)
            <==> InTurn(FreeNets(c, t0), Freed(c, t0, nbs, idx + 1), taken, idx)
  {
    var freed := Freed(c, t0, nbs, idx + 1);
    ClearingTracks(c, t0, t, nbs, idx);
    FreedIsUsed(c, t0, nbs, idx + 1);
    TakersBounded(c, t0, nbs, idx);
    PickIff(c, t0, Cleared(t, c, nbs[idx]).rows, freed, Takers(c, t0, nbs, idx), idx);
  }

  // ------------------------------------------------------------------- going on from there

  lemma EntriesApart(c: Call, nbs: seq<Neighbor>, idx: nat, k: nat, l: Linknet)
    requires Distinct(c, nbs) && idx < k < |nbs| && Accepted(c, nbs[idx]) && Accepted(c, nbs[k])
    requires l.a == c.local && l.aPort == nbs[idx].localIf
    requires l.b == nbs[idx].remote.value.id && l.bPort == nbs[idx].remotePort
    ensures !Ends(l, c.local, nbs[k].localIf) && !Ends(l, nbs[k].remote.value.id, nbs[k].remotePort)
  {
  }

  lemma RewritingTracksRows(c: Call, t0: Table, t: Table, nbs: seq<Neighbor>, idx: nat, net: Option<nat>)
    requires idx < |nbs| && Follows(c, t0, t, nbs, idx) && Distinct(c, nbs) && Rewritten(t0, c, nbs[idx])
    ensures RowsTrack(c, t0, WithRow(Cleared(t, c, nbs[idx]), c, nbs[idx], net), nbs, idx + 1)
  {
    var nb, t' := nbs[idx], WithRow(Cleared(t, c, nbs[idx]), c, nbs[idx], net);
    MatchesFromStart(c, t0, t, nbs, idx, idx);
    forall i | i in t0.rows
      ensures || (i in t'.rows && t'.rows[i] == t0.rows[i])
              || (t0.rows[i].net.Some? && InPool(c.pool.base, c.pool.count, t0.rows[i].net.value) ==>
                    t0.rows[i].net.value in Freed(c, t0, nbs, idx + 1))
    {
      if t0.rows[i].net.Some? { FreedNext(c, t0, nbs, idx, t0.rows[i].net.value); }
    }
    forall k | idx < k < |nbs| && Accepted(c, nbs[k])
      ensures Matches(t'.rows, c, nbs[k]) == Matches(t.rows, c, nbs[k]) - Matches(t.rows, c, nb)
    {
      EntriesApart(c, nbs, idx, k, NewLink(c, nb, net));
    }
    forall k | idx < k < |nbs| && Accepted(c, nbs[k]) && Kept(t0, c, nbs[k])
      ensures Matches(t'.rows, c, nbs[k]) == Matches(t0.rows, c, nbs[k])
    {
      KeptIsApart(c, t0, t, nbs, idx, k);
    }
  }

  lemma KeptIsApart(c: Call, t0: Table, t: Table, nbs: seq<Neighbor>, idx: nat, k: nat)
    requires idx < k < |nbs| && Follows(c, t0, t, nbs, idx) && Distinct(c, nbs)
    requires Accepted(c, nbs[idx]) && Accepted(c, nbs[k]) && Kept(t0, c, nbs[k])
    ensures Matches(t.rows, c, nbs[k]) !! Matches(t.rows, c, nbs[idx])
  {
    var i :| Matches(t0.rows, c, nbs[k]) == {i} && Exact(t0.rows[i], c, nbs[k]);
    MatchesFromStart(c, t0, t, nbs, idx, k);
    assert i in Matches(t.rows, c, nbs[k]);
    assert i !in Matches(t.rows, c, nbs[idx]);
  }

  lemma RewritingTracksNets(c: Call, t0: Table, t: Table, nbs: seq<Neighbor>, idx: nat)
    requires idx < |nbs| && Tracks(c, t0, t, nbs, idx) && Rewritten(t0, c, nbs[idx]) && Predicted(c, t0, nbs, idx)
    ensures NetsTrack(c, t0, WithRow(Cleared(t, c, nbs[idx]), c, nbs[idx], LiveNet(c, t, nbs[idx])).rows,
                      Freed(c, t0, nbs, idx + 1), Takers(c, t0, nbs, idx + 1))
  {
    var nb, cleared := nbs[idx], Cleared(t, c, nbs[idx]);
    var net, free, taken := LiveNet(c, t, nb), FreeNets(c, t0), Takers(c, t0, nbs, idx);
    var rows' := WithRow(cleared, c, nb, net).rows;
    ClearingTracks(c, t0, t, nbs, idx);
    RewrittenAgreesIff(c, t0, t, nbs, idx);
    forall n | InPool(c.pool.base, c.pool.count, n)
      ensures n in Used(rows') <==>
              (n in Used(t0.rows) && n !in Freed(c, t0, nbs, idx + 1)) || Among(free, 0, Takers(c, t0, nbs, idx + 1), n)
    {
      AddedUse(c, cleared, nb, net, n);
      AmongNext(free, taken, n);
    }
  }

  lemma AmongNext(free: seq<nat>, taken: nat, n: nat)
    ensures Among(free, 0, taken + 1, n) <==> Among(free, 0, taken, n) || Nth(free, taken) == Some(n)
  {
    if Among(free, 0, taken + 1, n) && !Among(free, 0, taken, n) {
      var i :| 0 <= i < taken + 1 && i < |free| && free[i] == n;
      assert i == taken;
    }
  }

  lemma AddedUse(c: Call, t: Table, nb: Neighbor, net: Option<nat>, n: nat)
    requires nb.remote.Some? && t.nextId !in t.rows
    ensures n in Used(WithRow(t, c, nb, net).rows) <==> n in Used(t.rows) || net == Some(n)
  {
    var rows' := WithRow(t, c, nb, net).rows;
    assert rows'[t.nextId].net == net;
    if n in Used(t.rows) {
      var i :| i in t.rows && t.rows[i].net.Some? && t.rows[i].net.value == n;
      assert rows'[i] == t.rows[i];
    }
  }

  /** While the runs agree the networks stay related. */
  lemma AgreeingTracks(c: Call, t0: Table, t: Table, nbs: seq<Neighbor>, idx: nat)
    requires idx < |nbs| && Tracks(c, t0, t, nbs, idx) && DryRunPasses(c, t0, nbs) && Distinct(c, nbs)
    requires Predicted(c, t0, nbs, idx)
    ensures Tracks(c, t0, Step(c, t, nbs[idx], idx, false).table, nbs, idx + 1)
  {
    var nb := nbs[idx];
    EntryLoads(c, t0, t, nbs, idx);
    if Rewritten(t0, c, nb) {
      SameKind(c, t0, t, nbs, idx);
      LiveRewrites(c, t, nb, idx);
      RewritingTracksNets(c, t0, t, nbs, idx);
    } else {
      FreedStays(c, t0, nbs, idx);
      if Accepted(c, nb) { KeptStep(c, t0, t, nbs, idx); }
    }
  }

  lemma {:induction false} RestLoads(c: Call, t0: Table, t: Table, nbs: seq<Neighbor>, idx: nat)
    requires idx <= |nbs| && Follows(c, t0, t, nbs, idx) && DryRunPasses(c, t0, nbs) && Distinct(c, nbs)
    ensures Update(c, t, nbs[idx..], idx, false).error == Update(c, t0, nbs[idx..], idx, true).error == None
    decreases |nbs| - idx
  {
    if idx < |nbs| {
      assert nbs[idx..][0] == nbs[idx] && nbs[idx..][1..] == nbs[idx + 1..];
      EntryLoads(c, t0, t, nbs, idx);
      RestLoads(c, t0, Step(c, t, nbs[idx], idx, false).table, nbs, idx + 1);
      UpdateTurn(c, t, nbs[idx..], idx, false);
      UpdateTurn(c, t0, nbs[idx..], idx, true);
    }
  }

  lemma HeadsDecide(a: seq<Entry>, b: seq<Entry>, x: seq<Entry>, y: seq<Entry>)
    requires |a| == |b|
    ensures a + x == b + y <==> a == b && x == y
  {
    assert (a + x)[..|a|] == a && (b + y)[..|b|] == b && (a + x)[|a|..] == x && (b + y)[|b|..] == y;
  }

  /** The first entry's link, then those of the rest. */
  lemma RestSplits(c: Call, t: Table, nbs: seq<Neighbor>, idx: nat, dry: bool)
    requires idx < |nbs| && Step(c, t, nbs[idx], idx, dry).error == None
    ensures var o := Step(c, t, nbs[idx], idx, dry);
            Update(c, t, nbs[idx..], idx, dry).ret == o.ret + Update(c, o.table, nbs[idx + 1..], idx + 1, dry).ret
  {
    assert nbs[idx..][0] == nbs[idx] && nbs[idx..][1..] == nbs[idx + 1..];
    UpdateTurn(c, t, nbs[idx..], idx, dry);
  }

  /** All entries from here on. */
  ghost predicate AllPredicted(c: Call, t: Table, nbs: seq<Neighbor>, from: nat) {
    forall k :: from <= k < |nbs| ==> Predicted(c, t, nbs, k)
  }

  lemma AllPredictedNext(c: Call, t: Table, nbs: seq<Neighbor>, from: nat)
    requires from < |nbs|
    ensures AllPredicted(c, t, nbs, from) <==> Predicted(c, t, nbs, from) && AllPredicted(c, t, nbs, from + 1)
  {
  }

  ghost function LiveTable(c: Call, t: Table, nb: Neighbor, idx: nat): Table { Step(c, t, nb, idx, false).table }

  ghost predicate SameStep(c: Call, t0: Table, t: Table, nb: Neighbor, idx: nat) {
    Step(c, t, nb, idx, false).ret == Step(c, t0, nb, idx, true).ret
  }

  /** Entry by entry from idx on, the live run on its own table and the dry run on the first one return the same. */
  ghost predicate RunsAgree(c: Call, t0: Table, t: Table, nbs: seq<Neighbor>, idx: nat)
    requires idx <= |nbs|
    decreases |nbs| - idx
  {
    idx < |nbs| ==> SameStep(c, t0, t, nbs[idx], idx) && RunsAgree(c, t0, LiveTable(c, t, nbs[idx], idx), nbs, idx + 1)
  }

  lemma {:induction false} SameListIff(c: Call, t0: Table, t: Table, nbs: seq<Neighbor>, idx: nat)
    requires idx <= |nbs| && Follows(c, t0, t, nbs, idx) && DryRunPasses(c, t0, nbs) && Distinct(c, nbs)
    ensures Update(c, t, nbs[idx..], idx, false).ret == Update(c, t0, nbs[idx..], idx, true).ret
            <==> RunsAgree(c, t0, t, nbs, idx)
    decreases |nbs| - idx
  {
    if idx < |nbs| {
      var live, dry := Step(c, t, nbs[idx], idx, false), Step(c, t0, nbs[idx], idx, true);
      EntryLoads(c, t0, t, nbs, idx);
      RestSplits(c, t, nbs, idx, false);
      RestSplits(c, t0, nbs, idx, true);
      HeadsDecide(live.ret, dry.ret, Update(c, live.table, nbs[idx + 1..], idx + 1, false).ret,
                  Update(c, t0, nbs[idx + 1..], idx + 1, true).ret);
      SameListIff(c, t0, live.table, nbs, idx + 1);
    }
  }

  /** One entry on: the runs agree there and the tables stay related. */
  lemma PredictedIsFirst(c: Call, t0: Table, t: Table, nbs: seq<Neighbor>, idx: nat)
    requires idx < |nbs| && Tracks(c, t0, t, nbs, idx) && DryRunPasses(c, t0, nbs) && Distinct(c, nbs)
    ensures SameStep(c, t0, t, nbs[idx], idx) <==> Predicted(c, t0, nbs, idx)
    ensures Predicted(c, t0, nbs, idx) ==> Tracks(c, t0, LiveTable(c, t, nbs[idx], idx), nbs, idx + 1)
  {
    EntryAgreesIff(c, t0, t, nbs, idx);
    if Predicted(c, t0, nbs, idx) { AgreeingTracks(c, t0, t, nbs, idx); }
  }

  lemma {:induction false} AgreeingIsPredicted(c: Call, t0: Table, t: Table, nbs: seq<Neighbor>, idx: nat, k: nat)
    requires idx <= k < |nbs| && Tracks(c, t0, t, nbs, idx) && DryRunPasses(c, t0, nbs) && Distinct(c, nbs)
    requires RunsAgree(c, t0, t, nbs, idx)
    ensures Predicted(c, t0, nbs, k)
    decreases |nbs| - idx
  {
    PredictedIsFirst(c, t0, t, nbs, idx);
    if idx < k { AgreeingIsPredicted(c, t0, LiveTable(c, t, nbs[idx], idx), nbs, idx + 1, k); }
  }

  lemma {:induction false} PredictedAgrees(c: Call, t0: Table, t: Table, nbs: seq<Neighbor>, idx: nat)
    requires idx <= |nbs| && Tracks(c, t0, t, nbs, idx) && DryRunPasses(c, t0, nbs) && Distinct(c, nbs)
    requires AllPredicted(c, t0, nbs, idx)
    ensures RunsAgree(c, t0, t, nbs, idx)
    decreases |nbs| - idx
  {
    if idx < |nbs| {
      AllPredictedNext(c, t0, nbs, idx);
      PredictedIsFirst(c, t0, t, nbs, idx);
      PredictedAgrees(c, t0, LiveTable(c, t, nbs[idx], idx), nbs, idx + 1);
    }
  }

  /** The runs agree throughout exactly when every entry is predicted. */
  lemma RunsAgreeIff(c: Call, t: Table, nbs: seq<Neighbor>)
    requires Tracks(c, t, t, nbs, 0) && DryRunPasses(c, t, nbs) && Distinct(c, nbs)
    ensures RunsAgree(c, t, t, nbs, 0) <==> AllPredicted(c, t, nbs, 0)
  {
    if RunsAgree(c, t, t, nbs, 0) {
      forall k | 0 <= k < |nbs| ensures Predicted(c, t, nbs, k) { AgreeingIsPredicted(c, t, t, nbs, 0, k); }
    }
    if AllPredicted(c, t, nbs, 0) { PredictedAgrees(c, t, t, nbs, 0); }
  }

  /** A dry run shows what the live run after it returns exactly when every entry is predicted. */
  lemma PredictionIff(c: Call, t: Table, nbs: seq<Neighbor>)
    requires Valid(t) && Distinct(c, nbs) && DryRunPasses(c, t, nbs)
    ensures Update(c, t, nbs, 0, false).error == Update(c, t, nbs, 0, true).error == None
    ensures Update(c, t, nbs, 0, false).ret == Update(c, t, nbs, 0, true).ret
            <==> AllPredicted(c, t, nbs, 0)
  {
    assert nbs[0..] == nbs;
    RestLoads(c, t, t, nbs, 0);
    SameListIff(c, t, t, nbs, 0);
    RunsAgreeIff(c, t, nbs);
  }

  /** For a first cabling: every fabric entry is either the k-th to take a network or finds none left. */
  lemma FirstCablingIff(c: Call, t: Table, nbs: seq<Neighbor>)
    requires Valid(t) && Distinct(c, nbs) && DryRunPasses(c, t, nbs)
    requires forall k :: 0 <= k < |nbs| && Accepted(c, nbs[k]) ==> Matches(t.rows, c, nbs[k]) == {}
    ensures Update(c, t, nbs, 0, false).ret == Update(c, t, nbs, 0, true).ret
            <==> forall k :: 0 <= k < |nbs| && Accepted(c, nbs[k]) && NeedsAddress(c, nbs[k]) ==>
                   Takers(c, t, nbs, k) == k || Takers(c, t, nbs, k) >= |FreeNets(c, t)|
  {
    PredictionIff(c, t, nbs);
    forall k | 0 <= k < |nbs|
      ensures Predicted(c, t, nbs, k) <==>
              (Accepted(c, nbs[k]) && NeedsAddress(c, nbs[k]) ==>
                 Takers(c, t, nbs, k) == k || Takers(c, t, nbs, k) >= |FreeNets(c, t)|)
    {
      NothingFreed(c, t, nbs, k + 1);
      assert !Accepted(c, nbs[k]) || !Kept(t, c, nbs[k]);
    }
  }

  lemma NothingFreed(c: Call, t: Table, nbs: seq<Neighbor>, k: nat)
    requires k <= |nbs|
    requires forall j :: 0 <= j < |nbs| && Accepted(c, nbs[j]) ==> Matches(t.rows, c, nbs[j]) == {}
    ensures Freed(c, t, nbs, k) == {}
  {
  }

  const UNKNOWN_FIRST :=
    [Neighbor("e1", None, "p1", None), Neighbor("e2", Some(Remote(2, true, Dist)), "p2", Some(true))]

  /** An unknown neighbour listed first shifts the prefix the dry run shows. */
  lemma UnknownNeighborShifts()
    ensures var c, t := Call(1, Dist, Dist, None, Pool(0, 2)), Table(map[], 1);
            && Valid(t) && Distinct(c, UNKNOWN_FIRST) && DryRunPasses(c, t, UNKNOWN_FIRST)
            && Update(c, t, UNKNOWN_FIRST, 0, true).ret == [Entry(Linknet(1, "e2", 2, "p2", Some(2)), true)]
            && Update(c, t, UNKNOWN_FIRST, 0, false).ret == [Entry(Linknet(1, "e2", 2, "p2", Some(0)), true)]
  {
    var c, t := Call(1, Dist, Dist, None, Pool(0, 2)), Table(map[], 1);
    var rest := UNKNOWN_FIRST[1..];
    assert rest == [UNKNOWN_FIRST[1]] && rest[1..] == [];
    assert Used(t.rows) == {} && Free(0, 2, {}) == [0] + Free(2, 1, {}) && Free(2, 1, {}) == [2] + Free(4, 0, {});
    assert Matches(t.rows, c, UNKNOWN_FIRST[1]) == {};
    UpdateTurn(c, t, UNKNOWN_FIRST, 0, true);
    UpdateTurn(c, t, UNKNOWN_FIRST, 0, false);
    UpdateTurn(c, t, rest, 1, true);
    UpdateTurn(c, t, rest, 1, false);
  }
}
