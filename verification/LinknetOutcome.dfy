/** What one turn of update_linknets makes of a neighbour, and what a whole live run leaves of that. */
module LinknetOutcome {
  import opened Common
  import opened Linknets
  import opened LinknetRuns

  /** A known neighbour that is managed, or the MLAG peer in whatever state. */
  predicate Counts(c: Call, nb: Neighbor) {
    nb.remote.Some? && (nb.remote.value.managed || c.mlagPeer == Some(nb.remote.value.id))
  }

  /** Either end of the cable lies on the row, on whichever side of it. */
  predicate AtEnd(c: Call, nb: Neighbor, l: Linknet)
    requires nb.remote.Some?
  {
    || (l.a == c.local && l.aPort == nb.localIf)
    || (l.b == c.local && l.bPort == nb.localIf)
    || (l.a == nb.remote.value.id && l.aPort == nb.remotePort)
    || (l.b == nb.remote.value.id && l.bPort == nb.remotePort)
  }

  function Touched(c: Call, t: Table, nb: Neighbor): set<nat>
    requires nb.remote.Some?
  {
    set i | i in t.rows && AtEnd(c, nb, t.rows[i])
  }

  /** The row of the neighbour with this network. */
  function RowOf(c: Call, nb: Neighbor, net: Option<nat>): Linknet
    requires nb.remote.Some?
  {
    Linknet(c.local, nb.localIf, nb.remote.value.id, nb.remotePort, net)
  }

  /** A /31 of the pool that no row has. */
  ghost predicate IsFree(pool: Pool, rows: map<nat, Linknet>, x: nat) {
    && (exists k: nat :: k < pool.count && x == pool.base + 2 * k)
    && forall i :: i in rows ==> rows[i].net != Some(x)
  }

  /** Core and distribution devices get a network for the links between them. */
  predicate BothFabric(c: Call, nb: Neighbor)
    requires nb.remote.Some?
  {
    (c.devtype == Core || c.devtype == Dist) && (nb.remote.value.devtype == Core || nb.remote.value.devtype == Dist)
  }

  /** The network is the least free one, and None when the link gets none or none is free. */
  ghost predicate IsNetwork(c: Call, nb: Neighbor, rows: map<nat, Linknet>, net: Option<nat>)
    requires nb.remote.Some?
  {
    match net
    case Some(x) => BothFabric(c, nb) && IsFree(c.pool, rows, x) && forall y :: IsFree(c.pool, rows, y) ==> x <= y
    case None => BothFabric(c, nb) ==> forall y :: !IsFree(c.pool, rows, y)
  }

  lemma InPoolIff(pool: Pool, x: nat)
    ensures InPool(pool.base, pool.count, x) <==> exists k: nat :: k < pool.count && x == pool.base + 2 * k
  {
    if InPool(pool.base, pool.count, x) { assert x == pool.base + 2 * ((x - pool.base) / 2); }
  }

  lemma FreeIff(pool: Pool, rows: map<nat, Linknet>, x: nat)
    ensures x in Free(pool.base, pool.count, Used(rows)) <==> IsFree(pool, rows, x)
  {
    FreeIsExact(pool.base, pool.count, Used(rows));
    InPoolIff(pool, x);
    if x in Used(rows) { assert exists i :: i in rows && rows[i].net == Some(x); }
  }

  lemma FirstFreeIsNetwork(c: Call, nb: Neighbor, rows: map<nat, Linknet>)
    requires nb.remote.Some?
    ensures IsNetwork(c, nb, rows,
                      if NeedsAddress(c, nb) then Nth(Free(c.pool.base, c.pool.count, Used(rows)), 0) else None)
  {
    var free := Free(c.pool.base, c.pool.count, Used(rows));
    FreeIsExact(c.pool.base, c.pool.count, Used(rows));
    forall y ensures y in free <==> IsFree(c.pool, rows, y) { FreeIff(c.pool, rows, y); }
    if NeedsAddress(c, nb) && free != [] { assert free[0] in free; }
  }

  /** Other neighbours are passed over, and a failing interface check ends the run before anything is done. */
  lemma OthersAreSkipped(c: Call, t: Table, nb: Neighbor, idx: nat, dry: bool)
    ensures !Counts(c, nb) ==> Step(c, t, nb, idx, dry) == Outcome(t, [], None)
    ensures Counts(c, nb) && nb.redundant.None? ==> Step(c, t, nb, idx, dry) == Outcome(t, [], Some(InterfaceError))
  {
  }

  lemma TouchedIsMatched(c: Call, t: Table, nb: Neighbor)
    requires nb.remote.Some?
    ensures Touched(c, t, nb) == Matches(t.rows, c, nb)
  {
  }

  /** The link is stored with the local device as its a side: a live run returns it with the check's result. */
  lemma StoredRowIsKept(c: Call, t: Table, nb: Neighbor, idx: nat, i: nat)
    requires Counts(c, nb) && nb.redundant.Some? && Touched(c, t, nb) == {i}
    requires i in t.rows && t.rows[i] == RowOf(c, nb, t.rows[i].net)
    ensures Step(c, t, nb, idx, false) == Outcome(t, [Entry(t.rows[i], nb.redundant.value)], None)
  {
    TouchedIsMatched(c, t, nb);
  }

  /** The link begins or ends as the one of the neighbour does. */
  predicate SameSide(c: Call, nb: Neighbor, l: Linknet)
    requires nb.remote.Some?
  {
    (l.a == c.local && l.aPort == nb.localIf) || (l.b == nb.remote.value.id && l.bPort == nb.remotePort)
  }

  /** What a live turn may do to write the row of a neighbour. */
  ghost predicate Writes(c: Call, t: Table, nb: Neighbor, o: Outcome)
    requires nb.remote.Some? && nb.redundant.Some?
  {
    var rest := t.rows - Touched(c, t, nb);
    if BothFabric(c, nb) && (exists x :: IsFree(c.pool, rest, x)) && c.dbType != Core && c.dbType != Dist
    then o == Outcome(t.(rows := rest), [], Some(ValueError))
    else exists net :: && IsNetwork(c, nb, rest, net)
                       && o == Outcome(Table(rest[t.nextId := RowOf(c, nb, net)], t.nextId + 1),
                                       [Entry(RowOf(c, nb, net), nb.redundant.value)], None)
  }

  /**
   Without such a row a live turn deletes the one row at either end, if there is one, and writes the row
   with the least free network exactly when both devices are core or distribution devices and one is free;
   it raises exactly when it found one and the device is stored as neither.
   */
  lemma RowIsWritten(c: Call, t: Table, nb: Neighbor, idx: nat)
    requires Valid(t) && Counts(c, nb) && nb.redundant.Some?
    requires forall i, j :: i in Touched(c, t, nb) && j in Touched(c, t, nb) ==> i == j
    requires forall i :: i in Touched(c, t, nb) ==> t.rows[i] != RowOf(c, nb, t.rows[i].net)
    ensures Writes(c, t, nb, Step(c, t, nb, idx, false))
  {
    TouchedIsMatched(c, t, nb);
    var m := Matches(t.rows, c, nb);
    var rest := t.(rows := t.rows - m);
    if m == {} { assert rest == t; } else {
      var i :| i in m;
      assert m == {i} && !Exact(t.rows[i], c, nb);
    }
    assert Step(c, t, nb, idx, false) == Create(c, rest, nb, idx, false);
    StepKeepsValid(c, t, nb, idx, false);
    CreatedRow(c, rest, nb, idx);
  }

  /**
   create_linknet on any table: the constraints refuse the row when its a side is the a side of a row
   already, or its b side the b side of one.
   */
  lemma CreatedRow(c: Call, t: Table, nb: Neighbor, idx: nat)
    requires nb.remote.Some? && nb.redundant.Some?
    ensures var o := Create(c, t, nb, idx, false);
            if BothFabric(c, nb) && (exists x :: IsFree(c.pool, t.rows, x)) && c.dbType != Core && c.dbType != Dist
            then o == Outcome(t, [], Some(ValueError))
            else if exists i :: i in t.rows && SameSide(c, nb, t.rows[i])
            then o == Outcome(t, [], Some(IntegrityError))
            else exists net :: && IsNetwork(c, nb, t.rows, net)
                               && o == Outcome(Table(t.rows[t.nextId := RowOf(c, nb, net)], t.nextId + 1),
                                               [Entry(RowOf(c, nb, net), nb.redundant.value)], None)
  {
    FirstFreeIsNetwork(c, nb, t.rows);
    var net := if NeedsAddress(c, nb) then Nth(Free(c.pool.base, c.pool.count, Used(t.rows)), 0) else None;
    assert IsNetwork(c, nb, t.rows, net);
    BreaksIff(c, t, nb, net);
  }

  lemma BreaksIff(c: Call, t: Table, nb: Neighbor, net: Option<nat>)
    requires nb.remote.Some?
    ensures BreaksUnique(t.rows, NewLink(c, nb, net)) <==> exists i :: i in t.rows && SameSide(c, nb, t.rows[i])
  {
    if i :| i in t.rows && SameSide(c, nb, t.rows[i]) { assert i in t.rows; }
  }

  /** A dry turn shows the row with the free network at the neighbour's position, whatever is stored. */
  lemma DryTurnShows(c: Call, t: Table, nb: Neighbor, idx: nat)
    requires Counts(c, nb) && nb.redundant.Some?
    requires forall i, j :: i in Touched(c, t, nb) && j in Touched(c, t, nb) ==> i == j
    ensures var free := Free(c.pool.base, c.pool.count, Used(t.rows));
            Step(c, t, nb, idx, true)
            == Outcome(t, [Entry(RowOf(c, nb, if BothFabric(c, nb) && idx < |free| then Some(free[idx]) else None),
                                 nb.redundant.value)], None)
  {
    TouchedIsMatched(c, t, nb);
    var m := Matches(t.rows, c, nb);
    if i :| i in m { assert m == {i}; }
  }

  // --------------------------------------------------------------------- over a whole run

  /** Running the front of the list and then the rest ends like running all of it. */
  ghost predicate Splits(c: Call, t: Table, front: seq<Neighbor>, rest: seq<Neighbor>, idx: nat, whole: Outcome) {
    var o := Update(c, t, front, idx, false);
    var o' := Update(c, o.table, rest, idx + |front|, false);
    o.error == None && o'.error == None && o'.table == whole.table
  }

  lemma SplitTurn(c: Call, t: Table, front: seq<Neighbor>, rest: seq<Neighbor>, idx: nat, whole: Outcome)
    requires front != [] && Step(c, t, front[0], idx, false).error == None
    requires Splits(c, Step(c, t, front[0], idx, false).table, front[1..], rest, idx + 1, whole)
    ensures Splits(c, t, front, rest, idx, whole)
  {
    UpdateTurn(c, t, front, idx, false);
  }

  lemma {:induction false} RunSplits(c: Call, t: Table, nbs: seq<Neighbor>, k: nat, idx: nat)
    requires k <= |nbs| && Update(c, t, nbs, idx, false).error == None
    ensures Splits(c, t, nbs[..k], nbs[k..], idx, Update(c, t, nbs, idx, false))
    decreases k
  {
    if k == 0 {
      assert nbs[..0] == [] && nbs[0..] == nbs;
    } else {
      var o := Step(c, t, nbs[0], idx, false);
      UpdateTurn(c, t, nbs, idx, false);
      RunSplits(c, o.table, nbs[1..], k - 1, idx + 1);
      assert nbs[..k][1..] == nbs[1..][..k - 1] && nbs[1..][k - 1..] == nbs[k..] && nbs[..k][0] == nbs[0];
      SplitTurn(c, t, nbs[..k], nbs[k..], idx, Update(c, o.table, nbs[1..], idx + 1, false));
    }
  }

  lemma RestIsDistinct(c: Call, nbs: seq<Neighbor>, k: nat)
    requires Distinct(c, nbs) && k < |nbs|
    ensures Distinct(c, [nbs[k]] + nbs[k + 1..])
  {
    assert [nbs[k]] + nbs[k + 1..] == nbs[k..];
    assert forall i :: 0 <= i < |nbs| - k ==> nbs[k..][i] == nbs[k + i];
  }

  /** The table before turn k and what the turn makes of it. */
  lemma TurnReached(c: Call, t: Table, nbs: seq<Neighbor>, k: nat)
    requires Valid(t) && k < |nbs| && Update(c, t, nbs, 0, false).error == None
    ensures var before := Update(c, t, nbs[..k], 0, false).table;
            var o := Step(c, before, nbs[k], k, false);
            && Valid(before) && Valid(o.table) && o.error == None
            && Update(c, o.table, nbs[k + 1..], k + 1, false).error == None
            && Update(c, o.table, nbs[k + 1..], k + 1, false).table == Update(c, t, nbs, 0, false).table
  {
    RunSplits(c, t, nbs, k, 0);
    UpdateKeepsValid(c, t, nbs[..k], 0, false);
    var before := Update(c, t, nbs[..k], 0, false).table;
    assert nbs[k..][0] == nbs[k] && nbs[k..][1..] == nbs[k + 1..];
    UpdateTurn(c, before, nbs[k..], k, false);
    StepKeepsValid(c, before, nbs[k], k, false);
  }

  /** What a turn returned stays the only row at the neighbour's ends while the rest of the list is run. */
  lemma TurnStays(c: Call, before: Table, nb: Neighbor, rest: seq<Neighbor>, k: nat)
    requires Valid(before) && Counts(c, nb) && Distinct(c, [nb] + rest)
    requires Step(c, before, nb, k, false).error == None
    requires Update(c, Step(c, before, nb, k, false).table, rest, k + 1, false).error == None
    ensures var o := Step(c, before, nb, k, false);
            var end := Update(c, o.table, rest, k + 1, false).table;
            && |o.ret| == 1 && Touched(c, end, nb) != {}
            && forall i :: i in Touched(c, end, nb) ==> end.rows[i] == o.ret[0].link
  {
    var o := Step(c, before, nb, k, false);
    var end := Update(c, o.table, rest, k + 1, false).table;
    StepSettles(c, before, nb, k);
    StepKeepsValid(c, before, nb, k, false);
    UpdateKeepsSettled(c, o.table, nb, rest, k + 1, k);
    TouchedIsMatched(c, end, nb);
    var i :| Matches(end.rows, c, nb) == {i} && Exact(end.rows[i], c, nb);
    assert i in Matches(end.rows, c, nb);
  }

  /** The row a neighbour has after its turn is still there at the end of the run, and is what was returned for it. */
  lemma TurnLasts(c: Call, t: Table, nbs: seq<Neighbor>, k: nat)
    requires Valid(t) && Distinct(c, nbs) && k < |nbs| && Counts(c, nbs[k])
    requires Update(c, t, nbs, 0, false).error == None
    ensures var before := Update(c, t, nbs[..k], 0, false).table;
            var o, end := Step(c, before, nbs[k], k, false), Update(c, t, nbs, 0, false).table;
            && Valid(before) && o.error == None && |o.ret| == 1
            && Touched(c, end, nbs[k]) != {}
            && forall i :: i in Touched(c, end, nbs[k]) ==> end.rows[i] == o.ret[0].link
  {
    TurnReached(c, t, nbs, k);
    RestIsDistinct(c, nbs, k);
    TurnStays(c, Update(c, t, nbs[..k], 0, false).table, nbs[k], nbs[k + 1..], k);
  }

  /** A first cabling of a distribution to a core device takes the first network of the pool. */
  lemma DistToCore()
    ensures var c, t := Call(1, Dist, Dist, None, Pool(0, 2)), Table(map[], 1);
            var nb := Neighbor("e1", Some(Remote(2, true, Core)), "p2", Some(false));
            var row := Linknet(1, "e1", 2, "p2", Some(0));
            && Valid(t)
            && Update(c, t, [nb], 0, false) == Outcome(Table(map[1 := row], 2), [Entry(row, false)], None)
  {
    var c, t := Call(1, Dist, Dist, None, Pool(0, 2)), Table(map[], 1);
    var nb := Neighbor("e1", Some(Remote(2, true, Core)), "p2", Some(false));
    var row := Linknet(1, "e1", 2, "p2", Some(0));
    assert Touched(c, t, nb) == {};
    RowIsWritten(c, t, nb, 0);
    assert 0 == c.pool.base + 2 * 0;
    assert IsFree(c.pool, map[], 0);
    assert t.rows - {} == map[];
    UpdateTurn(c, t, [nb], 0, false);
    assert [nb][1..] == [];
  }
}
