/** The linknet table, first-fit /31 allocation, and the LLDP driven update of the table. */
module Linknets {
  import opened Common

  type DeviceId = nat
  type Port = string

  datatype DeviceType = Unknown | Access | Dist | Core

  /** A row; net is the network address of its /31, or None for an unaddressed link. */
  datatype Linknet = Linknet(a: DeviceId, aPort: Port, b: DeviceId, bPort: Port, net: Option<nat>)

  datatype Table = Table(rows: map<nat, Linknet>, nextId: nat)

  /** The /31 networks of infra_link_net in order: base, base + 2, ... */
  datatype Pool = Pool(base: nat, count: nat)

  /** The neighbour device as found in the database. */
  datatype Remote = Remote(id: DeviceId, managed: bool, devtype: DeviceType)

  /** One LLDP entry; redundant is None when the interface check raises. */
  datatype Neighbor = Neighbor(localIf: Port, remote: Option<Remote>, remotePort: Port, redundant: Option<bool>)

  /** The arguments of update_linknets; dbType is the device type stored for the local device. */
  datatype Call = Call(local: DeviceId, dbType: DeviceType, devtype: DeviceType, mlagPeer: Option<DeviceId>, pool: Pool)

  datatype Error = InterfaceError | MultipleResultsFound | ValueError | IntegrityError

  datatype Entry = Entry(link: Linknet, redundant: bool)

  /** The committed table, the returned list and the exception, if any. */
  datatype Outcome = Outcome(table: Table, ret: seq<Entry>, error: Option<Error>)

  // ------------------------------------------------------------------- first fit

  function Used(rows: map<nat, Linknet>): set<nat> {
    set i | i in rows && rows[i].net.Some? :: rows[i].net.value
  }

  /** The unused networks among count /31s from base upwards, in order. */
  function Free(base: nat, count: nat, used: set<nat>): seq<nat>
    decreases count
  {
    if count == 0 then []
    else (if base in used then [] else [base]) + Free(base + 2, count - 1, used)
  }

  function Nth(s: seq<nat>, k: nat): Option<nat> { if k < |s| then Some(s[k]) else None }

  method FindFreeInfraLinknet(rows: map<nat, Linknet>, pool: Pool, offset: nat) returns (net: Option<nat>)
    ensures net == Nth(Free(pool.base, pool.count, Used(rows)), offset)
  {
    var used := Used(rows);
    var currentOffset := offset;
    var i := 0;
    while i < pool.count
      invariant i <= pool.count
      invariant Nth(Free(pool.base, pool.count, used), offset) ==
                Nth(Free(pool.base + 2 * i, pool.count - i, used), currentOffset)
    {
      var candidate := pool.base + 2 * i;
      if candidate in used {
      } else if currentOffset > 0 {
        currentOffset := currentOffset - 1;
      } else {
        return Some(candidate);
      }
      i := i + 1;
    }
    return None;
  }

  predicate InPool(base: nat, count: nat, x: nat) {
    base <= x < base + 2 * count && (x - base) % 2 == 0
  }

  /** Free lists exactly the networks of the pool that are not in use, lowest first. */
  lemma {:induction false} FreeIsExact(base: nat, count: nat, used: set<nat>)
    ensures forall x :: x in Free(base, count, used) <==> InPool(base, count, x) && x !in used
    ensures forall k, l :: 0 <= k < l < |Free(base, count, used)| ==>
                             Free(base, count, used)[k] < Free(base, count, used)[l]
    decreases count
  {
    if count > 0 {
      FreeIsExact(base + 2, count - 1, used);
      var rest := Free(base + 2, count - 1, used);
      assert forall k :: 0 <= k < |rest| ==> rest[k] in rest;
    }
  }

  // ------------------------------------------------------------ one LLDP entry

  predicate Fabric(t: DeviceType) { t.Core? || t.Dist? }

  predicate Accepted(c: Call, nb: Neighbor) {
    nb.remote.Some? && (nb.remote.value.managed || c.mlagPeer == Some(nb.remote.value.id))
  }

  predicate Ends(l: Linknet, d: DeviceId, p: Port) {
    (l.a == d && l.aPort == p) || (l.b == d && l.bPort == p)
  }

  /** Rows with either end of the LLDP entry on either side. */
  function Matches(rows: map<nat, Linknet>, c: Call, nb: Neighbor): set<nat>
    requires nb.remote.Some?
  {
    set i | i in rows && (Ends(rows[i], c.local, nb.localIf) || Ends(rows[i], nb.remote.value.id, nb.remotePort))
  }

  /** Same ends with the local device as the a side; both disjuncts of the source say this. */
  predicate Exact(l: Linknet, c: Call, nb: Neighbor)
    requires nb.remote.Some?
  {
    l.a == c.local && l.aPort == nb.localIf && l.b == nb.remote.value.id && l.bPort == nb.remotePort
  }

  predicate NeedsAddress(c: Call, nb: Neighbor)
    requires nb.remote.Some?
  {
    Fabric(c.devtype) && Fabric(nb.remote.value.devtype)
  }

  function NewLink(c: Call, nb: Neighbor, net: Option<nat>): Linknet
    requires nb.remote.Some?
  {
    Linknet(c.local, nb.localIf, nb.remote.value.id, nb.remotePort, net)
  }

  predicate BreaksUnique(rows: map<nat, Linknet>, l: Linknet) {
    exists i ::
      && i in rows
      && ((rows[i].a == l.a && rows[i].aPort == l.aPort) || (rows[i].b == l.b && rows[i].bPort == l.bPort))
  }

  /** create_linknet, then insert and commit unless this is a dry run. */
  function Create(c: Call, t: Table, nb: Neighbor, offset: nat, dry: bool): Outcome
    requires nb.remote.Some? && nb.redundant.Some?
  {
    var net := if NeedsAddress(c, nb) then Nth(Free(c.pool.base, c.pool.count, Used(t.rows)), if dry then offset else 0)
               else None;
    var link := NewLink(c, nb, net);
    var entry := [Entry(link, nb.redundant.value)];
    if dry then Outcome(t, entry, None)
    else if net.Some? && !(Fabric(c.dbType) && Fabric(nb.remote.value.devtype)) then Outcome(t, [], Some(ValueError))
    else if BreaksUnique(t.rows, link) then Outcome(t, [], Some(IntegrityError))
    else Outcome(Table(t.rows[t.nextId := link], t.nextId + 1), entry, None)
  }

  ghost function Step(c: Call, t: Table, nb: Neighbor, idx: nat, dry: bool): Outcome {
    if !Accepted(c, nb) then Outcome(t, [], None)
    else if nb.redundant == None then Outcome(t, [], Some(InterfaceError))
    else
      var m := Matches(t.rows, c, nb);
      if m == {} then Create(c, t, nb, idx, dry)
      else if i :| m == {i} then
        if Exact(t.rows[i], c, nb) && !dry then Outcome(t, [Entry(t.rows[i], nb.redundant.value)], None)
        else Create(c, if dry then t else t.(rows := t.rows - m), nb, idx, dry)
      else Outcome(t, [], Some(MultipleResultsFound))
  }

  ghost function Update(c: Call, t: Table, nbs: seq<Neighbor>, idx: nat, dry: bool): Outcome
    decreases nbs
  {
    if nbs == [] then Outcome(t, [], None)
    else
      var o := Step(c, t, nbs[0], idx, dry);
      if o.error.Some? then o
      else
        var o' := Update(c, o.table, nbs[1..], idx + 1, dry);
        Outcome(o'.table, o.ret + o'.ret, o'.error)
  }

  /** One turn, and the rest of the run unless it raised. */
  lemma UpdateTurn(c: Call, t: Table, nbs: seq<Neighbor>, idx: nat, dry: bool)
    requires nbs != []
    ensures var o := Step(c, t, nbs[0], idx, dry);
            var rest := Update(c, o.table, nbs[1..], idx + 1, dry);
            Update(c, t, nbs, idx, dry)
            == if o.error.Some? then o else Outcome(rest.table, o.ret + rest.ret, rest.error)
  {
  }

  /** An outcome with what was returned before it. */
  function Prefixed(ret: seq<Entry>, o: Outcome): Outcome { Outcome(o.table, ret + o.ret, o.error) }

  /** The run so far and the rest, one turn later. */
  lemma TurnExtends(c: Call, t: Table, ret: seq<Entry>, nbs: seq<Neighbor>, idx: nat, dry: bool)
    requires idx < |nbs|
    ensures var o := Step(c, t, nbs[idx], idx, dry);
            Prefixed(ret, Update(c, t, nbs[idx..], idx, dry))
            == if o.error.Some? then Prefixed(ret, o)
               else Prefixed(ret + o.ret, Update(c, o.table, nbs[idx + 1..], idx + 1, dry))
  {
    assert nbs[idx..][1..] == nbs[idx + 1..] && nbs[idx..][0] == nbs[idx];
    UpdateTurn(c, t, nbs[idx..], idx, dry);
    var o := Step(c, t, nbs[idx], idx, dry);
    var rest := Update(c, o.table, nbs[idx + 1..], idx + 1, dry);
    assert ret + (o.ret + rest.ret) == (ret + o.ret) + rest.ret;
  }

  class LinknetTable {
    var rows: map<nat, Linknet>
    var nextId: nat

    ghost function Value(): Table reads this { Table(rows, nextId) }

    constructor ()
      ensures Value() == Table(map[], 1)
    {
      rows, nextId := map[], 1;
    }

    method CreateLinknet(c: Call, nb: Neighbor, offset: nat, dry: bool) returns (ret: seq<Entry>, error: Option<Error>)
      requires nb.remote.Some? && nb.redundant.Some?
      modifies this
      ensures Outcome(Value(), ret, error) == Create(c, old(Value()), nb, offset, dry)
    {
      var net: Option<nat> := None;
      if NeedsAddress(c, nb) {
        net := FindFreeInfraLinknet(rows, c.pool, if dry then offset else 0);
      }
      var link := NewLink(c, nb, net);
      if !dry {
        if net.Some? && !(Fabric(c.dbType) && Fabric(nb.remote.value.devtype)) {
          return [], Some(ValueError);
        }
        if BreaksUnique(rows, link) {
          return [], Some(IntegrityError);
        }
        rows, nextId := rows[nextId := link], nextId + 1;
      }
      return [Entry(link, nb.redundant.value)], None;
    }

    method UpdateOne(c: Call, nb: Neighbor, idx: nat, dry: bool) returns (ret: seq<Entry>, error: Option<Error>)
      modifies this
      ensures Outcome(Value(), ret, error) == Step(c, old(Value()), nb, idx, dry)
    {
      if !Accepted(c, nb) {
        return [], None;
      }
      if nb.redundant == None {
        return [], Some(InterfaceError);
      }
      var found := Matches(rows, c, nb);
      if found != {} {
        var i :| i in found;
        if found != {i} {
          return [], Some(MultipleResultsFound);
        }
        if Exact(rows[i], c, nb) {
          if !dry {
            return [Entry(rows[i], nb.redundant.value)], None;
          }
        } else if !dry {
          rows := rows - {i};
        }
      }
      ret, error := CreateLinknet(c, nb, idx, dry);
    }

    method UpdateLinknets(c: Call, neighbors: seq<Neighbor>, dry: bool) returns (ret: seq<Entry>, error: Option<Error>)
      modifies this
      ensures Outcome(Value(), ret, error) == Update(c, old(Value()), neighbors, 0, dry)
    {
      ret, error := [], None;
      ghost var whole := Update(c, Value(), neighbors, 0, dry);
      assert neighbors[0..] == neighbors && [] + whole.ret == whole.ret;
      for idx := 0 to |neighbors|
        invariant error == None
        invariant whole == Prefixed(ret, Update(c, Value(), neighbors[idx..], idx, dry))
      {
        TurnExtends(c, Value(), ret, neighbors, idx, dry);
        var one;
        one, error := UpdateOne(c, neighbors[idx], idx, dry);
        ret := ret + one;
        if error.Some? { return; }
      }
    }
  }

  // ------------------------------------------------------------------- invariants

  /** No endpoint on two rows in any role, no /31 on two rows, fresh ids. */
  ghost predicate Valid(t: Table) {
    && (forall i, j, d, p :: i in t.rows && j in t.rows && Ends(t.rows[i], d, p) && Ends(t.rows[j], d, p) ==> i == j)
    && (forall i, j :: i in t.rows && j in t.rows && t.rows[i].net.Some? && t.rows[i].net == t.rows[j].net ==> i == j)
    && (forall i :: i in t.rows ==> i < t.nextId)
  }

  lemma CreateKeepsValid(c: Call, t: Table, nb: Neighbor, offset: nat, dry: bool)
    requires Valid(t) && nb.remote.Some? && nb.redundant.Some? && Matches(t.rows, c, nb) == {}
    ensures Valid(Create(c, t, nb, offset, dry).table)
    ensures Create(c, t, nb, offset, dry).error != Some(IntegrityError)
  {
    var used := Used(t.rows);
    FreeIsExact(c.pool.base, c.pool.count, used);
    var o := Create(c, t, nb, offset, dry);
    forall i | i in t.rows
      ensures !Ends(t.rows[i], c.local, nb.localIf) && !Ends(t.rows[i], nb.remote.value.id, nb.remotePort)
      ensures t.rows[i].net.Some? ==> t.rows[i].net.value in used
    {
      assert i !in Matches(t.rows, c, nb);
    }
  }

  /** Both commits of one loop turn, the delete and the insert, leave a valid table. */
  lemma StepKeepsValid(c: Call, t: Table, nb: Neighbor, idx: nat, dry: bool)
    requires Valid(t)
    ensures Valid(Step(c, t, nb, idx, dry).table)
    ensures nb.remote.Some? ==> Valid(t.(rows := t.rows - Matches(t.rows, c, nb)))
    ensures !dry ==> Step(c, t, nb, idx, dry).error != Some(IntegrityError)
  {
    if nb.remote.Some? {
      var cleared := t.(rows := t.rows - Matches(t.rows, c, nb));
      assert Valid(cleared);
      if nb.redundant.Some? && !dry {
        assert forall i :: i in cleared.rows ==> i !in Matches(t.rows, c, nb);
        assert Matches(cleared.rows, c, nb) == {};
        CreateKeepsValid(c, cleared, nb, idx, dry);
        if Matches(t.rows, c, nb) == {} { assert cleared == t; }
      }
    }
  }

  /** The local end lies on row i and the neighbour's end on row j. */
  ghost predicate EndsOn(t: Table, c: Call, nb: Neighbor, i: nat, j: nat)
    requires nb.remote.Some?
  {
    && i in t.rows && j in t.rows
    && Ends(t.rows[i], c.local, nb.localIf) && Ends(t.rows[j], nb.remote.value.id, nb.remotePort)
  }

  /** The lookup raises exactly when the two ends are in use by two different links. */
  lemma LookupFailsIff(c: Call, t: Table, nb: Neighbor, idx: nat, dry: bool)
    requires Valid(t) && Accepted(c, nb) && nb.redundant.Some?
    ensures Step(c, t, nb, idx, dry).error == Some(MultipleResultsFound)
            <==> exists i, j :: i != j && EndsOn(t, c, nb, i, j)
  {
    var m := Matches(t.rows, c, nb);
    if i, j :| i != j && EndsOn(t, c, nb, i, j) {
      assert i in m && j in m;
    } else if m != {} {
      var i :| i in m;
      forall j | j in m ensures j == i {
        assert !EndsOn(t, c, nb, i, j) || i == j;
        assert !EndsOn(t, c, nb, j, i) || i == j;
      }
      assert m == {i};
    }
  }

  lemma {:induction false} UpdateKeepsValid(c: Call, t: Table, nbs: seq<Neighbor>, idx: nat, dry: bool)
    requires Valid(t)
    ensures Valid(Update(c, t, nbs, idx, dry).table)
    ensures !dry ==> Update(c, t, nbs, idx, dry).error != Some(IntegrityError)
    decreases nbs
  {
    if nbs != [] {
      StepKeepsValid(c, t, nbs[0], idx, dry);
      if Step(c, t, nbs[0], idx, dry).error == None {
        UpdateKeepsValid(c, Step(c, t, nbs[0], idx, dry).table, nbs[1..], idx + 1, dry);
      }
    }
  }
}
