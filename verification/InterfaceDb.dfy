/** Bringing the interface rows of one device in line with the interfaces it reports. */
module InterfaceDb {
  import opened Common

  datatype ConfigType =
    | UNKNOWN | UNMANAGED | CONFIGFILE | CUSTOM | TEMPLATE | MLAG_PEER
    | ACCESS_AUTO | ACCESS_UNTAGGED | ACCESS_TAGGED | ACCESS_UPLINK | ACCESS_DOWNLINK

  /** The JSON column: what this code writes, or anything else. */
  datatype Data = NoData | Neighbor(hostname: string) | NeighborId(id: int) | OtherData(json: string)

  datatype Row = Row(configtype: ConfigType, data: Data)

  type Rows = map<string, Row>

  datatype UpdateError = NoPhysicalInterfaces

  /** What the device and its links look like: physical interfaces, uplinks and MLAG peer links. */
  datatype Seen = Seen(physical: seq<string>, uplinks: map<string, string>, mlagIfs: map<string, int>)

  predicate Distinct(names: seq<string>) { forall i, j :: 0 <= i < j < |names| ==> names[i] != names[j] }

  predicate Protected(t: ConfigType) { t == ACCESS_UPLINK || t == MLAG_PEER }

  /** An uplink wins over an MLAG link; any other interface becomes ACCESS_AUTO with the data it had. */
  function Classified(rows: Rows, seen: Seen, name: string): Row {
    if name in seen.uplinks then Row(ACCESS_UPLINK, Neighbor(seen.uplinks[name]))
    else if name in seen.mlagIfs then Row(MLAG_PEER, NeighborId(seen.mlagIfs[name]))
    else Row(ACCESS_AUTO, if name in rows then rows[name].data else NoData)
  }

  predicate Writes(rows: Rows, replace: bool, name: string) { replace || name !in rows }

  /** The table after a run: the physical interfaces and the protected rows. */
  function Updated(rows: Rows, seen: Seen, replace: bool): Rows {
    map n | n in (set p | p in seen.physical) + rows.Keys && (n in seen.physical || Protected(rows[n].configtype))
      :: if n in seen.physical && Writes(rows, replace, n) then Classified(rows, seen, n) else rows[n]
  }

  /** The rows written, in the order the device lists them. */
  function Written(rows: Rows, seen: Seen, replace: bool, names: seq<string>): seq<(string, Row)> {
    if names == [] then []
    else
      var last := names[|names| - 1];
      Written(rows, seen, replace, names[..|names| - 1])
      + (if Writes(rows, replace, last) then [(last, Classified(rows, seen, last))] else [])
  }

  /** The table when the names in done have been handled and nothing has been removed yet. */
  ghost function Partly(rows: Rows, seen: Seen, replace: bool, done: set<string>): Rows {
    map n | n in rows.Keys + done ::
      if n in done && Writes(rows, replace, n) then Classified(rows, seen, n) else rows[n]
  }

  lemma NextWritten(rows: Rows, seen: Seen, replace: bool, names: seq<string>, i: nat)
    requires i < |names|
    ensures Written(rows, seen, replace, names[..i + 1])
            == Written(rows, seen, replace, names[..i])
               + (if Writes(rows, replace, names[i]) then [(names[i], Classified(rows, seen, names[i]))] else [])
  {
    assert names[..i + 1][..i] == names[..i];
  }

  lemma NextName(rows: Rows, seen: Seen, replace: bool, done: set<string>, names: seq<string>, i: nat)
    requires Distinct(names) && i < |names| && forall n :: n in done <==> n in names[..i]
    ensures names[i] !in done && forall n :: n in done + {names[i]} <==> n in names[..i + 1]
    ensures var name, before := names[i], Partly(rows, seen, replace, done);
            && (name in before <==> name in rows) && (name in rows ==> before[name] == rows[name])
            && Partly(rows, seen, replace, done + {name})
               == (if Writes(rows, replace, name) then before[name := Classified(rows, seen, name)] else before)
  {
    assert names[..i + 1] == names[..i] + [names[i]];
  }

  lemma PartlyToUpdated(rows: Rows, seen: Seen, replace: bool, done: set<string>, result: Rows)
    requires forall n :: n in done <==> n in seen.physical
    requires var all := Partly(rows, seen, replace, done);
             result == all - set n | n in rows.Keys - done && !Protected(all[n].configtype)
    ensures result == Updated(rows, seen, replace)
  {
  }

  class InterfaceTable {
    var rows: Rows

    constructor (initial: Rows)
      ensures rows == initial
    {
      rows := initial;
    }

    method UpdateInterfacedbWorker(seen: Seen, replace: bool, deleteAll: bool)
      returns (r: Result<seq<(string, Row)>, UpdateError>)
      requires Distinct(seen.physical)
      modifies this
      ensures deleteAll ==> rows == map[] && r == Ok([])
      ensures !deleteAll && seen.physical == [] ==> rows == old(rows) && r == Err(NoPhysicalInterfaces)
      ensures !deleteAll && seen.physical != [] ==>
                rows == Updated(old(rows), seen, replace) && r == Ok(Written(old(rows), seen, replace, seen.physical))
    {
      if deleteAll {
        DeleteRows(rows.Keys);
        return Ok([]);
      }
      var unmatched := rows.Keys;
      if seen.physical == [] { return Err(NoPhysicalInterfaces); }
      ghost var start := rows;
      ghost var done: set<string> := {};
      var names, ret := seen.physical, [];
      assert rows == Partly(start, seen, replace, done);
      for i := 0 to |names|
        invariant forall n :: n in done <==> n in names[..i]
        invariant unmatched == start.Keys - done
        invariant ret == Written(start, seen, replace, names[..i])
        invariant rows == Partly(start, seen, replace, done)
      {
        var name := names[i];
        NextName(start, seen, replace, done, names, i);
        NextWritten(start, seen, replace, names, i);
        done := done + {name};
        var isNew := name !in rows;
        unmatched := unmatched - {name};
        if !isNew && !replace { continue; }
        var row: Row;
        if name in seen.uplinks {
          row := Row(ACCESS_UPLINK, Neighbor(seen.uplinks[name]));
        } else if name in seen.mlagIfs {
          row := Row(MLAG_PEER, NeighborId(seen.mlagIfs[name]));
        } else {
          row := Row(ACCESS_AUTO, if isNew then NoData else rows[name].data);
        }
        rows := rows[name := row];
        ret := ret + [(name, row)];
      }
      assert names[..|names|] == names;
      DeleteRows(set n | n in unmatched && !Protected(rows[n].configtype));
      PartlyToUpdated(start, seen, replace, done, rows);
      return Ok(ret);
    }

    method DeleteRows(names: set<string>)
      modifies this
      ensures rows == old(rows) - names
    {
      var todo := names;
      while todo != {}
        invariant todo <= names
        invariant rows == old(rows) - (names - todo)
        decreases todo
      {
        var n :| n in todo;
        rows, todo := rows - {n}, todo - {n};
      }
      assert names - todo == names;
    }
  }

  // ------------------------------------------------------------------- properties

  /** A second run over the same device changes nothing, and without replace it writes nothing. */
  lemma SecondRunIsIdle(rows: Rows, seen: Seen, replace: bool)
    ensures Updated(Updated(rows, seen, replace), seen, replace) == Updated(rows, seen, replace)
    ensures Written(Updated(rows, seen, replace), seen, false, seen.physical) == []
  {
    var once := Updated(rows, seen, replace);
    forall n | n in once && n in seen.physical && replace
      ensures Classified(once, seen, n) == once[n]
    {
      assert once[n] == Classified(rows, seen, n);
    }
    NothingNew(once, seen, seen.physical);
  }

  lemma {:induction false} NothingNew(rows: Rows, seen: Seen, names: seq<string>)
    requires forall n :: n in names ==> n in rows
    ensures Written(rows, seen, false, names) == []
  {
    if names != [] { NothingNew(rows, seen, names[..|names| - 1]); }
  }

  /** The result lists exactly the physical rows that were written, as they are in the table afterwards. */
  lemma {:induction false} WrittenIff(rows: Rows, seen: Seen, replace: bool, names: seq<string>, n: string, row: Row)
    requires forall m :: m in names ==> m in seen.physical
    ensures (n, row) in Written(rows, seen, replace, names)
            <==> n in names && Writes(rows, replace, n) && Updated(rows, seen, replace)[n] == row
  {
    if names != [] {
      var last := names[|names| - 1];
      WrittenIff(rows, seen, replace, names[..|names| - 1], n, row);
      assert n in names <==> n in names[..|names| - 1] || n == last;
    }
  }

  /**
   The row of a name afterwards: interfaces of the device and protected rows are there; a row that is new,
   or written again with replace, is that of an uplink, else of an MLAG link, else of an access interface
   that keeps its data; any other row is as it was.
   */
  lemma RowAfterwards(rows: Rows, seen: Seen, replace: bool, n: string)
    ensures var after := Updated(rows, seen, replace);
            && (n in after <==>
                  || n in seen.physical
                  || (n in rows && (rows[n].configtype == ACCESS_UPLINK || rows[n].configtype == MLAG_PEER)))
            && (n in after && n in seen.physical && (replace || n !in rows) ==>
                  if n in seen.uplinks then after[n] == Row(ACCESS_UPLINK, Neighbor(seen.uplinks[n]))
                  else if n in seen.mlagIfs then after[n] == Row(MLAG_PEER, NeighborId(seen.mlagIfs[n]))
                  else after[n] == Row(ACCESS_AUTO, if n in rows then rows[n].data else NoData))
            && (n in after && !(n in seen.physical && (replace || n !in rows)) ==> n in rows && after[n] == rows[n])
  {
  }

  /** at lists, in order, the positions of the names the list is made of. */
  ghost predicate ListedAt(names: seq<string>, list: seq<(string, Row)>, at: seq<nat>) {
    && |at| == |list|
    && (forall i, j :: 0 <= i < j < |at| ==> at[i] < at[j])
    && (forall i :: 0 <= i < |at| ==> at[i] < |names| && list[i].0 == names[at[i]])
  }

  lemma ListedLast(names: seq<string>, list: seq<(string, Row)>, at: seq<nat>, row: Row)
    requires names != [] && ListedAt(names[..|names| - 1], list, at)
    ensures ListedAt(names, list, at) && ListedAt(names, list + [(names[|names| - 1], row)], at + [|names| - 1])
  {
  }

  /** The list has the written rows in the order the device lists its interfaces. */
  /** The positions are those of the names that are written. */
  ghost predicate Exactly(rows: Rows, replace: bool, names: seq<string>, at: seq<nat>) {
    forall k: nat :: k < |names| ==> (k in at <==> replace || names[k] !in rows)
  }

  lemma ExactlyLast(rows: Rows, replace: bool, names: seq<string>, at: seq<nat>)
    requires names != [] && Exactly(rows, replace, names[..|names| - 1], at)
    requires forall i :: 0 <= i < |at| ==> at[i] < |names| - 1
    ensures Exactly(rows, replace, names,
                    if replace || names[|names| - 1] !in rows then at + [|names| - 1] else at)
  {
    var last := |names| - 1;
    assert last !in at;
    forall k: nat | k < last ensures k in at <==> replace || names[k] !in rows {
      assert names[..last][k] == names[k];
    }
  }

  /** The list has the written rows in the order the device lists its interfaces. */
  lemma {:induction false} WrittenInOrder(rows: Rows, seen: Seen, replace: bool, names: seq<string>)
    returns (at: seq<nat>)
    ensures ListedAt(names, Written(rows, seen, replace, names), at) && Exactly(rows, replace, names, at)
  {
    at := [];
    if names != [] {
      var last, before := |names| - 1, names[..|names| - 1];
      var front := WrittenInOrder(rows, seen, replace, before);
      ListedLast(names, Written(rows, seen, replace, before), front, Classified(rows, seen, names[last]));
      ExactlyLast(rows, replace, names, front);
      at := if replace || names[last] !in rows then front + [last] else front;
    }
  }

  /** Without replace a row is kept as it is, unless its interface is gone and its type is not protected. */
  lemma WithoutReplaceRowsStay(rows: Rows, seen: Seen, n: string)
    requires n in rows
    ensures if n in seen.physical || Protected(rows[n].configtype)
            then n in Updated(rows, seen, false) && Updated(rows, seen, false)[n] == rows[n]
            else n !in Updated(rows, seen, false)
  {
  }

  /** Protected rows of vanished interfaces are never removed, whatever the device reports later. */
  lemma {:induction false} ProtectedRowsOutlive(rows: Rows, reports: seq<Seen>, replace: bool, n: string)
    requires n in rows && rows[n].configtype in {ACCESS_UPLINK, MLAG_PEER}
    requires forall i :: 0 <= i < |reports| ==> n !in reports[i].physical
    ensures n in AfterAll(rows, reports, replace) && AfterAll(rows, reports, replace)[n] == rows[n]
    decreases |reports|
  {
    if reports != [] { ProtectedRowsOutlive(Updated(rows, reports[0], replace), reports[1..], replace, n); }
  }

  function AfterAll(rows: Rows, reports: seq<Seen>, replace: bool): Rows
    decreases |reports|
  {
    if reports == [] then rows else AfterAll(Updated(rows, reports[0], replace), reports[1..], replace)
  }
}
