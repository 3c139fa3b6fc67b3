/** Choosing, reserving and committing management addresses during device initialization. */
module MgmtAddresses {
  import opened Common

  datatype Version = V4 | V6

  datatype IP = IP(version: Version, value: nat)

  /** A network by its network address. */
  datatype Net = Net(version: Version, address: nat, prefixlen: nat)

  function Bits(v: Version): nat { if v == V4 then 32 else 128 }

  predicate ValidNet(n: Net) { n.prefixlen <= Bits(n.version) }

  function Pow2(n: nat): nat { if n == 0 then 1 else 2 * Pow2(n - 1) }

  function Size(n: Net): nat
    requires ValidNet(n)
  {
    Pow2(Bits(n.version) - n.prefixlen)
  }

  /** First usable address of a network and the end of the usable ones. */
  function Hosts(n: Net): (nat, int)
    requires ValidNet(n)
  {
    var size := Size(n);
    if n.prefixlen + 1 >= Bits(n.version) then (n.address, n.address + size)
    else if n.version == V4 then (n.address + 1, n.address + size - 1)
    else (n.address + 1, n.address + size)
  }

  lemma SizeByPrefix(n: Net)
    requires ValidNet(n)
    ensures n.prefixlen == Bits(n.version) ==> Size(n) == 1
    ensures n.prefixlen + 1 == Bits(n.version) ==> Size(n) == 2
    ensures n.prefixlen + 1 < Bits(n.version) ==> Size(n) >= 4
  {
    assert Pow2(1) == 2 * Pow2(0) && Pow2(0) == 1;
    if n.prefixlen + 1 < Bits(n.version) { AtLeastFour(Bits(n.version) - n.prefixlen); }
  }

  lemma {:induction false} AtLeastFour(n: nat)
    requires n >= 2
    ensures Pow2(n) >= 4
  {
    if n > 2 { AtLeastFour(n - 1); } else { assert Pow2(2) == 2 * Pow2(1) && Pow2(1) == 2 * Pow2(0); }
  }

  /** Both ends of a /31 or /127 are usable; elsewhere the lowest is not, nor the IPv4 broadcast address. */
  ghost predicate Usable(n: Net, x: nat)
    requires ValidNet(n)
  {
    && n.address <= x < n.address + Size(n)
    && (Size(n) > 2 ==> x != n.address && (n.version == V4 ==> x != n.address + Size(n) - 1))
  }

  lemma HostsAreUsable(n: Net, x: nat)
    requires ValidNet(n)
    ensures Usable(n, x) <==> Hosts(n).0 <= x < Hosts(n).1
  {
    SizeByPrefix(n);
  }

  /** The least address in a range that is not taken. */
  function FirstFree(v: Version, lo: nat, hi: int, taken: set<IP>): (r: Option<IP>)
    ensures r.Some? ==> r.value.version == v && lo <= r.value.value < hi && r.value !in taken
                        && forall x :: lo <= x < r.value.value ==> IP(v, x) in taken
    ensures r.None? ==> forall x :: lo <= x < hi ==> IP(v, x) in taken
    decreases hi - lo
  {
    if lo >= hi then None
    else if IP(v, lo) !in taken then Some(IP(v, lo))
    else FirstFree(v, lo + 1, hi, taken)
  }

  // ------------------------------------------------------------------------- state

  type DeviceId = nat

  datatype Row = Row(ip: IP, lastSeen: int)

  /** The addresses an initialization job keeps in its variables between reserving and committing. */
  datatype Pick = Pick(primary: IP, secondary: Option<IP>)

  datatype State = State(
    mgmtIp: map<DeviceId, IP>,
    secondaryIp: map<DeviceId, IP>,
    infraIp: map<DeviceId, IP>,
    rows: map<(DeviceId, Version), Row>,
    picks: map<DeviceId, Pick>)

  datatype Mgmtdomain = Mgmtdomain(v4: Option<Net>, v6: Option<Net>)

  predicate ValidDomain(m: Mgmtdomain) {
    && (m.v4.Some? ==> ValidNet(m.v4.value) && m.v4.value.version == V4)
    && (m.v6.Some? ==> ValidNet(m.v6.value) && m.v6.value.version == V6)
  }

  datatype Config = Config(primary: Version, reservedCount: nat)

  datatype InitError = NoFreeAddress

  const EXPIRY := 86400

  function TakenIps(mgmtIp: map<DeviceId, IP>, rows: map<(DeviceId, Version), Row>): set<IP> {
    (set d | d in mgmtIp :: mgmtIp[d]) + (set k | k in rows :: rows[k].ip)
  }

  function Gateway(m: Mgmtdomain, v: Version): Option<Net> { if v == V4 then m.v4 else m.v6 }

  /** First-fit past the reserved addresses; None also when the domain has no such network. */
  function FindFreeMgmtIp(c: Config, m: Mgmtdomain, v: Version, taken: set<IP>): Option<IP>
    requires ValidDomain(m)
  {
    match Gateway(m, v)
    case None => None
    case Some(n) => var (lo, hi) := Hosts(n); FirstFree(v, lo + c.reservedCount, hi, taken)
  }

  /** x is usable and so are the count addresses below it. */
  ghost predicate PastReserved(n: Net, count: nat, x: nat)
    requires ValidNet(n)
  {
    count <= x && forall y: nat :: x - count <= y <= x ==> Usable(n, y)
  }

  lemma PastReservedIff(n: Net, count: nat, x: nat)
    requires ValidNet(n)
    ensures PastReserved(n, count, x) <==> Hosts(n).0 + count <= x < Hosts(n).1
  {
    forall y: nat ensures Usable(n, y) <==> Hosts(n).0 <= y < Hosts(n).1 { HostsAreUsable(n, y); }
    if count <= x && PastReserved(n, count, x) {
      assert Usable(n, x) && Usable(n, x - count);
    }
  }

  /** The pick is the least untaken usable address past the reserved ones; there is none only if all are taken. */
  lemma PickIsLeast(c: Config, m: Mgmtdomain, v: Version, taken: set<IP>)
    requires ValidDomain(m)
    ensures var (r, gw) := (FindFreeMgmtIp(c, m, v, taken), Gateway(m, v));
            && (r.Some? ==>
                  && gw.Some? && r.value.version == v && r.value !in taken
                  && PastReserved(gw.value, c.reservedCount, r.value.value)
                  && forall x: nat ::
                       PastReserved(gw.value, c.reservedCount, x) && x < r.value.value ==> IP(v, x) in taken)
            && (r.None? <==>
                  gw.Some? ==> forall x: nat :: PastReserved(gw.value, c.reservedCount, x) ==> IP(v, x) in taken)
  {
    var r, gw := FindFreeMgmtIp(c, m, v, taken), Gateway(m, v);
    if gw.Some? {
      forall x: nat
        ensures PastReserved(gw.value, c.reservedCount, x)
                <==> Hosts(gw.value).0 + c.reservedCount <= x < Hosts(gw.value).1
      {
        PastReservedIff(gw.value, c.reservedCount, x);
      }
      if r.Some? { assert PastReserved(gw.value, c.reservedCount, r.value.value); }
    }
  }

  function Other(v: Version): Version { if v == V4 then V6 else V4 }

  function Clean(rows: map<(DeviceId, Version), Row>, d: Option<DeviceId>, now: int): map<(DeviceId, Version), Row> {
    map k | k in rows && d != Some(k.0) && rows[k].lastSeen >= now - EXPIRY :: rows[k]
  }

  function WithoutRows(rows: map<(DeviceId, Version), Row>, d: DeviceId): map<(DeviceId, Version), Row> {
    map k | k in rows && k.0 != d :: rows[k]
  }

  // ------------------------------------------------------------------------- steps

  /** Reserve the primary and, in a dual-stack domain, the secondary address. */
  function ApplyReserve(c: Config, s: State, d: DeviceId, m: Mgmtdomain, now: int, stamp: int): State
    requires ValidDomain(m)
  {
    var rows := Clean(s.rows, Some(d), now);
    match FindFreeMgmtIp(c, m, c.primary, TakenIps(s.mgmtIp, rows))
    case None => s.(rows := rows)
    case Some(p) =>
      var one := rows[(d, p.version) := Row(p, stamp)];
      if m.v4.None? || m.v6.None? then s.(rows := one, picks := s.picks[d := Pick(p, None)])
      else match FindFreeMgmtIp(c, m, Other(c.primary), TakenIps(s.mgmtIp, one))
           case None => s.(rows := rows)
           case Some(q) =>
             s.(rows := one[(d, q.version) := Row(q, stamp)], picks := s.picks[d := Pick(p, Some(q))])
  }

  /** Reserve a loopback management address and take an infrastructure address for a fabric device. */
  function ApplyReserveFabric(s: State, d: DeviceId, mgmtLo: Net, infraLo: Net, now: int, stamp: int): State
    requires ValidNet(mgmtLo) && ValidNet(infraLo)
  {
    var rows := Clean(s.rows, Some(d), now);
    match FirstFree(V4, mgmtLo.address, mgmtLo.address + Size(mgmtLo), TakenIps(s.mgmtIp, rows))
    case None => s.(rows := rows)
    case Some(p) =>
      var infra := FirstFree(V4, infraLo.address, infraLo.address + Size(infraLo),
                             set e | e in s.infraIp :: s.infraIp[e]);
      s.(rows := rows[(d, V4) := Row(p, stamp)],
         picks := s.picks[d := Pick(p, None)],
         infraIp := match infra case Some(i) => s.infraIp[d := i] case None => s.infraIp - {d})
  }

  function ApplyCommit(s: State, d: DeviceId): State
    requires d in s.picks
  {
    s.(mgmtIp := s.mgmtIp[d := s.picks[d].primary],
       secondaryIp := match s.picks[d].secondary case Some(q) => s.secondaryIp[d := q] case None => s.secondaryIp,
       rows := WithoutRows(s.rows, d),
       picks := s.picks - {d})
  }

  function ApplyRollBack(s: State, d: DeviceId): State {
    s.(rows := WithoutRows(s.rows, d), picks := s.picks - {d})
  }

  /** The job dies in between; its reservation stays until it expires or the device is initialized again. */
  function ApplyAbandon(s: State, d: DeviceId): State { s.(picks := s.picks - {d}) }

  function ApplyDelete(s: State, d: DeviceId): State {
    State(s.mgmtIp - {d}, s.secondaryIp - {d}, s.infraIp - {d}, WithoutRows(s.rows, d), s.picks - {d})
  }

  // ---------------------------------------------------------------- the mutable tables

  class AddressTable {
    var mgmtIp: map<DeviceId, IP>
    var secondaryIp: map<DeviceId, IP>
    var infraIp: map<DeviceId, IP>
    var rows: map<(DeviceId, Version), Row>
    var picks: map<DeviceId, Pick>

    ghost function Value(): State
      reads this
    {
      State(mgmtIp, secondaryIp, infraIp, rows, picks)
    }

    constructor ()
      ensures Value() == State(map[], map[], map[], map[], map[])
    {
      mgmtIp, secondaryIp, infraIp, rows, picks := map[], map[], map[], map[], map[];
    }

    method CleanReservations(d: Option<DeviceId>, now: int)
      modifies this
      ensures Value() == old(Value()).(rows := Clean(old(rows), d, now))
    {
      var todo := rows.Keys;
      while todo != {}
        invariant Value() == old(Value()).(rows := rows)
        invariant todo <= rows.Keys <= old(rows).Keys
        invariant forall k :: k in rows ==> rows[k] == old(rows)[k]
        invariant forall k :: k in old(rows) && k !in todo ==> (k in rows <==> k in Clean(old(rows), d, now))
        decreases todo
      {
        var k :| k in todo;
        todo := todo - {k};
        if d.Some? && k.0 == d.value {
          rows := rows - {k};
        } else if rows[k].lastSeen < now - EXPIRY {
          rows := rows - {k};
        }
      }
      assert rows == Clean(old(rows), d, now);
    }

    method DeleteReservations(d: DeviceId)
      modifies this
      ensures Value() == old(Value()).(rows := WithoutRows(old(rows), d))
    {
      var todo := set k | k in rows && k.0 == d;
      while todo != {}
        invariant Value() == old(Value()).(rows := rows)
        invariant todo <= rows.Keys <= old(rows).Keys
        invariant forall k :: k in rows ==> rows[k] == old(rows)[k]
        invariant forall k :: k in todo ==> k.0 == d
        invariant forall k :: k in old(rows) && k !in todo ==> (k in rows <==> k.0 != d)
        decreases todo
      {
        var k :| k in todo;
        todo := todo - {k};
        rows := rows - {k};
      }
      assert rows == WithoutRows(old(rows), d);
    }

    /** The selection and reservation of init_access_device_step1. */
    method Reserve(c: Config, d: DeviceId, m: Mgmtdomain, now: int, stamp: int) returns (r: Result<Pick, InitError>)
      requires ValidDomain(m)
      modifies this
      ensures Value() == ApplyReserve(c, old(Value()), d, m, now, stamp)
      ensures r.Ok? ==> picks == old(picks)[d := r.value]
      ensures r.Err? ==> picks == old(picks) && rows == Clean(old(rows), Some(d), now)
    {
      CleanReservations(Some(d), now);
      var p := FindFreeMgmtIp(c, m, c.primary, TakenIps(mgmtIp, rows));
      if p.None? { return Err(NoFreeAddress); }
      var one := rows[(d, p.value.version) := Row(p.value, stamp)];
      if m.v4.Some? && m.v6.Some? {
        var q := FindFreeMgmtIp(c, m, Other(c.primary), TakenIps(mgmtIp, one));
        if q.None? { return Err(NoFreeAddress); }
        rows := one[(d, q.value.version) := Row(q.value, stamp)];
        r := Ok(Pick(p.value, q));
      } else {
        rows := one;
        r := Ok(Pick(p.value, None));
      }
      picks := picks[d := r.value];
    }

    method FindFreeMgmtLoIp(n: Net) returns (r: Option<IP>)
      requires ValidNet(n)
      ensures r == FirstFree(V4, n.address, n.address + Size(n), TakenIps(mgmtIp, rows))
    {
      var used := set d | d in mgmtIp :: mgmtIp[d];
      var reserved := set k | k in rows :: rows[k].ip;
      for i := 0 to Size(n)
        invariant FirstFree(V4, n.address, n.address + Size(n), used + reserved)
                  == FirstFree(V4, n.address + i, n.address + Size(n), used + reserved)
      {
        var ip := IP(V4, n.address + i);
        if ip in used { continue; }
        if ip in reserved { continue; }
        return Some(ip);
      }
      return None;
    }

    method FindFreeInfraIp(n: Net) returns (r: Option<IP>)
      requires ValidNet(n)
      ensures r == FirstFree(V4, n.address, n.address + Size(n), set e | e in infraIp :: infraIp[e])
    {
      var used := set e | e in infraIp :: infraIp[e];
      for i := 0 to Size(n)
        invariant FirstFree(V4, n.address, n.address + Size(n), used)
                  == FirstFree(V4, n.address + i, n.address + Size(n), used)
      {
        var ip := IP(V4, n.address + i);
        if ip !in used { return Some(ip); }
      }
      return None;
    }

    /** The same part of init_fabric_device_step1. */
    method ReserveFabric(d: DeviceId, mgmtLo: Net, infraLo: Net, now: int, stamp: int)
      returns (r: Result<Pick, InitError>)
      requires ValidNet(mgmtLo) && ValidNet(infraLo)
      modifies this
      ensures Value() == ApplyReserveFabric(old(Value()), d, mgmtLo, infraLo, now, stamp)
      ensures r.Ok? ==> picks == old(picks)[d := r.value]
    {
      CleanReservations(Some(d), now);
      var p := FindFreeMgmtLoIp(mgmtLo);
      var i := FindFreeInfraIp(infraLo);
      if p.None? { return Err(NoFreeAddress); }
      rows := rows[(d, p.value.version) := Row(p.value, stamp)];
      infraIp := match i case Some(ip) => infraIp[d := ip] case None => infraIp - {d};
      r := Ok(Pick(p.value, None));
      picks := picks[d := r.value];
    }

    method CommitToDevice(d: DeviceId)
      requires d in picks
      modifies this
      ensures Value() == ApplyCommit(old(Value()), d)
    {
      mgmtIp := mgmtIp[d := picks[d].primary];
      if picks[d].secondary.Some? { secondaryIp := secondaryIp[d := picks[d].secondary.value]; }
      DeleteReservations(d);
      picks := picks - {d};
    }

    method RollBack(d: DeviceId)
      modifies this
      ensures Value() == ApplyRollBack(old(Value()), d)
    {
      DeleteReservations(d);
      picks := picks - {d};
    }

    method DeleteDevice(d: DeviceId)
      modifies this
      ensures Value() == ApplyDelete(old(Value()), d)
    {
      mgmtIp, secondaryIp, infraIp := mgmtIp - {d}, secondaryIp - {d}, infraIp - {d};
      DeleteReservations(d);
      picks := picks - {d};
    }
  }
}
