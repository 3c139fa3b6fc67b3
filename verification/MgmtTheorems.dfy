/** No two devices get the same primary management address; a committed secondary one is handed out again. */
module MgmtTheorems {
  import opened Common
  import opened MgmtAddresses

  datatype Step =
    | Reserve(d: DeviceId, domain: Mgmtdomain, now: int, stamp: int)
    | ReserveFabric(d: DeviceId, mgmtLo: Net, infraLo: Net, now: int, stamp: int)
    | Commit(d: DeviceId)
    | RollBack(d: DeviceId)
    | Abandon(d: DeviceId)
    | Delete(d: DeviceId)

  /** No other initialization in progress has a reservation that is old enough to be cleaned. */
  ghost predicate NoneInProgressExpires(s: State, now: int) {
    forall k :: k in s.rows && k.0 in s.picks ==> s.rows[k].lastSeen >= now - EXPIRY
  }

  /** One initialization per device at a time. */
  ghost predicate Enabled(s: State, step: Step) {
    match step
    case Reserve(d, m, now, _) => ValidDomain(m) && d !in s.picks && NoneInProgressExpires(s, now)
    case ReserveFabric(d, a, b, now, _) => ValidNet(a) && ValidNet(b) && d !in s.picks && NoneInProgressExpires(s, now)
    case Delete(d) => true
    case _ => step.d in s.picks
  }

  ghost function Apply(c: Config, s: State, step: Step): State
    requires Enabled(s, step)
  {
    match step
    case Reserve(d, m, now, stamp) => ApplyReserve(c, s, d, m, now, stamp)
    case ReserveFabric(d, a, b, now, stamp) => ApplyReserveFabric(s, d, a, b, now, stamp)
    case Commit(d) => ApplyCommit(s, d)
    case RollBack(d) => ApplyRollBack(s, d)
    case Abandon(d) => ApplyAbandon(s, d)
    case Delete(d) => ApplyDelete(s, d)
  }

  ghost predicate Legal(c: Config, s: State, steps: seq<Step>)
    decreases |steps|
  {
    steps == [] || (Enabled(s, steps[0]) && Legal(c, Apply(c, s, steps[0]), steps[1..]))
  }

  ghost function Run(c: Config, s: State, steps: seq<Step>): State
    requires Legal(c, s, steps)
    decreases |steps|
  {
    if steps == [] then s else Run(c, Apply(c, s, steps[0]), steps[1..])
  }

  // ------------------------------------------------------------------------ invariant

  ghost predicate AddressesDistinct(mgmtIp: map<DeviceId, IP>) {
    forall d, e :: d in mgmtIp && e in mgmtIp && d != e ==> mgmtIp[d] != mgmtIp[e]
  }

  ghost predicate RowsDistinct(rows: map<(DeviceId, Version), Row>) {
    forall k, l :: k in rows && l in rows && k.0 != l.0 ==> rows[k].ip != rows[l].ip
  }

  ghost predicate RowsApart(mgmtIp: map<DeviceId, IP>, rows: map<(DeviceId, Version), Row>) {
    forall d, k :: d in mgmtIp && k in rows && d != k.0 ==> mgmtIp[d] != rows[k].ip
  }

  ghost predicate PicksReserved(picks: map<DeviceId, Pick>, rows: map<(DeviceId, Version), Row>) {
    forall d :: d in picks ==>
                  (d, picks[d].primary.version) in rows && rows[(d, picks[d].primary.version)].ip == picks[d].primary
  }

  ghost predicate Inv(s: State) {
    && AddressesDistinct(s.mgmtIp) && AddressesDistinct(s.infraIp)
    && RowsDistinct(s.rows) && RowsApart(s.mgmtIp, s.rows) && PicksReserved(s.picks, s.rows)
  }

  lemma CleaningKeepsInv(s: State, d: DeviceId, now: int)
    requires Inv(s) && d !in s.picks && NoneInProgressExpires(s, now)
    ensures Inv(s.(rows := Clean(s.rows, Some(d), now)))
    ensures forall v :: (d, v) !in Clean(s.rows, Some(d), now)
  {
  }

  lemma UntakenIsFree(s: State, p: IP)
    requires p !in TakenIps(s.mgmtIp, s.rows)
    ensures forall e :: e in s.mgmtIp ==> s.mgmtIp[e] != p
    ensures forall k :: k in s.rows ==> s.rows[k].ip != p
  {
    forall e | e in s.mgmtIp ensures s.mgmtIp[e] != p {
      assert s.mgmtIp[e] in TakenIps(s.mgmtIp, s.rows);
    }
    forall k | k in s.rows ensures s.rows[k].ip != p {
      assert s.rows[k].ip in TakenIps(s.mgmtIp, s.rows);
    }
  }

  /** An untaken address can be reserved for a device that has no such row. */
  lemma ReservingKeepsInv(s: State, d: DeviceId, p: IP, stamp: int)
    requires Inv(s) && p !in TakenIps(s.mgmtIp, s.rows) && (d, p.version) !in s.rows
    ensures Inv(s.(rows := s.rows[(d, p.version) := Row(p, stamp)]))
  {
    UntakenIsFree(s, p);
  }

  lemma PickingKeepsInv(s: State, d: DeviceId, pick: Pick)
    requires Inv(s) && (d, pick.primary.version) in s.rows && s.rows[(d, pick.primary.version)].ip == pick.primary
    ensures Inv(s.(picks := s.picks[d := pick]))
  {
  }

  lemma FreeVersion(c: Config, m: Mgmtdomain, v: Version, taken: set<IP>)
    requires ValidDomain(m)
    ensures var p := FindFreeMgmtIp(c, m, v, taken); p.Some? ==> p.value.version == v && p.value !in taken
  {
  }

  lemma ReserveKeepsInv(c: Config, s: State, d: DeviceId, m: Mgmtdomain, now: int, stamp: int)
    requires Inv(s) && Enabled(s, Reserve(d, m, now, stamp))
    ensures Inv(ApplyReserve(c, s, d, m, now, stamp))
  {
    CleaningKeepsInv(s, d, now);
    var s0 := s.(rows := Clean(s.rows, Some(d), now));
    var p := FindFreeMgmtIp(c, m, c.primary, TakenIps(s.mgmtIp, s0.rows));
    FreeVersion(c, m, c.primary, TakenIps(s.mgmtIp, s0.rows));
    if p.Some? {
      ReservingKeepsInv(s0, d, p.value, stamp);
      var s1 := s0.(rows := s0.rows[(d, p.value.version) := Row(p.value, stamp)]);
      if m.v4.None? || m.v6.None? {
        PickingKeepsInv(s1, d, Pick(p.value, None));
      } else {
        var q := FindFreeMgmtIp(c, m, Other(c.primary), TakenIps(s.mgmtIp, s1.rows));
        FreeVersion(c, m, Other(c.primary), TakenIps(s.mgmtIp, s1.rows));
        if q.Some? {
          ReservingKeepsInv(s1, d, q.value, stamp);
          PickingKeepsInv(s1.(rows := s1.rows[(d, q.value.version) := Row(q.value, stamp)]), d, Pick(p.value, q));
        }
      }
    }
  }

  lemma InfraKeepsInv(s: State, d: DeviceId, infra: Option<IP>)
    requires Inv(s) && (infra.Some? ==> infra.value !in set e | e in s.infraIp :: s.infraIp[e])
    ensures Inv(s.(infraIp := match infra case Some(i) => s.infraIp[d := i] case None => s.infraIp - {d}))
  {
    var used := set e | e in s.infraIp :: s.infraIp[e];
    forall e | e in s.infraIp ensures s.infraIp[e] in used {}
  }

  lemma ReserveFabricKeepsInv(s: State, d: DeviceId, a: Net, b: Net, now: int, stamp: int)
    requires Inv(s) && Enabled(s, ReserveFabric(d, a, b, now, stamp))
    ensures Inv(ApplyReserveFabric(s, d, a, b, now, stamp))
  {
    CleaningKeepsInv(s, d, now);
    var s0 := s.(rows := Clean(s.rows, Some(d), now));
    var p := FirstFree(V4, a.address, a.address + Size(a), TakenIps(s.mgmtIp, s0.rows));
    if p.Some? {
      ReservingKeepsInv(s0, d, p.value, stamp);
      var s1 := s0.(rows := s0.rows[(d, V4) := Row(p.value, stamp)]);
      PickingKeepsInv(s1, d, Pick(p.value, None));
      InfraKeepsInv(s1.(picks := s.picks[d := Pick(p.value, None)]), d,
                    FirstFree(V4, b.address, b.address + Size(b), set e | e in s.infraIp :: s.infraIp[e]));
    }
  }

  lemma CommitKeepsInv(s: State, d: DeviceId)
    requires Inv(s) && d in s.picks
    ensures Inv(ApplyCommit(s, d))
  {
    var k := (d, s.picks[d].primary.version);
    assert s.rows[k].ip == s.picks[d].primary;
  }

  lemma StepKeepsInv(c: Config, s: State, step: Step)
    requires Inv(s) && Enabled(s, step)
    ensures Inv(Apply(c, s, step))
  {
    match step
    case Reserve(d, m, now, stamp) => ReserveKeepsInv(c, s, d, m, now, stamp);
    case ReserveFabric(d, a, b, now, stamp) => ReserveFabricKeepsInv(s, d, a, b, now, stamp);
    case Commit(d) => CommitKeepsInv(s, d);
    case RollBack(_) =>
    case Abandon(_) =>
    case Delete(_) =>
  }

  const EMPTY := State(map[], map[], map[], map[], map[])

  lemma {:induction false} InvAlongRun(c: Config, s: State, steps: seq<Step>)
    requires Inv(s) && Legal(c, s, steps)
    ensures Inv(Run(c, s, steps))
    decreases |steps|
  {
    if steps != [] {
      StepKeepsInv(c, s, steps[0]);
      InvAlongRun(c, Apply(c, s, steps[0]), steps[1..]);
    }
  }

  /** The device has the address as its management address, in a reservation, or as the pick of its running job. */
  ghost predicate Holds(s: State, d: DeviceId, ip: IP) {
    || (d in s.mgmtIp && s.mgmtIp[d] == ip)
    || (exists v :: (d, v) in s.rows && s.rows[(d, v)].ip == ip)
    || (d in s.picks && s.picks[d].primary == ip)
  }

  /** In every reachable state an address has one holder. */
  lemma OneHolder(c: Config, steps: seq<Step>, d: DeviceId, e: DeviceId, ip: IP)
    requires Legal(c, EMPTY, steps)
    requires Holds(Run(c, EMPTY, steps), d, ip) && Holds(Run(c, EMPTY, steps), e, ip)
    ensures d == e
  {
    InvAlongRun(c, EMPTY, steps);
    var s := Run(c, EMPTY, steps);
    if d in s.picks && s.picks[d].primary == ip { assert s.rows[(d, ip.version)].ip == ip; }
    if e in s.picks && s.picks[e].primary == ip { assert s.rows[(e, ip.version)].ip == ip; }
  }

  /** Nor do two devices ever share an infrastructure address. */
  lemma InfraAddressesDiffer(c: Config, steps: seq<Step>, d: DeviceId, e: DeviceId)
    requires Legal(c, EMPTY, steps) && d != e
    requires d in Run(c, EMPTY, steps).infraIp && e in Run(c, EMPTY, steps).infraIp
    ensures Run(c, EMPTY, steps).infraIp[d] != Run(c, EMPTY, steps).infraIp[e]
  {
    InvAlongRun(c, EMPTY, steps);
  }

  // ------------------------------------------------------------- the secondary address

  /** Addresses of the other version do not matter to a search. */
  lemma SameVersionTaken(c: Config, m: Mgmtdomain, v: Version, a: set<IP>, b: set<IP>, p: IP)
    requires ValidDomain(m) && p.version != v && (forall x :: x != p ==> (x in a <==> x in b))
    ensures FindFreeMgmtIp(c, m, v, a) == FindFreeMgmtIp(c, m, v, b)
  {
  }

  lemma ReservedTaken(mgmtIp: map<DeviceId, IP>, rows: map<(DeviceId, Version), Row>, k: (DeviceId, Version), row: Row)
    requires k !in rows
    ensures TakenIps(mgmtIp, rows[k := row]) == TakenIps(mgmtIp, rows) + {row.ip}
  {
    var rows' := rows[k := row];
    assert rows'[k].ip == row.ip;
    forall l | l in rows ensures rows[l].ip in TakenIps(mgmtIp, rows') { assert rows'[l] == rows[l]; }
    forall x | x in TakenIps(mgmtIp, rows') ensures x in TakenIps(mgmtIp, rows) + {row.ip} {
      if d :| d in mgmtIp && mgmtIp[d] == x {
      } else {
        var l :| l in rows' && rows'[l].ip == x;
        assert l != k ==> rows[l].ip == x;
      }
    }
  }

  /** The secondary pick is searched as if only the addresses of other devices were taken. */
  lemma SecondaryPick(c: Config, s: State, d: DeviceId, m: Mgmtdomain, now: int, stamp: int)
    requires ValidDomain(m) && m.v4.Some? && m.v6.Some?
    requires d !in s.picks && d in ApplyReserve(c, s, d, m, now, stamp).picks
    ensures var pick := ApplyReserve(c, s, d, m, now, stamp).picks[d];
            && pick.secondary.Some? && pick.primary.version == c.primary
            && pick.secondary == FindFreeMgmtIp(c, m, Other(c.primary), TakenIps(s.mgmtIp, Clean(s.rows, Some(d), now)))
  {
    var rows := Clean(s.rows, Some(d), now);
    var p := FindFreeMgmtIp(c, m, c.primary, TakenIps(s.mgmtIp, rows)).value;
    FreeVersion(c, m, c.primary, TakenIps(s.mgmtIp, rows));
    ReservedTaken(s.mgmtIp, rows, (d, p.version), Row(p, stamp));
    SameVersionTaken(c, m, Other(c.primary), TakenIps(s.mgmtIp, rows),
                     TakenIps(s.mgmtIp, rows[(d, p.version) := Row(p, stamp)]), p);
  }

  /**
   ip is in the network of its version past the reserved addresses, untaken, and every such
   address below is taken.
   */
  ghost predicate IsNext(c: Config, m: Mgmtdomain, ip: IP, taken: set<IP>)
    requires ValidDomain(m)
  {
    && Gateway(m, ip.version).Some? && ip !in taken
    && PastReserved(Gateway(m, ip.version).value, c.reservedCount, ip.value)
    && forall x: nat :: x < ip.value && PastReserved(Gateway(m, ip.version).value, c.reservedCount, x) ==>
                          IP(ip.version, x) in taken
  }

  lemma PickIsNext(c: Config, m: Mgmtdomain, v: Version, taken: set<IP>, ip: IP)
    requires ValidDomain(m)
    ensures FindFreeMgmtIp(c, m, v, taken) == Some(ip) <==> ip.version == v && IsNext(c, m, ip, taken)
  {
    PickIsLeast(c, m, v, taken);
    FreeVersion(c, m, v, taken);
    var r := FindFreeMgmtIp(c, m, v, taken);
    if ip.version == v && IsNext(c, m, ip, taken) && r.Some? {
      assert r.value == IP(v, r.value.value) && ip == IP(v, ip.value);
    }
  }

  /**
   The secondary address picked for d is one that e already has exactly when, to a search that sees
   management addresses and reservations but no committed secondary address, it is the next free one.
   */
  lemma SecondaryRepeatsIff(c: Config, s: State, d: DeviceId, e: DeviceId, m: Mgmtdomain, now: int, stamp: int)
    requires ValidDomain(m) && m.v4.Some? && m.v6.Some? && e in s.secondaryIp
    requires d !in s.picks && d in ApplyReserve(c, s, d, m, now, stamp).picks
    ensures ApplyReserve(c, s, d, m, now, stamp).picks[d].secondary == Some(s.secondaryIp[e])
            <==> && s.secondaryIp[e].version == Other(c.primary)
                 && IsNext(c, m, s.secondaryIp[e], TakenIps(s.mgmtIp, Clean(s.rows, Some(d), now)))
  {
    SecondaryPick(c, s, d, m, now, stamp);
    PickIsNext(c, m, Other(c.primary), TakenIps(s.mgmtIp, Clean(s.rows, Some(d), now)), s.secondaryIp[e]);
  }

  // ------------------------------------------------------------- what each step does

  ghost predicate SameFor<V>(m: map<DeviceId, V>, m': map<DeviceId, V>, e: DeviceId) {
    (e in m' <==> e in m) && (e in m ==> m'[e] == m[e])
  }

  /** Every step leaves other devices alone, but a new reservation clears those that are more than a day old. */
  lemma StepLeavesOthers(c: Config, s: State, step: Step, e: DeviceId, v: Version)
    requires Enabled(s, step) && e != step.d
    ensures var s' := Apply(c, s, step);
            && SameFor(s.mgmtIp, s'.mgmtIp, e) && SameFor(s.secondaryIp, s'.secondaryIp, e)
            && SameFor(s.infraIp, s'.infraIp, e) && SameFor(s.picks, s'.picks, e)
            && ((e, v) in s'.rows <==>
                  && (e, v) in s.rows
                  && (step.Reserve? || step.ReserveFabric? ==> s.rows[(e, v)].lastSeen >= step.now - 24 * 60 * 60))
            && ((e, v) in s'.rows ==> s'.rows[(e, v)] == s.rows[(e, v)])
  {
    match step
    case Reserve(d, m, now, stamp) => ReserveLeavesOthers(c, s, d, m, now, stamp, e, v);
    case ReserveFabric(_, _, _, _, _) =>
    case Commit(_) =>
    case RollBack(_) =>
    case Abandon(_) =>
    case Delete(_) =>
  }

  lemma ReserveLeavesOthers(c: Config, s: State, d: DeviceId, m: Mgmtdomain, now: int, stamp: int, e: DeviceId,
                            v: Version)
    requires ValidDomain(m) && e != d
    ensures var s' := ApplyReserve(c, s, d, m, now, stamp);
            && s'.mgmtIp == s.mgmtIp && s'.secondaryIp == s.secondaryIp && s'.infraIp == s.infraIp
            && SameFor(s.picks, s'.picks, e)
            && ((e, v) in s'.rows <==> (e, v) in s.rows && s.rows[(e, v)].lastSeen >= now - 24 * 60 * 60)
            && ((e, v) in s'.rows ==> s'.rows[(e, v)] == s.rows[(e, v)])
  {
  }

  /** There is an address to pick. */
  ghost predicate HasNext(c: Config, m: Mgmtdomain, v: Version, taken: set<IP>)
    requires ValidDomain(m)
  {
    exists x: nat :: IsNext(c, m, IP(v, x), taken)
  }

  lemma NextIff(c: Config, m: Mgmtdomain, v: Version, taken: set<IP>)
    requires ValidDomain(m)
    ensures FindFreeMgmtIp(c, m, v, taken).Some? <==> HasNext(c, m, v, taken)
    ensures var r := FindFreeMgmtIp(c, m, v, taken); r.Some? ==> r.value.version == v && IsNext(c, m, r.value, taken)
  {
    FreeVersion(c, m, v, taken);
    var r := FindFreeMgmtIp(c, m, v, taken);
    if r.Some? {
      PickIsNext(c, m, v, taken, r.value);
      assert r.value == IP(v, r.value.value);
    }
    if x: nat :| IsNext(c, m, IP(v, x), taken) { PickIsNext(c, m, v, taken, IP(v, x)); }
  }

  /** The address of the pick for this version is reserved for the device from stamp on. */
  ghost predicate ReservedFor(s: State, d: DeviceId, ip: IP, stamp: int) {
    (d, ip.version) in s.rows && s.rows[(d, ip.version)] == Row(ip, stamp)
  }

  /**
   A reservation succeeds exactly when the primary network has a free address and in a dual-stack domain
   the secondary one too; both are then reserved, and otherwise the device has no reservation at all.
   */
  lemma ReserveGives(c: Config, s: State, d: DeviceId, m: Mgmtdomain, now: int, stamp: int)
    requires ValidDomain(m) && d !in s.picks
    ensures var s' := ApplyReserve(c, s, d, m, now, stamp);
            var taken, other := TakenIps(s.mgmtIp, Clean(s.rows, Some(d), now)), if c.primary == V4 then V6 else V4;
            var dual := m.v4.Some? && m.v6.Some?;
            && (d in s'.picks <==> HasNext(c, m, c.primary, taken) && (dual ==> HasNext(c, m, other, taken)))
            && (d in s'.picks ==>
                  && s'.picks[d].primary.version == c.primary && IsNext(c, m, s'.picks[d].primary, taken)
                  && ReservedFor(s', d, s'.picks[d].primary, stamp)
                  && (s'.picks[d].secondary.Some? <==> dual) && ((d, other) in s'.rows <==> dual)
                  && (dual ==>
                        && s'.picks[d].secondary.value.version == other
                        && IsNext(c, m, s'.picks[d].secondary.value, taken)
                        && ReservedFor(s', d, s'.picks[d].secondary.value, stamp)))
            && (d !in s'.picks ==> forall v :: (d, v) !in s'.rows)
  {
    var rows := Clean(s.rows, Some(d), now);
    var taken := TakenIps(s.mgmtIp, rows);
    var p := FindFreeMgmtIp(c, m, c.primary, taken);
    NextIff(c, m, c.primary, taken);
    NextIff(c, m, Other(c.primary), taken);
    if p.Some? {
      ReservedTaken(s.mgmtIp, rows, (d, p.value.version), Row(p.value, stamp));
      SameVersionTaken(c, m, Other(c.primary), taken,
                       TakenIps(s.mgmtIp, rows[(d, p.value.version) := Row(p.value, stamp)]), p.value);
    }
  }

  /** ip is the least address of the network that is not taken. */
  ghost predicate IsLeast(n: Net, ip: IP, taken: set<IP>)
    requires ValidNet(n)
  {
    && ip.version == V4 && n.address <= ip.value < n.address + Size(n) && ip !in taken
    && forall x: nat :: n.address <= x < ip.value ==> IP(V4, x) in taken
  }

  ghost predicate AllTaken(n: Net, taken: set<IP>)
    requires ValidNet(n)
  {
    forall x: nat :: n.address <= x < n.address + Size(n) ==> IP(V4, x) in taken
  }

  /** A fabric device is given the least free loopback address, and with it the least free infrastructure address. */
  lemma ReserveFabricGives(s: State, d: DeviceId, mgmtLo: Net, infraLo: Net, now: int, stamp: int)
    requires ValidNet(mgmtLo) && ValidNet(infraLo) && d !in s.picks
    ensures var s' := ApplyReserveFabric(s, d, mgmtLo, infraLo, now, stamp);
            var taken, infra := TakenIps(s.mgmtIp, Clean(s.rows, Some(d), now)), set e | e in s.infraIp :: s.infraIp[e];
            && (d in s'.picks <==> !AllTaken(mgmtLo, taken))
            && (d in s'.picks ==>
                  && IsLeast(mgmtLo, s'.picks[d].primary, taken) && s'.picks[d].secondary == None
                  && ReservedFor(s', d, s'.picks[d].primary, stamp)
                  && (d in s'.infraIp <==> !AllTaken(infraLo, infra))
                  && (d in s'.infraIp ==> IsLeast(infraLo, s'.infraIp[d], infra)))
            && (d !in s'.picks ==> SameFor(s.infraIp, s'.infraIp, d) && forall v :: (d, v) !in s'.rows)
  {
  }

  /** What a device ends up with: its pick on a commit, and in every case no reservation unless the job just dies. */
  lemma EndGives(c: Config, s: State, step: Step)
    requires Enabled(s, step) && (step.Commit? || step.RollBack? || step.Abandon? || step.Delete?)
    ensures var s', d := Apply(c, s, step), step.d;
            && d !in s'.picks
            && (step.Commit? ==>
                  && d in s'.mgmtIp && s'.mgmtIp[d] == s.picks[d].primary && SameFor(s.infraIp, s'.infraIp, d)
                  && (s.picks[d].secondary.Some? ==>
                        d in s'.secondaryIp && s'.secondaryIp[d] == s.picks[d].secondary.value)
                  && (s.picks[d].secondary.None? ==> SameFor(s.secondaryIp, s'.secondaryIp, d)))
            && (step.RollBack? || step.Abandon? ==>
                  && SameFor(s.mgmtIp, s'.mgmtIp, d) && SameFor(s.secondaryIp, s'.secondaryIp, d)
                  && SameFor(s.infraIp, s'.infraIp, d))
            && (step.Delete? ==> d !in s'.mgmtIp && d !in s'.secondaryIp && d !in s'.infraIp)
            && (if step.Abandon? then s'.rows == s.rows else forall v :: (d, v) !in s'.rows)
  {
  }

  // ------------------------------------------------------------- one run that repeats it

  const CONFIG := Config(V4, 5)

  /** 10.0.0.0/24 and fd00::/64. */
  const DUAL_STACK := Mgmtdomain(
                        Some(Net(V4, 0x0A00_0000, 24)),
                        Some(Net(V6, 0xFD00_0000_0000_0000_0000_0000_0000_0000, 64)))

  const FIRST_V4 := IP(V4, 0x0A00_0006)
  const SECOND_V4 := IP(V4, 0x0A00_0007)
  const FIRST_V6 := IP(V6, 0xFD00_0000_0000_0000_0000_0000_0000_0006)

  const SECOND_INIT: seq<Step> := [Reserve(2, DUAL_STACK, 0, 0)] + ([Commit(2)] + [])
  const TWO_INITS: seq<Step> := [Reserve(1, DUAL_STACK, 0, 0)] + ([Commit(1)] + SECOND_INIT)

  lemma {:induction false} SizeGrows(n: nat)
    ensures Pow2(n) >= n + 1
  {
    if n > 0 { SizeGrows(n - 1); }
  }

  /** The search over a network of 64 bits or more of hosts when at most the first candidate is taken. */
  lemma FirstPicks(v: Version, taken: set<IP>)
    requires v == V4 ==> SECOND_V4 !in taken
    requires v == V6 ==> FIRST_V6 !in taken
    ensures v == V4 ==>
              FindFreeMgmtIp(CONFIG, DUAL_STACK, v, taken) == Some(if FIRST_V4 in taken then SECOND_V4 else FIRST_V4)
    ensures v == V6 ==> FindFreeMgmtIp(CONFIG, DUAL_STACK, v, taken) == Some(FIRST_V6)
  {
    SizeGrows(8);
    SizeGrows(64);
    var n := Gateway(DUAL_STACK, v).value;
    assert Size(n) == if v == V4 then Pow2(8) else Pow2(64);
    var (lo, hi) := Hosts(n);
    assert lo == n.address + 1 && hi >= lo + 7;
  }

  lemma Prepend(c: Config, s: State, a: Step, rest: seq<Step>)
    requires Enabled(s, a) && Legal(c, Apply(c, s, a), rest)
    ensures Legal(c, s, [a] + rest) && Run(c, s, [a] + rest) == Run(c, Apply(c, s, a), rest)
  {
    assert ([a] + rest)[0] == a && ([a] + rest)[1..] == rest;
  }

  /** Reserving and committing at once, then going on. */
  lemma PrependInit(c: Config, s: State, d: DeviceId, m: Mgmtdomain, s1: State, s2: State, rest: seq<Step>)
    requires Enabled(s, Reserve(d, m, 0, 0)) && s1 == ApplyReserve(c, s, d, m, 0, 0)
    requires d in s1.picks && s2 == ApplyCommit(s1, d) && Legal(c, s2, rest)
    ensures Legal(c, s, [Reserve(d, m, 0, 0)] + ([Commit(d)] + rest))
    ensures Run(c, s, [Reserve(d, m, 0, 0)] + ([Commit(d)] + rest)) == Run(c, s2, rest)
  {
    Prepend(c, s1, Commit(d), rest);
    Prepend(c, s, Reserve(d, m, 0, 0), [Commit(d)] + rest);
  }

  const NO_IPS: map<DeviceId, IP> := map[]
  const NO_ROWS: map<(DeviceId, Version), Row> := map[]
  const NO_PICKS: map<DeviceId, Pick> := map[]

  /** One initialization of a device when only d before it has addresses. */
  lemma Initialization(s: State, d: DeviceId, p: IP)
    requires s.rows == NO_ROWS && s.picks == NO_PICKS && ValidDomain(DUAL_STACK)
    requires SECOND_V4 !in TakenIps(s.mgmtIp, NO_ROWS) && FIRST_V6 !in TakenIps(s.mgmtIp, NO_ROWS)
    requires p == if FIRST_V4 in TakenIps(s.mgmtIp, NO_ROWS) then SECOND_V4 else FIRST_V4
    ensures var reserved := ApplyReserve(CONFIG, s, d, DUAL_STACK, 0, 0);
            && reserved.picks == NO_PICKS[d := Pick(p, Some(FIRST_V6))]
            && ApplyCommit(reserved, d)
               == s.(mgmtIp := s.mgmtIp[d := p], secondaryIp := s.secondaryIp[d := FIRST_V6])
  {
    var taken := TakenIps(s.mgmtIp, NO_ROWS);
    assert Clean(s.rows, Some(d), 0) == NO_ROWS;
    FirstPicks(V4, taken);
    FirstPicks(V6, taken);
    var one := NO_ROWS[(d, V4) := Row(p, 0)];
    ReservedTaken(s.mgmtIp, NO_ROWS, (d, V4), Row(p, 0));
    SameVersionTaken(CONFIG, DUAL_STACK, V6, taken, TakenIps(s.mgmtIp, one), p);
    var reserved := ApplyReserve(CONFIG, s, d, DUAL_STACK, 0, 0);
    assert reserved.rows == one[(d, V6) := Row(FIRST_V6, 0)];
    assert WithoutRows(reserved.rows, d) == NO_ROWS;
    assert NO_PICKS[d := Pick(p, Some(FIRST_V6))] - {d} == NO_PICKS;
  }

  lemma FirstDone() returns (reserved: State, done: State)
    ensures ValidDomain(DUAL_STACK) && reserved == ApplyReserve(CONFIG, EMPTY, 1, DUAL_STACK, 0, 0)
    ensures 1 in reserved.picks && done == ApplyCommit(reserved, 1)
    ensures done == EMPTY.(mgmtIp := map[1 := FIRST_V4], secondaryIp := map[1 := FIRST_V6])
  {
    reserved := ApplyReserve(CONFIG, EMPTY, 1, DUAL_STACK, 0, 0);
    assert TakenIps(NO_IPS, NO_ROWS) == {};
    Initialization(EMPTY, 1, FIRST_V4);
    assert NO_IPS[1 := FIRST_V4] == map[1 := FIRST_V4] && NO_IPS[1 := FIRST_V6] == map[1 := FIRST_V6];
    done := ApplyCommit(reserved, 1);
  }

  lemma SecondDone(s: State) returns (reserved: State, done: State)
    requires s == EMPTY.(mgmtIp := map[1 := FIRST_V4], secondaryIp := map[1 := FIRST_V6])
    ensures ValidDomain(DUAL_STACK) && reserved == ApplyReserve(CONFIG, s, 2, DUAL_STACK, 0, 0)
    ensures 2 in reserved.picks && done == ApplyCommit(reserved, 2)
    ensures done.mgmtIp == map[1 := FIRST_V4, 2 := SECOND_V4] && done.secondaryIp == map[1 := FIRST_V6, 2 := FIRST_V6]
  {
    reserved := ApplyReserve(CONFIG, s, 2, DUAL_STACK, 0, 0);
    assert s.mgmtIp[1] == FIRST_V4 && TakenIps(s.mgmtIp, NO_ROWS) == {FIRST_V4};
    Initialization(s, 2, SECOND_V4);
    assert s.mgmtIp[2 := SECOND_V4] == map[1 := FIRST_V4, 2 := SECOND_V4];
    assert s.secondaryIp[2 := FIRST_V6] == map[1 := FIRST_V6, 2 := FIRST_V6];
    done := ApplyCommit(reserved, 2);
  }

  /** Two devices initialized one after the other have different primary and the same secondary address. */
  lemma TwoInitsShareSecondary()
    ensures Legal(CONFIG, EMPTY, TWO_INITS)
    ensures var s := Run(CONFIG, EMPTY, TWO_INITS);
            && s.mgmtIp == map[1 := FIRST_V4, 2 := SECOND_V4] && s.secondaryIp == map[1 := FIRST_V6, 2 := FIRST_V6]
  {
    var s1, s2 := FirstDone();
    var s3, s4 := SecondDone(s2);
    PrependInit(CONFIG, s2, 2, DUAL_STACK, s3, s4, []);
    PrependInit(CONFIG, EMPTY, 1, DUAL_STACK, s1, s2, SECOND_INIT);
  }
}
