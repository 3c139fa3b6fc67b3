/** Runs of the sync protocol that end with a synchronized flag on a rolled back device, or with a row for good. */
module SyncOutliers {
  import opened Common
  import opened Joblock
  import opened SyncFreshness
  import opened SyncProtocol
  import opened SyncCrashes

  lemma {:induction false} Then(s0: State, run: seq<Step>, a: Step)
    requires Legal(s0, run) && Enabled(Exec(s0, run), a)
    ensures Legal(s0, run + [a]) && Exec(s0, run + [a]) == Apply(Exec(s0, run), a)
    decreases |run|
  {
    if run == [] {
      assert run + [a] == [a] && [a][1..] == [];
    } else {
      Then(Apply(s0, run[0]), run[1..], a);
      assert (run + [a])[1..] == run[1..] + [a];
    }
  }

  const WANT: map<Host, Config> := map["h" := "new"]
  const OLD := Device(Eos, "old", map[], false)
  const ARMED := Device(Eos, "new", map[1 := Timer("old", 300)], false)

  /** A state with one EOS device "h" and no row released so far. */
  ghost function At(now: nat, rows: Rows, jobs: map<JobId, Job>, d: Device, grants: multiset<JobId>): State {
    State(now, 300, None, rows, jobs, map["h" := d], grants, multiset{}, map[])
  }

  /** The state after an unconfirmed release of job 1, with job 3 on top. */
  ghost function After(now: nat, rows: Rows, third: map<JobId, Job>, d: Device, grants: multiset<JobId>,
                       released: multiset<JobId>): State {
    State(now, 300, None, rows, map[1 := Owner, 2 := Two(Ended, map["h" := CFailed])] + third,
          map["h" := d], grants, released, map[1 := 0])
  }

  function Push(mode: Mode, p: Phase, t: Task, before: Device): Job {
    Sync(mode, WANT, p, map["h" := t], if p.Waiting? || p.SawFree? then map[] else map["h" := before], None)
  }

  const Owner := Sync(2, WANT, Handover, map["h" := Changed(Armed)], map["h" := OLD], Some(2))

  function Two(p: Phase, tasks: map<Host, ConfirmTask>): Job { Confirm(1, {"h"}, p, tasks) }

  ghost predicate Reaches(s: State) {
    exists s0, run :: Init(s0) && Legal(s0, run) && Exec(s0, run) == s
  }

  lemma Goes(s: State, a: Step, s': State)
    requires Reaches(s) && Enabled(s, a) && Apply(s, a) == s'
    ensures Reaches(s')
  {
    var s0, run :| Init(s0) && Legal(s0, run) && Exec(s0, run) == s;
    Then(s0, run, a);
  }

  lemma Start(mode: Mode)
    ensures Reaches(At(0, map[], map[1 := Push(mode, SawFree(0), Todo, OLD)], OLD, multiset{}))
  {
    var s0 := At(0, map[], map[], OLD, multiset{});
    var s1 := At(0, map[], map[1 := Push(mode, Waiting(0), Todo, OLD)], OLD, multiset{});
    assert Init(s0) && Legal(s0, []) && Exec(s0, []) == s0;
    var a := NewSync(1, Some(mode), WANT);
    assert Apply(s0, a).jobs[1].tasks == map["h" := Todo];
    Goes(s0, a, s1);
    Goes(s1, Query(1), At(0, map[], map[1 := Push(mode, SawFree(0), Todo, OLD)], OLD, multiset{}));
  }

  lemma StartPush(mode: Mode)
    ensures Reaches(At(0, map[1 := DEVICES], map[1 := Push(mode, Running, Todo, OLD)], OLD, multiset{1}))
  {
    Start(mode);
    var s2 := At(0, map[], map[1 := Push(mode, SawFree(0), Todo, OLD)], OLD, multiset{});
    assert ApplyInsert(s2, 1).jobs[1].before == map["h" := OLD];
    Goes(s2, Insert(1), At(0, map[1 := DEVICES], map[1 := Push(mode, Running, Todo, OLD)], OLD, multiset{1}));
  }

  lemma CommitNew(mode: Mode)
    requires mode != 0
    ensures Reaches(At(0, map[1 := DEVICES],
                       map[1 := Push(mode, Running, if mode == 1 then Committing else Verifying, OLD)],
                       ARMED, multiset{1}))
  {
    StartPush(mode);
    var s3 := At(0, map[1 := DEVICES], map[1 := Push(mode, Running, Todo, OLD)], OLD, multiset{1});
    var s4 := ApplyCommit(s3, 1, "h", true);
    assert s4.devices["h"].timers == ARMED.timers;
    assert s4.devices == map["h" := ARMED];
    assert s4.jobs[1].tasks == map["h" := if mode == 1 then Committing else Verifying];
    assert s4.jobs == map[1 := Push(mode, Running, if mode == 1 then Committing else Verifying, OLD)];
    Goes(s3, CommitConfig(1, "h", true), s4);
  }

  lemma TimerFires(d: Device)
    requires d == ARMED.(synchronized := d.synchronized)
    ensures Fires(d, 300, "old") && Advance(d, 300, "old") == OLD.(synchronized := d.synchronized)
  {
    assert Expired(d.timers[1], 300);
    assert Advance(d, 300, "old").timers == map[];
  }

  lemma TimeOut()
    ensures Reaches(At(300, map[1 := DEVICES], map[1 := Push(1, Running, Committing, OLD)], OLD, multiset{1}))
  {
    CommitNew(1);
    var s4 := At(0, map[1 := DEVICES], map[1 := Push(1, Running, Committing, OLD)], ARMED, multiset{1});
    var s5 := At(300, map[1 := DEVICES], map[1 := Push(1, Running, Committing, OLD)], OLD, multiset{1});
    TimerFires(ARMED);
    assert Apply(s4, Tick(300, map["h" := "old"])).devices == s5.devices;
    Goes(s4, Tick(300, map["h" := "old"]), s5);
  }

  lemma Lapse()
    ensures Reaches(At(300, map[1 := DEVICES], map[1 := Push(1, Running, Changed(Lapsed), OLD)], OLD, multiset{1}))
  {
    TimeOut();
    var s5 := At(300, map[1 := DEVICES], map[1 := Push(1, Running, Committing, OLD)], OLD, multiset{1});
    var s6 := ApplyConfirmInTask(s5, 1, "h", true);
    assert s6.jobs[1].tasks == map["h" := Changed(Lapsed)];
    assert s6.jobs == map[1 := Push(1, Running, Changed(Lapsed), OLD)];
    Goes(s5, ConfirmInTask(1, "h", true), s6);
  }

  /** Mode 1: the confirm comes after the deadline; the host is marked but runs the old text. */
  lemma LateConfirmIsMarked() returns (s: State)
    ensures Reaches(s) && s.early == map[]
    ensures s.jobs == map[1 := Push(1, Ended, Changed(Lapsed), OLD)]
    ensures s.devices == map["h" := Device(Eos, "old", map[], true)]
  {
    Lapse();
    var s6 := At(300, map[1 := DEVICES], map[1 := Push(1, Running, Changed(Lapsed), OLD)], OLD, multiset{1});
    assert FailedHosts(s6.jobs[1].tasks) == {} && "h" in ChangedHosts(s6.jobs[1].tasks);
    s := ApplyPushDone(s6, 1);
    assert s.devices == map["h" := Device(Eos, "old", map[], true)];
    assert s.jobs == map[1 := Push(1, Ended, Changed(Lapsed), OLD)];
    Goes(s6, PushDone(1), s);
  }

  lemma Verified()
    ensures Reaches(At(0, map[1 := DEVICES], map[1 := Push(2, Running, Changed(Armed), OLD)], ARMED, multiset{1}))
  {
    CommitNew(2);
    var s4 := At(0, map[1 := DEVICES], map[1 := Push(2, Running, Verifying, OLD)], ARMED, multiset{1});
    var s5 := At(0, map[1 := DEVICES], map[1 := Push(2, Running, Changed(Armed), OLD)], ARMED, multiset{1});
    assert SetTask(s4, 1, "h", Changed(Armed)).jobs[1].tasks == map["h" := Changed(Armed)];
    assert SetTask(s4, 1, "h", Changed(Armed)).jobs == s5.jobs;
    Goes(s4, Reachable(1, "h"), s5);
  }

  lemma Settle()
    ensures Reaches(At(0, map[1 := DEVICES], map[1 := Push(2, Settled, Changed(Armed), OLD)], ARMED, multiset{1}))
  {
    Verified();
    var s5 := At(0, map[1 := DEVICES], map[1 := Push(2, Running, Changed(Armed), OLD)], ARMED, multiset{1});
    var s6 := At(0, map[1 := DEVICES], map[1 := Push(2, Settled, Changed(Armed), OLD)], ARMED, multiset{1});
    assert Mark(s5.devices, UnchangedHosts(s5.jobs[1].tasks), true) == s5.devices;
    Goes(s5, PushDone(1), s6);
  }

  lemma HandOver()
    ensures Reaches(At(0, map[1 := DEVICES], map[1 := Owner, 2 := Two(Waiting(0), map[])], ARMED, multiset{1}))
  {
    Settle();
    var s6 := At(0, map[1 := DEVICES], map[1 := Push(2, Settled, Changed(Armed), OLD)], ARMED, multiset{1});
    var s7 := At(0, map[1 := DEVICES], map[1 := Owner, 2 := Two(Waiting(0), map[])], ARMED, multiset{1});
    assert FailedHosts(s6.jobs[1].tasks) == {};
    assert "h" in ChangedHosts(s6.jobs[1].tasks) && ChangedHosts(s6.jobs[1].tasks) == {"h"};
    assert ApplyConclude(s6, 1, 2).jobs == s7.jobs;
    Goes(s6, Conclude(1, 2), s7);
  }

  lemma ConfirmStarts()
    ensures Reaches(At(0, map[1 := DEVICES], map[1 := Owner, 2 := Two(Running, map["h" := CTodo])], ARMED, multiset{1}))
  {
    HandOver();
    var s7 := At(0, map[1 := DEVICES], map[1 := Owner, 2 := Two(Waiting(0), map[])], ARMED, multiset{1});
    var s8 := At(0, map[1 := DEVICES], map[1 := Owner, 2 := Two(Running, map["h" := CTodo])], ARMED, multiset{1});
    assert Apply(s7, ConfirmStart(2, {"h"})).jobs[2].ctasks == map["h" := CTodo];
    Goes(s7, ConfirmStart(2, {"h"}), s8);
  }

  lemma ConfirmCallFails()
    ensures Reaches(At(0, map[1 := DEVICES], map[1 := Owner, 2 := Two(Running, map["h" := CFailed])],
                       ARMED, multiset{1}))
  {
    ConfirmStarts();
    var s8 := At(0, map[1 := DEVICES], map[1 := Owner, 2 := Two(Running, map["h" := CTodo])], ARMED, multiset{1});
    var s9 := At(0, map[1 := DEVICES], map[1 := Owner, 2 := Two(Running, map["h" := CFailed])], ARMED, multiset{1});
    assert SetCTask(s8, 2, "h", CFailed).jobs[2].ctasks == map["h" := CFailed];
    assert SetCTask(s8, 2, "h", CFailed).jobs == s9.jobs;
    Goes(s8, ConfirmHostFail(2, "h"), s9);
  }

  /** Mode 2: the only confirm call failed, yet the confirm job lets the row go at once. */
  lemma UnconfirmedRelease()
    ensures Reaches(After(0, map[], map[], ARMED, multiset{1}, multiset{1}))
  {
    ConfirmCallFails();
    var s9 := At(0, map[1 := DEVICES], map[1 := Owner, 2 := Two(Running, map["h" := CFailed])], ARMED, multiset{1});
    var s10 := ApplyConfirmDone(s9, 2);
    assert "h" !in (set h | h in s9.jobs[2].ctasks && s9.jobs[2].ctasks[h].CDone?);
    assert s10.devices == map["h" := ARMED];
    assert s10.rows == map[];
    assert s10.jobs == map[1 := Owner, 2 := Two(Ended, map["h" := CFailed])];
    Goes(s9, ConfirmDone(2), s10);
    assert s10 == After(0, map[], map[], ARMED, multiset{1}, multiset{1});
  }

  lemma NextSync()
    ensures Reaches(After(0, map[], map[3 := Push(0, Waiting(0), Todo, ARMED)], ARMED, multiset{1}, multiset{1}))
  {
    UnconfirmedRelease();
    var s10 := After(0, map[], map[], ARMED, multiset{1}, multiset{1});
    var s11 := After(0, map[], map[3 := Push(0, Waiting(0), Todo, ARMED)], ARMED, multiset{1}, multiset{1});
    var a := NewSync(3, Some(0), WANT);
    assert Apply(s10, a).jobs[3].tasks == map["h" := Todo];
    assert Apply(s10, a).jobs == s11.jobs;
    Goes(s10, a, s11);
  }

  lemma NextSyncQueries()
    ensures Reaches(After(0, map[], map[3 := Push(0, SawFree(0), Todo, ARMED)], ARMED, multiset{1}, multiset{1}))
  {
    NextSync();
    var s11 := After(0, map[], map[3 := Push(0, Waiting(0), Todo, ARMED)], ARMED, multiset{1}, multiset{1});
    var s12 := After(0, map[], map[3 := Push(0, SawFree(0), Todo, ARMED)], ARMED, multiset{1}, multiset{1});
    assert SetPhase(s11, 3, SawFree(0)).jobs == s12.jobs;
    Goes(s11, Query(3), s12);
  }

  lemma ThirdInserts(s12: State, s13: State)
    requires s12 == After(0, map[], map[3 := Push(0, SawFree(0), Todo, ARMED)], ARMED, multiset{1}, multiset{1})
    requires s13 == After(0, map[3 := DEVICES], map[3 := Push(0, Running, Todo, ARMED)], ARMED,
                          multiset{1, 3}, multiset{1})
    ensures Enabled(s12, Insert(3)) && Apply(s12, Insert(3)) == s13
  {
    assert ApplyInsert(s12, 3).jobs[3].before == map["h" := ARMED];
    assert ApplyInsert(s12, 3).jobs == s13.jobs;
  }

  lemma NextSyncLocks()
    ensures Reaches(After(0, map[3 := DEVICES], map[3 := Push(0, Running, Todo, ARMED)], ARMED,
                          multiset{1, 3}, multiset{1}))
  {
    NextSyncQueries();
    var s12 := After(0, map[], map[3 := Push(0, SawFree(0), Todo, ARMED)], ARMED, multiset{1}, multiset{1});
    var s13 := After(0, map[3 := DEVICES], map[3 := Push(0, Running, Todo, ARMED)], ARMED, multiset{1, 3}, multiset{1});
    ThirdInserts(s12, s13);
    Goes(s12, Insert(3), s13);
  }

  lemma NextSyncPushes()
    ensures Reaches(After(0, map[3 := DEVICES], map[3 := Push(0, Running, Unchanged, ARMED)], ARMED,
                          multiset{1, 3}, multiset{1}))
  {
    NextSyncLocks();
    var s13 := After(0, map[3 := DEVICES], map[3 := Push(0, Running, Todo, ARMED)], ARMED, multiset{1, 3}, multiset{1});
    var s14 := After(0, map[3 := DEVICES], map[3 := Push(0, Running, Unchanged, ARMED)], ARMED,
                     multiset{1, 3}, multiset{1});
    assert SetTask(s13, 3, "h", Unchanged).jobs[3].tasks == map["h" := Unchanged];
    assert SetTask(s13, 3, "h", Unchanged).jobs == s14.jobs;
    Goes(s13, EmptyDiff(3, "h"), s14);
  }

  /** The next job finds an empty diff and marks the host. */
  lemma NextSyncMarks() returns (pushed: State, marked: State)
    ensures Reaches(pushed) && Enabled(pushed, PushDone(3)) && marked == Apply(pushed, PushDone(3))
    ensures "h" in Marked(pushed, PushDone(3)) && Reaches(marked)
    ensures marked.now == 0 && marked.rows == map[] && marked.early == map[1 := 0]
    ensures marked.devices == map["h" := ARMED.(synchronized := true)]
  {
    NextSyncPushes();
    var grants := multiset{1, 3};
    pushed := After(0, map[3 := DEVICES], map[3 := Push(0, Running, Unchanged, ARMED)], ARMED, grants, multiset{1});
    marked := ApplyPushDone(pushed, 3);
    assert marked.rows == map[];
    assert marked.devices == map["h" := ARMED.(synchronized := true)];
    assert "h" in UnchangedHosts(pushed.jobs[3].tasks);
    Goes(pushed, PushDone(3), marked);
  }

  lemma RollsBack(s: State)
    requires s.now == 0 && s.devices == map["h" := ARMED.(synchronized := true)]
    ensures Enabled(s, Tick(300, map["h" := "old"]))
    ensures Apply(s, Tick(300, map["h" := "old"])).devices == map["h" := OLD.(synchronized := true)]
  {
    TimerFires(ARMED.(synchronized := true));
  }

  /** After an early release a job marks a host synchronized, and the next thing that happens is its roll back. */
  lemma EarlyReleaseUndoesMark() returns (pushed: State, marked: State, later: State)
    ensures Reaches(pushed) && Enabled(pushed, PushDone(3)) && "h" in Marked(pushed, PushDone(3))
    ensures marked == Apply(pushed, PushDone(3)) && marked.early == map[1 := 0] && marked.rows == map[]
    ensures marked.devices == map["h" := Device(Eos, "new", map[1 := Timer("old", 300)], true)]
    ensures Enabled(marked, Tick(300, map["h" := "old"])) && later == Apply(marked, Tick(300, map["h" := "old"]))
    ensures later.devices == map["h" := Device(Eos, "old", map[], true)]
  {
    pushed, marked := NextSyncMarks();
    RollsBack(marked);
    later := Apply(marked, Tick(300, map["h" := "old"]));
  }

  /** A sync that ends with an uncaught exception after it took the row leaves the row for good. */
  lemma CrashLeavesRow() returns (s: State)
    ensures Reaches(s) && s.rows == map[1 := DEVICES] && s.jobs.Keys == {1} && s.jobs[1].phase.Crashed?
    ensures forall later :: Legal(s, later) ==> Exec(s, later).rows == s.rows && Exec(s, later).grants == s.grants
  {
    StartPush(0);
    var s3 := At(0, map[1 := DEVICES], map[1 := Push(0, Running, Todo, OLD)], OLD, multiset{1});
    s := Apply(s3, Crash(1));
    Goes(s3, Crash(1), s);
    var s0, run :| Init(s0) && Legal(s0, run) && Exec(s0, run) == s;
    RowIsStuckIff(s0, run, 1);
  }
}
