/** What becomes of the "devices" row when a job ends with an uncaught exception, and that it is released otherwise. */
module SyncCrashes {
  import opened Common
  import opened Joblock
  import opened SyncProtocol
  import opened SyncLocking
  import opened SyncTimers
  import opened SyncFreshness
  import opened SyncTheorems

  ghost predicate NoneCritical(s: State) { forall k :: k in s.jobs ==> !Critical(s.jobs[k]) }

  /** The job of the row, or the confirm job it handed the row to, ended with an uncaught exception. */
  predicate HolderCrashed(s: State, j: JobId)
    requires j in s.jobs
  {
    var job := s.jobs[j];
    if job.Sync? && job.next.Some? then job.next.value in s.jobs && s.jobs[job.next.value].phase.Crashed?
    else job.phase.Crashed?
  }

  lemma HolderCrashedIff(s: State, j: JobId)
    requires LockInv(s) && j in s.rows
    ensures j in s.jobs && (NoneCritical(s) <==> HolderCrashed(s, j))
  {
    assert JobLockOk(s, j);
    var job := s.jobs[j];
    var k := if job.Sync? && job.next.Some? then job.next.value else j;
    assert JobLockOk(s, k);
    assert Critical(s.jobs[k]) <==> !HolderCrashed(s, j);
    forall i | i in s.jobs && Critical(s.jobs[i]) ensures Critical(s.jobs[k]) {
      assert JobLockOk(s, i);
      SoleOwner(s, j, LockId(i, s.jobs[i]));
    }
  }

  // ----------------------------------------------------------------- the row is stuck

  lemma QuietStaysStuck(s: State, s': State)
    requires NoneCritical(s) && Quiet(s, s')
    ensures NoneCritical(s')
  {
    forall k | k in s'.jobs ensures !Critical(s'.jobs[k]) { assert !Critical(s.jobs[k]); }
  }

  lemma StuckPhase(s: State, j: JobId, p: Phase)
    requires NoneCritical(s) && j in s.jobs && !Critical(s.jobs[j].(phase := p))
    ensures NoneCritical(SetPhase(s, j, p)) && SameRows(s, SetPhase(s, j, p))
  {
  }

  /** Only a job in its critical section moves the row on. */
  lemma HolderMoves(s: State, a: Step)
    requires Enabled(s, a) && (a.PushDone? || a.Conclude? || Releasing(a) || a.ConfirmStart?)
    ensures a.j in s.jobs && Critical(s.jobs[a.j])
  {
  }

  lemma StuckInsert(s: State, j: JobId)
    requires LockInv(s) && s.rows != map[] && NoneCritical(s) && Acquiring(s, j)
    ensures SameRows(s, ApplyInsert(s, j)) && NoneCritical(ApplyInsert(s, j))
  {
    TakenOrEmpty(s);
    StuckPhase(s, j, Crashed);
  }

  lemma StuckJobStep(s: State, a: Step)
    requires LockInv(s) && s.rows != map[] && NoneCritical(s) && Enabled(s, a)
    requires a.NewSync? || a.NewRefresh? || a.Query? || a.Insert? || a.WaitOver? || a.Crash?
    ensures SameRows(s, Apply(s, a)) && NoneCritical(Apply(s, a))
  {
    match a
    case Query(j) => StuckPhase(s, j, QueryPhase(s, j, s.jobs[j].phase.attempt));
    case Insert(j) => StuckInsert(s, j);
    case WaitOver(j) => StuckPhase(s, j, Ended);
    case Crash(j) => StuckPhase(s, j, Crashed);
    case NewSync(_, _, _) =>
    case NewRefresh(_) =>
  }

  lemma StuckStep(s: State, a: Step)
    requires LockInv(s) && s.rows != map[] && NoneCritical(s) && Enabled(s, a)
    ensures SameRows(s, Apply(s, a)) && NoneCritical(Apply(s, a))
  {
    if DeviceStep(a) {
      DeviceStepIsQuiet(s, a);
      QuietStaysStuck(s, Apply(s, a));
    } else if a.PushDone? || a.Conclude? || Releasing(a) || a.ConfirmStart? {
      HolderMoves(s, a);
      assert false;
    } else {
      StuckJobStep(s, a);
    }
  }

  /** A row without a critical job stays for good, and no job ever gets a row again. */
  lemma {:induction false} StuckForGood(s: State, later: seq<Step>)
    requires LockInv(s) && s.rows != map[] && NoneCritical(s) && Legal(s, later)
    ensures SameRows(s, Exec(s, later)) && NoneCritical(Exec(s, later))
    decreases |later|
  {
    if later != [] {
      StuckStep(s, later[0]);
      LockStep(s, later[0]);
      StuckForGood(Apply(s, later[0]), later[1..]);
    }
  }

  /** Running, settled, sleeping or waiting for its confirm job to start. */
  predicate InTheMiddle(job: Job) {
    match job
    case Sync(_, _, p, _, _, _) => p == Running || p == Settled || p.Sleeping?
    case Confirm(_, _, p, _) => p.Waiting? || p == Running
    case Refresh(p) => p == Running
  }

  /** A worker can die in the middle of any such job, and the row it works under then stays for good. */
  lemma CrashStrands(s: State, j: JobId, later: seq<Step>)
    requires LockInv(s) && j in s.jobs && InTheMiddle(s.jobs[j])
    ensures Enabled(s, Crash(j))
    ensures var owner := if s.jobs[j].Confirm? then s.jobs[j].prev else j;
            && owner in s.rows
            && (Legal(Apply(s, Crash(j)), later) ==>
                  && Exec(Apply(s, Crash(j)), later).rows == s.rows
                  && Exec(Apply(s, Crash(j)), later).grants == s.grants)
  {
    var s' := Apply(s, Crash(j));
    assert JobLockOk(s, j);
    LockStep(s, Crash(j));
    forall k | k in s'.jobs ensures !Critical(s'.jobs[k]) {
      if k != j && Critical(s.jobs[k]) { OneCritical(s, j, k); }
    }
    if Legal(s', later) { StuckForGood(s', later); }
  }

  // ---------------------------------------------------- and is released from everywhere else

  /** Neither an uncaught exception nor one that a handler deals with. */
  predicate Raises(a: Step) { a.Crash? || a.PushRaised? || a.ConfirmRaised? }

  predicate Orderly(run: seq<Step>) { forall i :: 0 <= i < |run| ==> !Raises(run[i]) }

  /** Some orderly continuation releases the row. */
  ghost predicate CanRelease(s: State, j: JobId) {
    exists later :: Legal(s, later) && Orderly(later) && j !in Exec(s, later).rows
  }

  lemma Before(s: State, a: Step, j: JobId)
    requires Enabled(s, a) && !Raises(a) && CanRelease(Apply(s, a), j)
    ensures CanRelease(s, j)
  {
    var later :| Legal(Apply(s, a), later) && Orderly(later) && j !in Exec(Apply(s, a), later).rows;
    var all := [a] + later;
    assert all[0] == a && all[1..] == later;
    assert Legal(s, all) && Exec(s, all) == Exec(Apply(s, a), later);
    assert Orderly(all);
  }

  lemma Gone(s: State, j: JobId)
    requires j !in s.rows
    ensures CanRelease(s, j)
  {
    assert Legal(s, []) && Exec(s, []) == s && Orderly([]);
  }

  /** A releasing step by the job under whose row it works. */
  lemma ReleasesNow(s: State, a: Step)
    requires LockInv(s) && Enabled(s, a) && !Raises(a) && Releasing(a)
    ensures CanRelease(s, LockId(a.j, s.jobs[a.j]))
  {
    var owner := LockId(a.j, s.jobs[a.j]);
    assert JobLockOk(s, a.j);
    ReleasingStepFrees(s, a);
    Gone(Apply(s, a), owner);
    Before(s, a, owner);
  }

  /** Hosts whose confirm call has not been made. */
  function Unconfirmed(ctasks: map<Host, ConfirmTask>): set<Host> { set h | h in ctasks && ctasks[h].CTodo? }

  lemma OneLessUnconfirmed(ctasks: map<Host, ConfirmTask>, h: Host)
    requires h in ctasks && ctasks[h].CTodo?
    ensures |Unconfirmed(ctasks[h := CFailed])| < |Unconfirmed(ctasks)|
  {
    assert Unconfirmed(ctasks[h := CFailed]) == Unconfirmed(ctasks) - {h};
  }

  lemma ConfirmHostsKnown(s: State, c: JobId, h: Host)
    requires LockInv(s) && TimerInv(s) && c in s.jobs && s.jobs[c].Confirm? && h in s.jobs[c].ctasks
    ensures h in s.devices
  {
    assert JobTimerOk(s, c);
    TaskFact(s, s.jobs[c].prev, h);
  }

  lemma {:induction false} ConfirmRunningReleases(s: State, c: JobId)
    requires LockInv(s) && TimerInv(s) && c in s.jobs && s.jobs[c].Confirm? && s.jobs[c].phase.Running?
    ensures CanRelease(s, s.jobs[c].prev)
    decreases |Unconfirmed(s.jobs[c].ctasks)|
  {
    if h :| h in Unconfirmed(s.jobs[c].ctasks) {
      var a := ConfirmHostFail(c, h);
      ConfirmHostsKnown(s, c, h);
      OneLessUnconfirmed(s.jobs[c].ctasks, h);
      LockStep(s, a);
      TimerStep(s, a);
      ConfirmRunningReleases(Apply(s, a), c);
      Before(s, a, s.jobs[c].prev);
    } else {
      assert forall h :: h in s.jobs[c].ctasks ==> h !in Unconfirmed(s.jobs[c].ctasks);
      ReleasesNow(s, ConfirmDone(c));
    }
  }

  lemma ConfirmWaitingReleases(s: State, c: JobId)
    requires LockInv(s) && TimerInv(s) && c in s.jobs && s.jobs[c].Confirm? && s.jobs[c].phase.Waiting?
    ensures CanRelease(s, s.jobs[c].prev)
  {
    var a := ConfirmStart(c, s.jobs[c].hosts);
    LockStep(s, a);
    TimerStep(s, a);
    ConfirmRunningReleases(Apply(s, a), c);
    Before(s, a, s.jobs[c].prev);
  }

  /** The clock reaches the end of the sleep. */
  lemma SleepEnds(s: State, j: JobId) returns (a: Step)
    requires j in s.jobs && s.jobs[j].Sync? && s.jobs[j].phase.Sleeping?
    ensures Enabled(s, a) && a.Tick? && !Raises(a) && Enabled(Apply(s, a), Wake(j)) && Apply(s, a).jobs == s.jobs
  {
    var to := if s.now <= s.jobs[j].phase.until then s.jobs[j].phase.until else s.now;
    a := Tick(to, map h | h in s.devices :: SomeOutcome(s.devices[h], to));
  }

  lemma SleepingReleases(s: State, j: JobId)
    requires LockInv(s) && j in s.jobs && s.jobs[j].Sync? && s.jobs[j].phase.Sleeping?
    ensures CanRelease(s, j)
  {
    var a := SleepEnds(s, j);
    LockStep(s, a);
    ReleasesNow(Apply(s, a), Wake(j));
    Before(s, a, j);
  }

  lemma {:induction false} FreshJob(jobs: set<JobId>) returns (c: JobId)
    ensures c !in jobs && forall j :: j in jobs ==> j < c
    decreases |jobs|
  {
    if jobs != {} {
      var j: JobId :| j in jobs;
      var d := FreshJob(jobs - {j});
      c := if d > j then d else j + 1;
      forall k | k in jobs ensures k < c { assert k != j ==> k in jobs - {j}; }
    } else {
      c := 1;
    }
  }

  lemma SettledReleases(s: State, j: JobId)
    requires LockInv(s) && TimerInv(s) && j in s.jobs && s.jobs[j].Sync? && s.jobs[j].phase.Settled?
    ensures CanRelease(s, j)
  {
    var c := FreshJob(s.jobs.Keys);
    var a := Conclude(j, c);
    var s' := Apply(s, a);
    assert JobLockOk(s, j);
    LockStep(s, a);
    TimerStep(s, a);
    if FailedHosts(s.jobs[j].tasks) != {} {
      SleepingReleases(s', j);
    } else if ChangedHosts(s.jobs[j].tasks) == {} {
      Gone(s', j);
    } else {
      ConfirmWaitingReleases(s', c);
    }
    Before(s, a, j);
  }

  /** Hosts whose push is still going on. */
  function Unfinished(tasks: map<Host, Task>): set<Host> { set h | h in tasks && !Terminal(tasks[h]) }

  lemma OneLessUnfinished(tasks: map<Host, Task>, h: Host)
    requires h in tasks && !Terminal(tasks[h])
    ensures |Unfinished(tasks[h := Failed])| < |Unfinished(tasks)|
  {
    assert Unfinished(tasks[h := Failed]) == Unfinished(tasks) - {h};
  }

  lemma PushedReleases(s: State, j: JobId)
    requires LockInv(s) && TimerInv(s) && Enabled(s, PushDone(j))
    ensures CanRelease(s, j)
  {
    var s' := ApplyPushDone(s, j);
    assert JobLockOk(s, j);
    LockStep(s, PushDone(j));
    TimerStep(s, PushDone(j));
    PushDoneRecords(s, j);
    if s'.jobs[j].phase.Settled? {
      SettledReleases(s', j);
    } else if s'.jobs[j].phase.Sleeping? {
      SleepingReleases(s', j);
    } else {
      Gone(s', j);
    }
    Before(s, PushDone(j), j);
  }

  lemma {:induction false} PushingReleases(s: State, j: JobId)
    requires LockInv(s) && TimerInv(s) && j in s.jobs && s.jobs[j].Sync? && s.jobs[j].phase.Running?
    ensures CanRelease(s, j)
    decreases |Unfinished(s.jobs[j].tasks)|
  {
    if h :| h in Unfinished(s.jobs[j].tasks) {
      var a := TaskFail(j, h);
      TaskFact(s, j, h);
      OneLessUnfinished(s.jobs[j].tasks, h);
      LockStep(s, a);
      TimerStep(s, a);
      PushingReleases(Apply(s, a), j);
      Before(s, a, j);
    } else {
      assert forall h :: h in s.jobs[j].tasks ==> h !in Unfinished(s.jobs[j].tasks);
      PushedReleases(s, j);
    }
  }

  lemma CriticalReleases(s: State, k: JobId)
    requires LockInv(s) && TimerInv(s) && k in s.jobs && Critical(s.jobs[k])
    ensures CanRelease(s, LockId(k, s.jobs[k]))
  {
    match s.jobs[k].phase
    case Waiting(_) => ConfirmWaitingReleases(s, k);
    case Running =>
      match s.jobs[k] {
        case Sync(_, _, _, _, _, _) => PushingReleases(s, k);
        case Confirm(_, _, _, _) => ConfirmRunningReleases(s, k);
        case Refresh(_) => ReleasesNow(s, RefreshDone(k));
      }
    case Settled => SettledReleases(s, k);
    case Sleeping(_) => SleepingReleases(s, k);
  }

  /**
   In every reachable state with a row: if its job, or the confirm job it handed the row to, ended
   with an uncaught exception, the row is there in every later state and no job gets a row again;
   otherwise some continuation without any exception releases it.
   */
  lemma RowIsStuckIff(s0: State, run: seq<Step>, j: JobId)
    requires Init(s0) && Legal(s0, run) && j in Exec(s0, run).rows
    ensures var s := Exec(s0, run);
            && j in s.jobs && (CanRelease(s, j) <==> !HolderCrashed(s, j))
            && (HolderCrashed(s, j) ==>
                  forall later :: Legal(s, later) ==>
                                    Exec(s, later).rows == s.rows && Exec(s, later).grants == s.grants)
  {
    InvFromStart(s0, run);
    var s := Exec(s0, run);
    HolderCrashedIff(s, j);
    if NoneCritical(s) {
      forall later | Legal(s, later) ensures SameRows(s, Exec(s, later)) { StuckForGood(s, later); }
    } else {
      var k :| k in s.jobs && Critical(s.jobs[k]);
      assert JobLockOk(s, k);
      SoleOwner(s, j, LockId(k, s.jobs[k]));
      CriticalReleases(s, k);
    }
  }
}
